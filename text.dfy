/** Text helpers the converter relies on: Python's `str.split(sep)` with a
    one-character separator, its inverse `sep.join(...)`, and the decimal
    rendering an f-string gives a non-negative `int`. */
module Text {

  /** How many times `c` occurs in `s`. */
  function Count(s: string, c: char): nat
  {
    if s == [] then 0 else (if s[0] == c then 1 else 0) + Count(s[1..], c)
  }

  /** Occurrences add up over a concatenation. */
  lemma {:induction false} CountAppend(a: string, b: string, c: char)
    ensures Count(a + b, c) == Count(a, c) + Count(b, c)
  {
    if a == [] {
      assert a + b == b;
    } else {
      assert (a + b)[0] == a[0] && (a + b)[1..] == a[1..] + b;
      CountAppend(a[1..], b, c);
    }
  }

  /** Text without `c` has no occurrence of it to count. */
  lemma {:induction false} CountAbsent(s: string, c: char)
    requires c !in s
    ensures Count(s, c) == 0
  {
    if s != [] {
      assert forall k :: 0 <= k < |s[1..]| ==> s[1..][k] == s[k + 1];
      CountAbsent(s[1..], c);
    }
  }

  /** The position of the first `c` in `s`. */
  function FirstIndex(s: string, c: char): (i: nat)
    requires c in s
    ensures i < |s| && s[i] == c && c !in s[..i]
  {
    if s[0] == c then 0
    else
      var j := FirstIndex(s[1..], c);
      assert s[..j + 1] == [s[0]] + s[1..][..j];
      j + 1
  }

  /** Python `s.split(sep)`: cut at every `sep`, keeping empty fields; the
      empty string gives one empty field. There is one more field than
      there are separators. */
  function Split(s: string, sep: char): (r: seq<string>)
    ensures |r| == Count(s, sep) + 1
    decreases |s|
  {
    if sep !in s then
      CountAbsent(s, sep);
      [s]
    else
      var i := FirstIndex(s, sep);
      assert s == s[..i] + [sep] + s[i + 1..];
      CountAppend(s[..i] + [sep], s[i + 1..], sep);
      CountAppend(s[..i], [sep], sep);
      CountAbsent(s[..i], sep);
      [s[..i]] + Split(s[i + 1..], sep)
  }

  /** Python `sep.join(fields)`. */
  function Join(fields: seq<string>, sep: char): (s: string)
    requires |fields| >= 1
  {
    if |fields| == 1 then fields[0] else fields[0] + [sep] + Join(fields[1..], sep)
  }

  /** Joining separator-free fields puts exactly one separator between
      neighbours: one fewer separator than fields. */
  lemma {:induction false} JoinCount(fields: seq<string>, sep: char)
    requires |fields| >= 1 && SeparatorFree(fields, sep)
    ensures Count(Join(fields, sep), sep) == |fields| - 1
  {
    assert sep !in fields[0];
    CountAbsent(fields[0], sep);
    if |fields| > 1 {
      assert SeparatorFree(fields[1..], sep) by {
        forall i | 0 <= i < |fields| - 1 ensures sep !in fields[1..][i] {
          assert fields[1..][i] == fields[i + 1];
        }
      }
      JoinCount(fields[1..], sep);
      CountAppend(fields[0] + [sep], Join(fields[1..], sep), sep);
      CountAppend(fields[0], [sep], sep);
    }
  }

  /** No field of a split contains the separator. */
  lemma {:induction false} SplitFieldsFree(s: string, sep: char)
    ensures SeparatorFree(Split(s, sep), sep)
    decreases |s|
  {
    if sep in s {
      var i := FirstIndex(s, sep);
      SplitFieldsFree(s[i + 1..], sep);
      SeparatorFreeAppend([s[..i]], Split(s[i + 1..], sep), sep);
    }
  }

  /** Joining the fields of a split gives back the original text. */
  lemma {:induction false} JoinSplit(s: string, sep: char)
    ensures Join(Split(s, sep), sep) == s
    decreases |s|
  {
    if sep in s {
      var i := FirstIndex(s, sep);
      JoinSplit(s[i + 1..], sep);
      var r := Split(s, sep);
      assert r[0] == s[..i] && r[1..] == Split(s[i + 1..], sep);
      assert s == s[..i] + [sep] + s[i + 1..];
    }
  }

  /** Text without the separator splits into itself alone. */
  lemma SplitFree(a: string, sep: char)
    requires sep !in a
    ensures Split(a, sep) == [a]
  {
  }

  /** A separator-free prefix followed by the separator becomes one field. */
  lemma SplitPrefix(a: string, sep: char, b: string)
    requires sep !in a
    ensures Split(a + [sep] + b, sep) == [a] + Split(b, sep)
  {
    var s := a + [sep] + b;
    assert s[|a|] == sep;
    var i := FirstIndex(s, sep);
    if i != |a| {
      assert false;
    }
    assert s[..i] == a && s[i + 1..] == b;
  }

  /** Splitting a line of two separator-free fields. */
  lemma SplitTwoFields(f0: string, f1: string, sep: char)
    requires sep !in f0 && sep !in f1
    ensures Split(f0 + [sep] + f1, sep) == [f0, f1]
  {
    SplitFree(f1, sep);
    SplitPrefix(f0, sep, f1);
  }

  /** Splitting a join of separator-free fields recovers the fields. */
  lemma {:induction false} SplitJoin(fields: seq<string>, sep: char)
    requires |fields| >= 1
    requires SeparatorFree(fields, sep)
    ensures Split(Join(fields, sep), sep) == fields
  {
    if |fields| == 1 {
      SplitFree(fields[0], sep);
    } else {
      assert sep !in fields[0];
      assert SeparatorFree(fields[1..], sep) by {
        forall i | 0 <= i < |fields| - 1 ensures sep !in fields[1..][i] {
          assert fields[1..][i] == fields[i + 1];
        }
      }
      SplitJoin(fields[1..], sep);
      SplitPrefix(fields[0], sep, Join(fields[1..], sep));
      assert [fields[0]] + fields[1..] == fields;
    }
  }

  /** Joining a concatenation puts one separator between the two joins. */
  lemma {:induction false} JoinAppend(xs: seq<string>, ys: seq<string>, sep: char)
    requires |xs| >= 1 && |ys| >= 1
    ensures Join(xs + ys, sep) == Join(xs, sep) + [sep] + Join(ys, sep)
  {
    if |xs| > 1 {
      JoinAppend(xs[1..], ys, sep);
      assert (xs + ys)[1..] == xs[1..] + ys;
    }
  }

  /** Joining with a field replaced by the fields it splits into changes
      nothing. */
  lemma JoinInline(xs: seq<string>, p: string, ys: seq<string>, sep: char)
    requires |xs| >= 1 && |ys| >= 1
    ensures Join(xs + [p] + ys, sep) == Join(xs + Split(p, sep) + ys, sep)
  {
    var ps := Split(p, sep);
    var withField := [p] + ys;
    var withParts := ps + ys;
    assert xs + [p] + ys == xs + withField;
    assert xs + ps + ys == xs + withParts;
    JoinAppend(xs, withField, sep);
    JoinAppend(xs, withParts, sep);
    JoinAppend([p], ys, sep);
    JoinAppend(ps, ys, sep);
    JoinSplit(p, sep);
    assert Join(withField, sep) == Join(withParts, sep);
  }

  /** No field contains the separator. */
  predicate SeparatorFree(fields: seq<string>, sep: char) {
    forall i :: 0 <= i < |fields| ==> sep !in fields[i]
  }

  lemma SeparatorFreeAppend(xs: seq<string>, ys: seq<string>, sep: char)
    requires SeparatorFree(xs, sep) && SeparatorFree(ys, sep)
    ensures SeparatorFree(xs + ys, sep)
  {
    forall i | 0 <= i < |xs + ys| ensures sep !in (xs + ys)[i] {
      if i >= |xs| {
        assert (xs + ys)[i] == ys[i - |xs|];
      }
    }
  }

  predicate IsDigit(c: char) { '0' <= c <= '9' }

  predicate AllDigits(s: string) { forall i :: 0 <= i < |s| ==> IsDigit(s[i]) }

  function DigitChar(d: nat): (c: char)
    requires d < 10
    ensures IsDigit(c) && c as int - '0' as int == d
  {
    ('0' as int + d) as char
  }

  /** `str(n)` for a non-negative Python int: shortest decimal digits, no
      sign, no leading zero. */
  function Decimal(n: nat): (s: string)
    ensures |s| >= 1 && AllDigits(s)
    ensures |s| > 1 ==> s[0] != '0'
  {
    if n < 10 then [DigitChar(n)] else Decimal(n / 10) + [DigitChar(n % 10)]
  }

  /** The value a string of decimal digits denotes. */
  function DecimalValue(s: string): nat
    requires AllDigits(s)
  {
    if s == [] then 0
    else DecimalValue(s[..|s| - 1]) * 10 + (s[|s| - 1] as int - '0' as int)
  }

  /** Reading the rendered digits back gives the number. */
  lemma {:induction false} DecimalRoundTrip(n: nat)
    ensures DecimalValue(Decimal(n)) == n
  {
    if n >= 10 {
      DecimalRoundTrip(n / 10);
      var s := Decimal(n);
      assert s[..|s| - 1] == Decimal(n / 10);
    }
  }

  /** Decimal digits never contain a comma. */
  lemma DecimalHasNoComma(n: nat)
    ensures ',' !in Decimal(n)
  {
  }
}
