/** Reading normalisation (`nomlized_yomi`): convert hiragana to katakana
    and keep the result only when it lies wholly in the katakana block
    U+30A1..U+30FC; anything else becomes the empty reading. */
module Reading {

  /** One character of the class `[ァ-ー]`. */
  predicate IsKatakana(c: char) {
    '\U{30A1}' <= c <= '\U{30FC}'
  }

  /** `p.fullmatch(s)` succeeds for the pattern `[ァ-ー]*`: every
      character is in the class (the empty string included). */
  predicate FullyKatakana(s: string) {
    forall i :: 0 <= i < |s| ==> IsKatakana(s[i])
  }

  /** `[ァ-ー]*` is a starred class: a concatenation matches exactly when
      both parts match. */
  lemma FullyKatakanaConcat(a: string, b: string)
    ensures FullyKatakana(a + b) <==> FullyKatakana(a) && FullyKatakana(b)
  {
    if FullyKatakana(a + b) {
      forall i | 0 <= i < |a| ensures IsKatakana(a[i]) {
        assert (a + b)[i] == a[i];
      }
      forall i | 0 <= i < |b| ensures IsKatakana(b[i]) {
        assert (a + b)[|a| + i] == b[i];
      }
    }
  }

  /** `nomlized_yomi`. `hira2kata` stands for `jaconv.hira2kata`, whose
      behaviour is not part of this model. The function never fails: it
      gives the converted reading when that passes the character check and
      the empty reading otherwise. */
  function NormalizeReading(hira2kata: string -> string, yomi: string): (r: string)
    ensures r == hira2kata(yomi) || r == ""
    ensures FullyKatakana(r)
    ensures ',' !in r
    ensures r == hira2kata(yomi) <==> FullyKatakana(hira2kata(yomi))
  {
    var kata := hira2kata(yomi);
    if FullyKatakana(kata) then kata else ""
  }

  /** A converted reading holding any character outside the katakana block
      (a Latin letter, a digit, a comma, ...) is dropped. */
  lemma ForeignCharacterDropsReading(hira2kata: string -> string, yomi: string, i: nat)
    requires i < |hira2kata(yomi)| && !IsKatakana(hira2kata(yomi)[i])
    ensures NormalizeReading(hira2kata, yomi) == ""
  {
  }

  /** A reading the converter leaves as it is, wholly in katakana, is kept
      as it is. */
  lemma KatakanaReadingKept(hira2kata: string -> string, yomi: string)
    requires hira2kata(yomi) == yomi
    requires FullyKatakana(yomi)
    ensures NormalizeReading(hira2kata, yomi) == yomi
  {
  }

  /** Under the ASSUMPTION (not guaranteed by anything in this model) that
      `hira2kata` leaves a string already wholly in katakana unchanged,
      normalisation is idempotent. */
  lemma NormalizeReadingIdempotent(hira2kata: string -> string, yomi: string)
    requires forall s :: FullyKatakana(s) ==> hira2kata(s) == s
    ensures NormalizeReading(hira2kata, NormalizeReading(hira2kata, yomi))
         == NormalizeReading(hira2kata, yomi)
  {
    var r := NormalizeReading(hira2kata, yomi);
    assert hira2kata(r) == r;
  }
}
