/** The part-of-speech mapping: the closed table `default_pos_dict` and the
    exact lookup `pos_convert`. */
module PosTable {
  import opened Errors
  import Text

  /** One Sudachi part-of-speech entry: the six-part detailed label (itself
      comma-joined), the left and right connection ids and the word cost. */
  datatype PosEntry = PosEntry(sudachiPos: string, leftId: nat, rightId: nat, cost: nat)

  const ProperNoun: string := "固有名詞"
  const CommonNoun: string := "名詞"

  /** `default_pos_dict`. */
  const DefaultPosTable: map<string, PosEntry> := map[
    ProperNoun := PosEntry("名詞,固有名詞,一般,*,*,*", 4786, 4786, 7000),
    CommonNoun := PosEntry("名詞,普通名詞,一般,*,*,*", 5146, 5146, 7000)
  ]

  /** `pos_convert`: exact lookup; an unknown label is an
      `UnSupportedPosError` carrying that label, never a default entry. */
  function PosConvert(pos: string): (r: Result<PosEntry>)
    ensures r.Ok? <==> pos == ProperNoun || pos == CommonNoun
    ensures r.Err? ==> r.error == UnSupportedPosError(pos)
    ensures r.Ok? ==> pos in DefaultPosTable && r.value == DefaultPosTable[pos]
  {
    if pos in DefaultPosTable then Ok(DefaultPosTable[pos]) else Err(UnSupportedPosError(pos))
  }

  /** The table is closed: it has exactly the two noun labels as keys. */
  lemma TableKeys(pos: string)
    ensures pos in DefaultPosTable <==> pos == ProperNoun || pos == CommonNoun
  {
  }

  /** The two table entries, exactly. */
  lemma PosConvertEntries()
    ensures PosConvert(ProperNoun) == Ok(PosEntry("名詞,固有名詞,一般,*,*,*", 4786, 4786, 7000))
    ensures PosConvert(CommonNoun) == Ok(PosEntry("名詞,普通名詞,一般,*,*,*", 5146, 5146, 7000))
  {
  }

  /** A detailed label of the table's shape, `a,b,c,*,*,*`, is the join of
      its six parts. */
  lemma JoinSixParts(a: string, b: string, c: string)
    ensures Text.Join([a, b, c, "*", "*", "*"], ',') == a + "," + b + "," + c + ",*,*,*"
  {
    var parts := [a, b, c, "*", "*", "*"];
    var j5 := Text.Join(parts[5..], ',');
    assert parts[5..] == ["*"];
    var j4 := Text.Join(parts[4..], ',');
    assert parts[4..] == ["*"] + parts[5..];
    assert j4 == "*" + [','] + j5;
    var j3 := Text.Join(parts[3..], ',');
    assert parts[3..] == ["*"] + parts[4..];
    assert j3 == "*" + [','] + j4;
    var j2 := Text.Join(parts[2..], ',');
    assert parts[2..] == [c] + parts[3..];
    assert j2 == c + [','] + j3;
    var j1 := Text.Join(parts[1..], ',');
    assert parts[1..] == [b] + parts[2..];
    assert j1 == b + [','] + j2;
    assert Text.Join(parts, ',') == a + [','] + j1;
  }

  /** A label of that shape whose first three parts are comma-free splits
      back into its six parts. */
  lemma SplitSixParts(a: string, b: string, c: string)
    requires ',' !in a && ',' !in b && ',' !in c
    ensures Text.Split(a + "," + b + "," + c + ",*,*,*", ',') == [a, b, c, "*", "*", "*"]
  {
    JoinSixParts(a, b, c);
    Text.SplitJoin([a, b, c, "*", "*", "*"], ',');
  }

  /** The detailed label of the proper-noun entry, split into its parts. */
  lemma ProperNounParts()
    ensures Text.Split(DefaultPosTable[ProperNoun].sudachiPos, ',') == ["名詞", "固有名詞", "一般", "*", "*", "*"]
  {
    assert DefaultPosTable[ProperNoun].sudachiPos == "名詞" + "," + "固有名詞" + "," + "一般" + ",*,*,*";
    SplitSixParts("名詞", "固有名詞", "一般");
  }

  /** The detailed label of the common-noun entry, split into its parts. */
  lemma CommonNounParts()
    ensures Text.Split(DefaultPosTable[CommonNoun].sudachiPos, ',') == ["名詞", "普通名詞", "一般", "*", "*", "*"]
  {
    assert DefaultPosTable[CommonNoun].sudachiPos == "名詞" + "," + "普通名詞" + "," + "一般" + ",*,*,*";
    SplitSixParts("名詞", "普通名詞", "一般");
  }

  /** Every detailed label in the table has exactly six comma-separated
      parts: `名詞`, a noun subclass, `一般` and three `*` placeholders. */
  lemma DetailedPosHasSixParts(pos: string)
    requires pos in DefaultPosTable
    ensures Text.Split(DefaultPosTable[pos].sudachiPos, ',')
         == ["名詞", if pos == ProperNoun then "固有名詞" else "普通名詞", "一般", "*", "*", "*"]
  {
    TableKeys(pos);
    if pos == ProperNoun {
      ProperNounParts();
    } else {
      assert pos == CommonNoun;
      CommonNounParts();
    }
  }

  /** Every detailed label of the table counts as six fields when the
      output line is split on commas. */
  lemma DetailedPosPartCount(pos: string)
    requires pos in DefaultPosTable
    ensures |Text.Split(DefaultPosTable[pos].sudachiPos, ',')| == 6
  {
    DetailedPosHasSixParts(pos);
  }
}
