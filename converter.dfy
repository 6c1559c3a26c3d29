/** The line converter (`convert`): one Kuromoji user-dictionary line
    `surface,split,reading,pos,...` becomes one Sudachi user-dictionary
    line. The two collaborators are parameters: `hira2kata` stands for
    `jaconv.hira2kata` and `rewrite(path, word)` for
    `SudachiCharNormalizer(rewrite_def_path=path).rewrite(word)`. */
module Converter {
  import opened Errors
  import Text
  import Reading
  import PosTable

  /** The 13 fields of the Sudachi record, in output order. */
  function RecordFields(normalized: string, entry: PosTable.PosEntry, word: string, yomi: string): (fields: seq<string>)
    ensures |fields| == 13
  {
    [normalized, Text.Decimal(entry.leftId), Text.Decimal(entry.rightId), Text.Decimal(entry.cost),
     word, entry.sudachiPos, yomi, word, "*", "*", "*", "*", "*"]
  }

  /** `convert(line, rewrite)`. Fields 2 and 3 must exist (at least three
      commas), else the line is a `DictFormatError`; field 3 must be a
      label of the table, else an `UnSupportedPosError`; otherwise the
      record is emitted as one comma-joined line without a newline. */
  function Convert(line: string, rewritePath: string,
                   hira2kata: string -> string, rewrite: (string, string) -> string): (r: Result<string>)
    ensures r.Err? && r.error.DictFormatError? <==> Text.Count(line, ',') < 3
    ensures r.Err? && r.error.DictFormatError? ==> r.error.line == line
    ensures r.Err? && r.error.UnSupportedPosError? <==>
      Text.Count(line, ',') >= 3 && Text.Split(line, ',')[3] !in PosTable.DefaultPosTable
    ensures r.Err? && r.error.UnSupportedPosError? ==> r.error.pos == Text.Split(line, ',')[3]
  {
    var data := Text.Split(line, ',');
    var word := data[0];
    if |data| <= 2 then Err(DictFormatError(line))
    else
      var yomi := Reading.NormalizeReading(hira2kata, data[2]);
      if |data| <= 3 then Err(DictFormatError(line))
      else
        match PosTable.PosConvert(data[3])
        case Err(e) => Err(e)
        case Ok(entry) =>
          var normalized := rewrite(rewritePath, word);
          Ok(Text.Join(RecordFields(normalized, entry, word, yomi), ','))
  }

  /** The five trailing placeholder fields, joined. */
  lemma JoinPlaceholders()
    ensures Text.Join(["*", "*", "*", "*", "*"], ',') == "*,*,*,*,*"
  {
    var stars := ["*", "*", "*", "*", "*"];
    assert stars[1..] == ["*", "*", "*", "*"];
    assert stars[2..] == ["*", "*", "*"];
    assert stars[3..] == ["*", "*"];
    assert stars[4..] == ["*"];
  }

  /** The record, joined, ends with the five placeholder fields. */
  lemma RecordEndsWithPlaceholders(normalized: string, entry: PosTable.PosEntry, word: string, yomi: string)
    ensures var out := Text.Join(RecordFields(normalized, entry, word, yomi), ',');
      |out| >= 10 && out[|out| - 10..] == ",*,*,*,*,*"
  {
    var fields := RecordFields(normalized, entry, word, yomi);
    var stars := ["*", "*", "*", "*", "*"];
    assert fields == fields[..8] + stars;
    Text.JoinAppend(fields[..8], stars, ',');
    JoinPlaceholders();
    var front := Text.Join(fields[..8], ',');
    assert Text.Join(fields, ',') == front + ",*,*,*,*,*";
  }

  /** What a successful conversion is made of: field 3 is a table label and
      the line is the joined record of fields 0 and 2 and that entry. */
  lemma ConvertOkRecord(line: string, rewritePath: string,
                        hira2kata: string -> string, rewrite: (string, string) -> string)
    requires Convert(line, rewritePath, hira2kata, rewrite).Ok?
    ensures var data := Text.Split(line, ',');
      && |data| >= 4 && data[3] in PosTable.DefaultPosTable
      && Convert(line, rewritePath, hira2kata, rewrite).value
         == Text.Join(RecordFields(rewrite(rewritePath, data[0]), PosTable.DefaultPosTable[data[3]],
                                   data[0], Reading.NormalizeReading(hira2kata, data[2])), ',')
  {
  }

  /** A converted line always ends with the five placeholder fields. */
  lemma ConvertEndsWithPlaceholders(line: string, rewritePath: string,
                                    hira2kata: string -> string, rewrite: (string, string) -> string)
    requires Convert(line, rewritePath, hira2kata, rewrite).Ok?
    ensures var out := Convert(line, rewritePath, hira2kata, rewrite).value;
      |out| >= 10 && out[|out| - 10..] == ",*,*,*,*,*"
  {
    ConvertOkRecord(line, rewritePath, hira2kata, rewrite);
    var data := Text.Split(line, ',');
    RecordEndsWithPlaceholders(rewrite(rewritePath, data[0]), PosTable.DefaultPosTable[data[3]],
                               data[0], Reading.NormalizeReading(hira2kata, data[2]));
  }

  /** Split textually on commas, a record whose surface fields and reading
      are comma-free falls apart into 18 pieces: its detailed label
      contributes its own parts in place of one field. */
  lemma {:induction false} RecordPieces(normalized: string, entry: PosTable.PosEntry, word: string, yomi: string)
    requires ',' !in normalized && ',' !in word && ',' !in yomi
    ensures Text.Split(Text.Join(RecordFields(normalized, entry, word, yomi), ','), ',')
         == [normalized, Text.Decimal(entry.leftId), Text.Decimal(entry.rightId), Text.Decimal(entry.cost), word]
            + Text.Split(entry.sudachiPos, ',')
            + [yomi, word, "*", "*", "*", "*", "*"]
  {
    var head := [normalized, Text.Decimal(entry.leftId), Text.Decimal(entry.rightId),
                 Text.Decimal(entry.cost), word];
    var tail := [yomi, word, "*", "*", "*", "*", "*"];
    assert RecordFields(normalized, entry, word, yomi) == head + [entry.sudachiPos] + tail;
    Text.JoinInline(head, entry.sudachiPos, tail, ',');
    Text.DecimalHasNoComma(entry.leftId);
    Text.DecimalHasNoComma(entry.rightId);
    Text.DecimalHasNoComma(entry.cost);
    assert Text.SeparatorFree(head, ',');
    assert Text.SeparatorFree(tail, ',');
    Text.SplitFieldsFree(entry.sudachiPos, ',');
    Text.SeparatorFreeAppend(head, Text.Split(entry.sudachiPos, ','), ',');
    Text.SeparatorFreeAppend(head + Text.Split(entry.sudachiPos, ','), tail, ',');
    Text.SplitJoin(head + Text.Split(entry.sudachiPos, ',') + tail, ',');
  }

  /** The 18 pieces of a record whose label has six parts, with the
      surface at positions 4 and 12. */
  lemma RecordLayout(normalized: string, entry: PosTable.PosEntry, word: string, yomi: string)
    requires ',' !in normalized && ',' !in word && ',' !in yomi
    requires |Text.Split(entry.sudachiPos, ',')| == 6
    ensures var pieces := Text.Split(Text.Join(RecordFields(normalized, entry, word, yomi), ','), ',');
      && pieces == [normalized, Text.Decimal(entry.leftId), Text.Decimal(entry.rightId), Text.Decimal(entry.cost), word]
                   + Text.Split(entry.sudachiPos, ',')
                   + [yomi, word, "*", "*", "*", "*", "*"]
      && |pieces| == 18 && pieces[4] == word && pieces[12] == word
  {
    RecordPieces(normalized, entry, word, yomi);
    var head := [normalized, Text.Decimal(entry.leftId), Text.Decimal(entry.rightId), Text.Decimal(entry.cost), word];
    var parts := Text.Split(entry.sudachiPos, ',');
    var tail := [yomi, word, "*", "*", "*", "*", "*"];
    assert (head + parts + tail)[4] == head[4];
    assert (head + parts + tail)[12] == tail[1];
  }

  /** Split textually on commas, a converted line has 18 pieces: the
      rewritten surface, the three table numbers, the surface, the six parts
      of the detailed label, the normalised reading, the surface again and
      five placeholders. So the 5th and the 13th piece (the 5th and 8th
      field of the 13-field record) are input field 0. This holds whenever
      the rewriter keeps commas out of the surface it returns. */
  lemma ConvertOutputPieces(line: string, rewritePath: string,
                            hira2kata: string -> string, rewrite: (string, string) -> string)
    requires Convert(line, rewritePath, hira2kata, rewrite).Ok?
    requires ',' !in rewrite(rewritePath, Text.Split(line, ',')[0])
    ensures var data := Text.Split(line, ',');
      var entry := PosTable.DefaultPosTable[data[3]];
      var pieces := Text.Split(Convert(line, rewritePath, hira2kata, rewrite).value, ',');
      && pieces == [rewrite(rewritePath, data[0]), Text.Decimal(entry.leftId), Text.Decimal(entry.rightId),
                    Text.Decimal(entry.cost), data[0]]
                   + Text.Split(entry.sudachiPos, ',')
                   + [Reading.NormalizeReading(hira2kata, data[2]), data[0], "*", "*", "*", "*", "*"]
      && |pieces| == 18 && pieces[4] == data[0] && pieces[12] == data[0]
  {
    ConvertOkRecord(line, rewritePath, hira2kata, rewrite);
    var data := Text.Split(line, ',');
    Text.SplitFieldsFree(line, ',');
    assert ',' !in data[0];
    PosTable.DetailedPosPartCount(data[3]);
    RecordLayout(rewrite(rewritePath, data[0]), PosTable.DefaultPosTable[data[3]], data[0],
                 Reading.NormalizeReading(hira2kata, data[2]));
  }

  /** The result depends only on fields 0, 2 and 3 of a line with at least
      four fields: the split hint (field 1) and any field after 3 are
      ignored. */
  lemma ConvertIgnoresOtherFields(a: string, b: string, rewritePath: string,
                                  hira2kata: string -> string, rewrite: (string, string) -> string)
    requires |Text.Split(a, ',')| >= 4 && |Text.Split(b, ',')| >= 4
    requires Text.Split(a, ',')[0] == Text.Split(b, ',')[0]
    requires Text.Split(a, ',')[2] == Text.Split(b, ',')[2]
    requires Text.Split(a, ',')[3] == Text.Split(b, ',')[3]
    ensures Convert(a, rewritePath, hira2kata, rewrite) == Convert(b, rewritePath, hira2kata, rewrite)
  {
  }

  /** A failing line fails the same way whatever the rewriter, its path and
      the script converter are: the rewriter is never consulted before the
      error; `hira2kata` is applied to field 2 of any line with three or more
      fields, but its result cannot change the outcome. */
  lemma ConvertFailureIgnoresCollaborators(line: string,
                                           path1: string, hira1: string -> string, rewrite1: (string, string) -> string,
                                           path2: string, hira2: string -> string, rewrite2: (string, string) -> string)
    requires Convert(line, path1, hira1, rewrite1).Err?
    ensures Convert(line, path2, hira2, rewrite2) == Convert(line, path1, hira1, rewrite1)
  {
  }

  /** `str` of the table numbers. */
  lemma TableNumbersInDecimal()
    ensures Text.Decimal(4786) == "4786" && Text.Decimal(5146) == "5146" && Text.Decimal(7000) == "7000"
  {
    assert Text.Decimal(47) == "47" && Text.Decimal(478) == "478";
    assert Text.Decimal(51) == "51" && Text.Decimal(514) == "514";
    assert Text.Decimal(70) == "70" && Text.Decimal(700) == "700";
  }

  /** A line labelled `固有名詞` becomes the proper-noun record: the rewritten
      surface, ids 4786/4786, cost 7000, the surface, `名詞,固有名詞,一般,*,*,*`,
      the normalised reading, the surface and five placeholders. */
  lemma ConvertProperNoun(line: string, rewritePath: string,
                          hira2kata: string -> string, rewrite: (string, string) -> string)
    requires |Text.Split(line, ',')| >= 4 && Text.Split(line, ',')[3] == PosTable.ProperNoun
    ensures var data := Text.Split(line, ',');
      Convert(line, rewritePath, hira2kata, rewrite)
      == Ok(Text.Join([rewrite(rewritePath, data[0]), "4786", "4786", "7000", data[0], "名詞,固有名詞,一般,*,*,*",
                       Reading.NormalizeReading(hira2kata, data[2]), data[0], "*", "*", "*", "*", "*"], ','))
  {
    PosTable.PosConvertEntries();
    TableNumbersInDecimal();
  }

  /** A line labelled `名詞` becomes the common-noun record, with ids
      5146/5146, cost 7000 and `名詞,普通名詞,一般,*,*,*`. */
  lemma ConvertCommonNoun(line: string, rewritePath: string,
                          hira2kata: string -> string, rewrite: (string, string) -> string)
    requires |Text.Split(line, ',')| >= 4 && Text.Split(line, ',')[3] == PosTable.CommonNoun
    ensures var data := Text.Split(line, ',');
      Convert(line, rewritePath, hira2kata, rewrite)
      == Ok(Text.Join([rewrite(rewritePath, data[0]), "5146", "5146", "7000", data[0], "名詞,普通名詞,一般,*,*,*",
                       Reading.NormalizeReading(hira2kata, data[2]), data[0], "*", "*", "*", "*", "*"], ','))
  {
    PosTable.PosConvertEntries();
    TableNumbersInDecimal();
  }

  /** The proper-noun example: the line `本田,,ホンダ,固有名詞`, with a rewriter
      that leaves the surface as it is and a converter that keeps the
      katakana reading, becomes
      `本田,4786,4786,7000,本田,名詞,固有名詞,一般,*,*,*,ホンダ,本田,*,*,*,*,*`. */
  lemma ConvertProperNounExample(rewritePath: string, hira2kata: string -> string)
    requires hira2kata("ホンダ") == "ホンダ"
    ensures Convert(Text.Join(["本田", "", "ホンダ", "固有名詞"], ','), rewritePath, hira2kata, (path, word) => word)
         == Ok(Text.Join(["本田", "4786", "4786", "7000", "本田", "名詞,固有名詞,一般,*,*,*",
                          "ホンダ", "本田", "*", "*", "*", "*", "*"], ','))
  {
    var line := Text.Join(["本田", "", "ホンダ", "固有名詞"], ',');
    ProperNounExampleFields();
    ProperNounExampleReading();
    Reading.KatakanaReadingKept(hira2kata, "ホンダ");
    ConvertProperNoun(line, rewritePath, hira2kata, (path, word) => word);
  }

  /** The four fields of the proper-noun example line. */
  lemma ProperNounExampleFields()
    ensures Text.Split(Text.Join(["本田", "", "ホンダ", "固有名詞"], ','), ',') == ["本田", "", "ホンダ", "固有名詞"]
  {
    var fields := ["本田", "", "ホンダ", "固有名詞"];
    assert Text.SeparatorFree(fields, ',');
    Text.SplitJoin(fields, ',');
  }

  /** The reading of the proper-noun example lies in the katakana block. */
  lemma ProperNounExampleReading()
    ensures Reading.FullyKatakana("ホンダ")
  {
    var y := "ホンダ";
    forall i | 0 <= i < |y| ensures Reading.IsKatakana(y[i]) {
      if i == 0 { assert y[0] == 'ホ'; }
      else if i == 1 { assert y[1] == 'ン'; }
      else { assert y[2] == 'ダ'; }
    }
  }

  /** A line with an unknown part of speech fails with that label. */
  lemma ConvertUnknownPosExample(rewritePath: string, hira2kata: string -> string, rewrite: (string, string) -> string)
    ensures Convert(Text.Join(["foo", "", "bar", "未知語"], ','), rewritePath, hira2kata, rewrite)
         == Err(UnSupportedPosError("未知語"))
  {
    UnknownPosExampleFields();
    PosTable.TableKeys("未知語");
  }

  /** The four fields of the unknown-label example line. */
  lemma UnknownPosExampleFields()
    ensures Text.Split(Text.Join(["foo", "", "bar", "未知語"], ','), ',') == ["foo", "", "bar", "未知語"]
  {
    var fields := ["foo", "", "bar", "未知語"];
    assert Text.SeparatorFree(fields, ',');
    Text.SplitJoin(fields, ',');
  }

  /** A line with two fields fails with the whole line. */
  lemma ConvertTwoFieldsExample(rewritePath: string, hira2kata: string -> string, rewrite: (string, string) -> string)
    ensures Convert("onlytwo,fields", rewritePath, hira2kata, rewrite) == Err(DictFormatError("onlytwo,fields"))
  {
    assert Text.Split("onlytwo,fields", ',') == ["onlytwo", "fields"] by {
      assert "onlytwo,fields" == "onlytwo" + [','] + "fields";
      Text.SplitTwoFields("onlytwo", "fields", ',');
    }
  }
}
