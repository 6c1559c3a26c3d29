# kuro2sudachi line converter in Dafny

kuro2sudachi turns a Kuromoji user dictionary into a Sudachi user
dictionary, one line at a time. An input line has the form
`surface,split,reading,pos,...`. The converter:

- normalises the reading: it goes through `hira2kata` and is kept only when
  every character is in the katakana block U+30A1..U+30FC, and is emptied
  otherwise;
- maps the part-of-speech label through a closed two-entry table (`固有名詞`
  and `名詞`);
- emits a 13-field Sudachi record: the rewritten surface, the left and right
  connection ids, the cost, the surface, the six-part detailed label, the
  reading, the surface again, and five `*` placeholders.

A line with fewer than four fields (fewer than three commas) is a
`DictFormatError`. A label outside the
table is an `UnSupportedPosError`. The command-line loop skips blank lines.
On a failing line it either skips the line (`--ignore`) or stops the run.

Modules:

- `Text` (`text.dfy`): Python's `str.split` with a one-character separator, `sep.join`, and `str` of a non-negative integer, each with round-trip lemmas.
- `Errors` (`errors.dfy`): the datatype `CoreError`, whose two constructors stand for the two exception classes `DictFormatError` and `UnSupportedPosError` (src/kuro2sudachi/core.py:29-38), and the result type that carries them in place of a raised exception.
- `Reading` (`reading.dfy`): the regex class and `nomlized_yomi`.
- `PosTable` (`pos_table.dfy`): `default_pos_dict` as the constant map `DefaultPosTable` (src/kuro2sudachi/core.py:21-24), and `pos_convert`. A constant carries no contract; `TableKeys` fixes its keys and `PosConvertEntries` fixes its two entries.
- `Converter` (`converter.dfy`): `convert` and the properties of the record it emits.
- `Driver` (`driver.dfy`): the per-line policy of `cli`. It is a specification function `Drive` and a loop method `Cli` proved equal to it, plus lemmas about skipping and aborting.

The two library collaborators are parameters of the model. Every result holds
for any behaviour they may have, unless its `requires` states an assumption
about them. Five lemmas do: `Converter.ConvertProperNounExample` (an identity
rewriter and `hira2kata("ホンダ") == "ホンダ"`), `Reading.KatakanaReadingKept`
(`hira2kata` fixes the given reading), `Reading.ForeignCharacterDropsReading`
(the converted reading holds a character outside the katakana block),
`Reading.NormalizeReadingIdempotent`
(`hira2kata` fixes every all-katakana string) and
`Converter.ConvertOutputPieces` (the rewritten surface contains no comma).
The collaborators are:

- `hira2kata: string -> string` stands for `jaconv.hira2kata`.
- `rewrite: (string, string) -> string` stands for
  `SudachiCharNormalizer(rewrite_def_path=path).rewrite(word)`, applied to
  the rewrite path and the surface.

## Model

| member | source | states |
|---|---|---|
| Text.Split | src/kuro2sudachi/core.py:59 | `line.split(",")` keeps empty fields and yields exactly one more field than there are separators |
| Text.JoinSplit | src/kuro2sudachi/core.py:59 | joining the fields of a split with the separator gives the original text back |
| Text.SplitJoin | src/kuro2sudachi/core.py:59 | splitting a join of separator-free fields gives the fields back |
| Text.SplitFieldsFree | src/kuro2sudachi/core.py:59 | no field produced by the split contains the separator |
| Text.Join | src/kuro2sudachi/core.py:70 | the comma assembly of the record's fields; no contract of its own: `Text.JoinSplit`, `Text.SplitJoin` and `Text.JoinCount` state what it means |
| Text.JoinCount | src/kuro2sudachi/core.py:70 | joining separator-free fields writes exactly one separator fewer than there are fields |
| Text.JoinInline | src/kuro2sudachi/core.py:70 | writing a comma-containing value as one field joins to the same text as writing its comma parts as separate fields |
| Text.Decimal | src/kuro2sudachi/core.py:70 | the f-string rendering of a table integer is a non-empty digit string with no leading zero |
| Text.DecimalRoundTrip | src/kuro2sudachi/core.py:70 | reading the rendered digits back as a decimal number gives the integer |
| Text.DecimalHasNoComma | src/kuro2sudachi/core.py:70 | a rendered integer never adds a comma to the record |
| Reading.FullyKatakana | src/kuro2sudachi/core.py:26 | `p.fullmatch` for `[ァ-ー]*`: every character lies in U+30A1..U+30FC, the empty string included; a predicate with no contract of its own, characterised by `Reading.FullyKatakanaConcat` |
| Reading.FullyKatakanaConcat | src/kuro2sudachi/core.py:26 | as for a starred character class, a concatenation matches exactly when both parts match |
| Reading.NormalizeReading | src/kuro2sudachi/core.py:26-46 | the result is either `hira2kata(yomi)` or `""`; it is always wholly in U+30A1..U+30FC and comma-free; it is the converted reading exactly when that reading fully matches `[ァ-ー]*` |
| Reading.ForeignCharacterDropsReading | src/kuro2sudachi/core.py:26-46 | one character outside the katakana block anywhere in the converted reading makes the result `""` |
| Reading.KatakanaReadingKept | src/kuro2sudachi/core.py:42-44 | a katakana reading that `hira2kata` leaves unchanged is returned unchanged |
| Reading.NormalizeReadingIdempotent | src/kuro2sudachi/core.py:41-46 | assuming `hira2kata` fixes all-katakana strings, normalising twice is the same as normalising once |
| PosTable.PosConvert | src/kuro2sudachi/core.py:50-55 | succeeds exactly for `固有名詞` and `名詞`, with that table entry; any other label fails with `UnSupportedPosError` carrying that label, never a default entry |
| PosTable.TableKeys | src/kuro2sudachi/core.py:21-24 | the table's keys are exactly the two noun labels |
| PosTable.PosConvertEntries | src/kuro2sudachi/core.py:21-24 | the two entries exactly: ids 4786/4786 with cost 7000, and ids 5146/5146 with cost 7000, and their detailed labels |
| PosTable.DetailedPosHasSixParts | src/kuro2sudachi/core.py:22-23 | each entry's `sudachi_pos` splits on commas into its six named subfields |
| PosTable.DetailedPosPartCount | src/kuro2sudachi/core.py:22-23 | each entry's `sudachi_pos` has exactly six comma-separated subfields |
| Converter.RecordFields | src/kuro2sudachi/core.py:70 | the emitted record has 13 fields |
| Converter.Convert | src/kuro2sudachi/core.py:58-70 | `DictFormatError` carrying the line exactly when the line has fewer than three commas; `UnSupportedPosError` carrying field 3 exactly when there are enough fields and field 3 is not a table label |
| Converter.ConvertOkRecord | src/kuro2sudachi/core.py:61-70 | a successful conversion has at least four fields and a table label in field 3, and its output is the joined 13-field record built from fields 0 and 2 and that entry |
| Converter.ConvertEndsWithPlaceholders | src/kuro2sudachi/core.py:70 | every converted line ends with `,*,*,*,*,*` |
| Converter.RecordPieces | src/kuro2sudachi/core.py:70 | split textually, a record with comma-free surface fields falls apart into its fields with the detailed label replaced by its parts |
| Converter.RecordLayout | src/kuro2sudachi/core.py:70 | when the rewritten surface, the surface and the reading are comma-free and the label has six parts, the record has 18 comma pieces and the surface at pieces 4 and 12 |
| Converter.ConvertOutputPieces | src/kuro2sudachi/core.py:59-70 | a converted line splits into 18 pieces in the layout rewrite(f0), left id, right id, cost, f0, the six label parts, normalised f2, f0, five `*`; the 5th and 8th record fields are input field 0 |
| Converter.ConvertIgnoresOtherFields | src/kuro2sudachi/core.py:59-70 | two lines that agree on fields 0, 2 and 3 convert to the same result: the split hint and any later fields are ignored |
| Converter.ConvertFailureIgnoresCollaborators | src/kuro2sudachi/core.py:60-69 | a failing line fails identically whatever rewriter, rewrite path and `hira2kata` are used, so the rewriter cannot affect (or rescue) a failure |
| Converter.TableNumbersInDecimal | src/kuro2sudachi/core.py:21-24 | the table numbers render as `4786`, `5146` and `7000` |
| Converter.ConvertProperNoun | src/kuro2sudachi/core.py:58-70 | a line labelled `固有名詞` becomes rewrite(f0),4786,4786,7000,f0,`名詞,固有名詞,一般,*,*,*`,normalised f2,f0 and five `*` |
| Converter.ConvertCommonNoun | src/kuro2sudachi/core.py:58-70 | a line labelled `名詞` becomes rewrite(f0),5146,5146,7000,f0,`名詞,普通名詞,一般,*,*,*`,normalised f2,f0 and five `*` |
| Converter.ConvertProperNounExample | src/kuro2sudachi/core.py:58-70 | assuming `hira2kata("ホンダ") == "ホンダ"`, `本田,,ホンダ,固有名詞` with an identity rewriter becomes `本田,4786,4786,7000,本田,名詞,固有名詞,一般,*,*,*,ホンダ,本田,*,*,*,*,*` |
| Converter.ConvertUnknownPosExample | src/kuro2sudachi/core.py:58-66 | `foo,,bar,未知語` (written as the comma join of its four fields) fails with `UnSupportedPosError("未知語")` |
| Converter.ConvertTwoFieldsExample | src/kuro2sudachi/core.py:59-66 | `onlytwo,fields` fails with `DictFormatError` carrying the whole line |
| Driver.Drive | src/kuro2sudachi/core.py:77-91 | the specification of the loop over stripped lines: skip a blank line, prepend a conversion, skip or stop at a failure; no contract of its own: `Driver.Cli` is proved equal to it and the driver lemmas below state its policy |
| Driver.DriveWritesAtMostOnePerLine | src/kuro2sudachi/core.py:77-91 | a run writes at most one line per input line |
| Driver.Cli | src/kuro2sudachi/core.py:77-91 | the loop writes, and ends, exactly as the front-to-back specification `Drive` says |
| Driver.IgnoreWritesAllAccepted | src/kuro2sudachi/core.py:79-91 | under `--ignore` the run always completes and writes the conversions of the accepted non-blank lines, in input order |
| Driver.StrictCompletes | src/kuro2sudachi/core.py:79-91 | without `--ignore`, a run in which no line fails completes and writes every conversion in order |
| Driver.StrictAbortsAtFirstFailure | src/kuro2sudachi/core.py:83-91 | without `--ignore`, the first failing line stops the run with its error, after the conversions of the earlier lines have been written in order |
| Driver.BlankLineIsSkipped | src/kuro2sudachi/core.py:79-80 | inserting a blank line anywhere changes neither what is written nor how the run ends |

## Left out

- `jaconv.hira2kata` is a parameter. Its behaviour is not part of this model, so no property depends on it except where a lemma states an assumption about it in its `requires`.
- `SudachiCharNormalizer` and the `rewrite.def` grammar (src/kuro2sudachi/normalizer.py) are not part of this model. The rewriter is a parameter over (path, word). Errors raised while loading the rewrite file would propagate out of `convert` and `cli`; they are not modelled.
- The argument parser (src/kuro2sudachi/core.py:10-19), opening files, `fileinput`, and `out.write` are I/O and are left out. The driver takes the lines of the input file as a sequence and returns the sequence of lines written. It does not model the `"\n"` the writer appends to each line.
- Python's `str.strip` whitespace set (src/kuro2sudachi/core.py:78) is left out. The driver's lines are taken as already stripped.
- The exception message text is left out. The errors carry the line or the label from which the messages are built.
- The unreachable `return ""` at src/kuro2sudachi/core.py:47 is not modelled.
- In `convert` the reading is normalised before field 3 is read, as in the source. Because the collaborators are pure functions here, that order has no observable effect in the model.
- The rewriter object is built only after the lookups succeed. That construction is not modelled separately; `Converter.ConvertFailureIgnoresCollaborators` states the observable part.
- Reading.NormalizeReadingIdempotent: holds only under an explicit assumption about `hira2kata` in its `requires`. Nothing in this model guarantees that `hira2kata` leaves katakana unchanged.
- Converter.ConvertOutputPieces: requires that the rewriter's output for the surface contains no comma. Without that, the textual piece count of the output is not fixed.
- Converter.ConvertProperNounExample: holds only for the identity rewriter and a `hira2kata` that maps `ホンダ` to itself, both stated in the lemma. The example line is written as the comma join of its four fields. The expected output is written as the comma join of its 13 fields rather than as one string literal.
- The rewrite path has no default in the model. `convert` declares `rewrite="rewrite.def"` (src/kuro2sudachi/core.py:58), but `--rewrite` has no argparse default (src/kuro2sudachi/core.py:15-17), so without `-r` the driver passes `None` (src/kuro2sudachi/core.py:81, 84). The model's `rewritePath` is always a string; since the rewriter is a parameter over the path, no property depends on which value it is.
- Converter.ConvertUnknownPosExample: the example line is written as the comma join of its four fields rather than as one string literal.
