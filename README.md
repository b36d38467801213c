# Catalogue tables to typed records, in Dafny

This project models the core of a Rust tool that reads a library catalogue
kept as tables in a word-processing document. Every table row holds a pair of
cells, a field name and a field value. The tool assembles the pairs into
catalogue records, and each record has eight set-once slots:

- year;
- issue number and volume;
- session minutes ("ata");
- page;
- document kinds;
- title;
- donor;
- period.

Each value is normalised into a typed field. A field is absent (a placeholder
such as "-" or "não mencionado"), present (the value parsed), or
non-standard (the text kept as written).

The model has one module per source file:

| module | file | models |
|---|---|---|
| `Parsing` | `parse_status.dfy` | `src/parse.rs`: the table state machine (`ParseStatus`), as step functions and as a class whose methods update the state in place |
| `Assembly` | `assembly.dfy` | `ParseXml` and `Rows` of `src/main.rs`: the event loop that feeds the machine, builds records and hands them out one call at a time |
| `Data` | `row.dfy` | `src/data/mod.rs`: the record (`Row`) as a class with eight slots, `Row::set_field` with its key routing, and the derived order on records |
| `Fields` | `field.dfy` | `src/data/field.rs`: `Field<T>`, its parser, the generic and the typed orders, `present`, `take` and `Display` |
| `Ranges` | `range.dfy` | `src/data/range.rs`: numeric and Roman-numeral ranges, the abbreviation repair, `mask_digits` and `parse_roman` |
| `Pages` | `page.dfy` | `src/data/page.rs` |
| `NumberVolumes` | `number_volume.dfy` | `src/data/number_volume.rs`: the two marker patterns as scanners, the parse and the display |
| `Atas` | `ata.dfy` | `src/data/ata.rs`: sessions, month names, historical dates and the minutes pattern as a scanner |
| `DocumentTypes` | `document_type.dfy` | `src/data/document_type.rs`: the kind taxonomy, the list parser with its nested loops, and its display |
| `Indexes` | `index.dfy` | `src/data/index.rs`: the `\index{…}` rendering |
| `Text` | `text.dfy` | the standard string operations the code relies on: trimming, case mapping, `contains`, `replace("$", "\\$")`, `split`, integer display and string order |
| `Results` | `results.dfy` | `Option`, `Result` and the unit value |
| `FieldExamples`, `PageExamples`, `RangeExamples`, `NumberVolumeExamples` | `field_examples.dfy`, `page.dfy`, `range_examples.dfy`, `number_volume_examples.dfy` | entries of the source's test tables, restated as lemmas |

Imperative source code stays imperative in the model:

- the state machine is a class whose fields the methods update in place;
- `ParseXml::next` is a loop over events that mutates the machine, the row in progress and the pending row;
- `Row::set_field` fills a slot of a `Row` object;
- `Field::take` swaps a slot's content out;
- `parse_range`, `mask_digits`, `parse_roman` and `DocumentTypes::from_str` are methods with loops.

Each such method is proved against a function that specifies it. The
properties the code promises are proved about those functions.

Where the written design of the system and its code differ, the model follows
the code:

- a non-standard field keeps the input as given, not trimmed (`src/data/field.rs:144`);
- a range's end can lie before its start (`src/data/range.rs:124-125`);
- a number/volume text whose marker matches but whose sides do not parse becomes, as written, a record with neither side (`src/data/number_volume.rs:32-42`); the record modelled here uses the corrected parser, which refuses such a text, so the cell is non-standard (see Findings and "## Left out");
- every month-only date sorts before every precise day, not only the days of the same month (`src/data/ata.rs:70-74`);
- keys are routed by the exact accented and unaccented prefixes the code lists (`src/data/mod.rs:70-85`).

## Model

| member | source | states |
|---|---|---|
| Parsing.StartTableStep | src/parse.rs:27-38 | opening a table succeeds exactly from `SearchingTable` and moves to `SearchingField`; from any other state it is refused, the state is kept and the error names it |
| Parsing.EndTableStep | src/parse.rs:148-159 | closing a table succeeds exactly from `SearchingField` and moves to `SearchingTable`; otherwise refused with the state kept |
| Parsing.StartFieldStep | src/parse.rs:40-51 | opening a row succeeds exactly from `SearchingField` and moves to `SearchingCol1`; otherwise refused with the state kept |
| Parsing.AppendTextStep | src/parse.rs:53-67 | text is appended to the key in `Col1` or to the value in `Col2`, the other component untouched; refused with the state kept in every other state |
| Parsing.PushSpace | src/parse.rs:70-75 | an empty buffer stays empty; a non-empty one gets exactly one space appended |
| Parsing.AppendNewLineStep | src/parse.rs:69-84 | a paragraph break adds one space to the buffer of `Col1`/`Col2` only when it is non-empty; refused elsewhere with the state kept |
| Parsing.StartColStep | src/parse.rs:86-102 | `SearchingCol1` becomes `Col1("")` and `SearchingCol2(k)` becomes `Col2(k, "")` with the key kept; every other state is refused and kept |
| Parsing.EndColStep | src/parse.rs:104-126 | `Col1(k)` becomes `SearchingCol2(k)` and `Col2(k, v)` becomes `Field(k, v)`, the text kept exactly; refused and kept otherwise |
| Parsing.EndFieldStep | src/parse.rs:128-146 | `Field(k, v)` hands out `(k, v)` and `SearchingCol2(k)` hands out `(k, "")`, both moving to `SearchingField`; every other state is restored and refused |
| Parsing.FinishStep | src/parse.rs:161-172 | the state always becomes `Finished`; the pair in progress is handed back for `Col1`/`SearchingCol2` (empty value) and `Col2`/`Field`, and every other state gives Ok |
| Parsing.ParseStatus.constructor | src/main.rs:58 | a new machine looks for a table |
| Parsing.ParseStatus.StartTable | src/parse.rs:27-38 | the new state and the result are those of `StartTableStep` on the old state |
| Parsing.ParseStatus.StartField | src/parse.rs:40-51 | the new state and the result are those of `StartFieldStep` |
| Parsing.ParseStatus.AppendText | src/parse.rs:53-67 | the buffer updated in place as `AppendTextStep` says |
| Parsing.ParseStatus.AppendNewLine | src/parse.rs:69-84 | the buffer updated in place as `AppendNewLineStep` says |
| Parsing.ParseStatus.StartCol | src/parse.rs:86-102 | the new state and result are those of `StartColStep` |
| Parsing.ParseStatus.EndCol | src/parse.rs:104-126 | the new state and result are those of `EndColStep` |
| Parsing.ParseStatus.EndField | src/parse.rs:128-146 | swapping `SearchingField` in and restoring the old state on refusal gives exactly `EndFieldStep` |
| Parsing.ParseStatus.EndTable | src/parse.rs:148-159 | the new state and result are those of `EndTableStep` |
| Parsing.ParseStatus.Finish | src/parse.rs:161-172 | swapping `Finished` in gives exactly `FinishStep` |
| Parsing.ParseStatus.IsFinished | src/parse.rs:174-179 | true exactly in `Finished` |
| Parsing.ApplyAllAppend | src/parse.rs:26-180 | running two sequences of transitions one after the other is running their concatenation |
| Parsing.RowBuildsPair | src/parse.rs:40-146 | a two-cell row read between rows leaves `Field(key, value)`, which `end_field` hands out as the pair |
| Parsing.CellCollects | src/parse.rs:86-126 | a cell opened where one may open collects its text and closes |
| Parsing.FinishedIsFinal | src/parse.rs:27-159 | once finished, every transition is refused and the machine stays finished |
| Parsing.RefusalKeepsState | src/parse.rs:27-159 | a refused transition of any kind leaves the state unchanged |
| Parsing.TableToggles | src/parse.rs:27-38 | opening and closing a table toggle between `SearchingTable` and `SearchingField` |
| Assembly.FirstNamed | src/main.rs:84-85 | the position of the first attribute with the name: every earlier one has another name |
| Assembly.Checked | src/main.rs:77-79 | a transition refused by `?` ends the call with a parse error and drops the row; an accepted one continues |
| Assembly.Finishing | src/main.rs:120-133 | the end of the document always stops the call with the machine finished |
| Assembly.Run | src/main.rs:72-140 | the loop only moves forward through the events and stays within them |
| Assembly.NextOutcome | src/main.rs:63-70 | a call never moves the reader backwards or past the last event |
| Assembly.ParseXml.constructor | src/main.rs:55-61 | at the first event, looking for a table, no pending row |
| Assembly.ParseXml.SeedPending | src/main.rs:102-104 | the pending row is a new row holding the refused pair |
| Assembly.SeedOnlyItsSlot | src/main.rs:102-104 | `Seed`: the row a refused pair starts holds that pair in its own slot and nothing in any other; an unknown key leaves it empty |
| Assembly.ParseXml.FinishDocument | src/main.rs:120-133 | machine, pending row and result are those of `Finishing`, and a returned row is the row in progress |
| Assembly.ParseXml.HandleEvent | src/main.rs:73-139 | one event updates the machine, the row in progress and the pending row exactly as `Handle` says |
| Assembly.ParseXml.Next | src/main.rs:63-141 | position, machine, pending row and result are those of `NextOutcome` on the old reader state; the reader invariant is kept |
| Assembly.HandleProgress | src/main.rs:73-139 | `Handle`: short of the end, an event that continues leaves the machine unfinished, a refused transition leaves it where it was, and a read failure finishes it with nothing pending |
| Assembly.RunProgress | src/main.rs:72-140 | a parse error leaves the machine unfinished after reading at least one event; a read failure finishes it with nothing pending |
| Assembly.NextProgress | src/main.rs:167-173 | every call whose error `Rows::next` skips leaves strictly less to read, so the skipping loop ends |
| Assembly.RowsNext | src/main.rs:166-175 | the iterator yields a row exactly when `next` returns one, a paragraph exactly when `next` reports one, and ends exactly on `AlreadyFinished` |
| Assembly.Rows.constructor | src/main.rs:154-156 | the iterator wraps the reader |
| Assembly.Rows.Next | src/main.rs:166-175 | the reader advances as `RowsNext` says and the item is the one it yields |
| Assembly.FinishedReadsNothing | src/main.rs:66-68 | a finished reader reads no event, hands out its pending row once, and then reports `AlreadyFinished` |
| Assembly.RefusedPairStartsNextRow | src/main.rs:98-107 | `RowEnd`: a pair refused at row close ends the call: the current row is returned and the next one holds exactly what a new row takes from that pair |
| Assembly.TableCloseReturnsRow | src/main.rs:109-112 | closing a table between rows returns the row and looks for the next table; anywhere else it is a parse error |
| Assembly.TextOutsideCell | src/main.rs:115-119 | text outside a cell comes out as a paragraph with the machine unchanged |
| Assembly.LineAndSpaceEvents | src/main.rs:80-92 | a paragraph start never ends the call; a space-preserving text run adds one space in a cell and is a one-space paragraph outside |
| Assembly.EndOfDocument | src/main.rs:120-132 | the document end finishes the machine; with no pair the row is dropped with `AlreadyFinished`; an open pair is set into the row, or seeds the pending row on conflict, and the row is returned |
| Assembly.ReadFailureFinishes | src/main.rs:134-137 | a read failure finishes the machine, drops the row and is reported |
| Assembly.RunCell | src/main.rs:79-119 | a cell's open, text and close events go by without ending the call and leave the text in the pair |
| Assembly.RunRow | src/main.rs:78-108 | a two-cell row whose pair fits goes by without ending the call and leaves the pair set in the row |
| Assembly.RunTable | src/main.rs:72-112 | rows whose pairs all fit, then the table close, return the row holding every pair |
| Assembly.TableYieldsRow | src/main.rs:63-112 | a call on a fresh reader over one table returns the record built from all its pairs, ready for the next table |
| Data.Put | src/data/mod.rs:58-62 | the parsed entry fills its own slot and the other seven slots are kept |
| Data.NormalizeKeyIdempotent | src/data/mod.rs:50 | normalising a normalised key changes nothing |
| Data.NormalizeKeyNormal | src/data/mod.rs:50 | `NormalizeKey`: a normalised key has nothing left to trim and nothing left to lower-case |
| Data.TransformMeaning | src/data/mod.rs:78-81 | `Transform`: a kind is lower-cased for good with its length kept, a title's `$` escaping loses nothing, every other slot takes the value unchanged |
| Data.SetFieldAsWritten | src/data/mod.rs:47-93 | as written: an unknown key is accepted and changes nothing; a routed key is refused exactly when its slot is filled, and then the row is kept and the normalised key comes back with the value already transformed for the slot; an accepted pair fills the row as `SetFieldSpec` does |
| Data.SetFieldSpec | src/data/mod.rs:47-93 | an unknown key is accepted and changes nothing; a routed key is refused exactly when its slot is filled, and then the row is kept and the normalised key and trimmed value come back; otherwise the transformed value is parsed into the slot |
| Data.Row.constructor | src/data/mod.rs:34-45 | all eight slots empty |
| Data.Row.Store | src/data/mod.rs:58-62 | the object's slots become `Put` of the old ones |
| Data.Row.SetField | src/data/mod.rs:47-93 | the object's slots and the result are those of `SetFieldSpec` on the old slots |
| Data.EntrySlot | src/data/mod.rs:70-85 | `ParseEntry`: the value parsed for a slot goes into that slot |
| Data.SetOnce | src/data/mod.rs:58-67 | after a pair is set, a second pair for the same slot is refused and changes nothing |
| Data.SetFieldFrame | src/data/mod.rs:53-85 | setting a pair touches its own slot and no other |
| Data.ReseedRejected | src/main.rs:101-104 | a refused pair set into a new row fills it exactly as the original pair would have |
| Data.PlaceholderHasNoDollar | src/data/field.rs:139 | no placeholder holds a dollar sign |
| Data.DollarTextPresent | src/data/field.rs:138-145 | a text with a dollar sign is never an absent text field |
| Data.RefusedAsWritten | src/data/mod.rs:79-81 | as written, a refused pair comes back with its value already transformed for the slot |
| Data.ReseedTitleEscapesTwice | src/data/mod.rs:81 | as written, a refused title with a dollar sign, reset into a new row, differs from the title a new row takes from the original pair |
| Data.FreshTitle | src/data/mod.rs:80-81 | a new row takes a title pair as the escaped, trimmed text |
| Data.CompareOptionsFlip | src/data/mod.rs:21 | `None` before `Some`, and the option order is antisymmetric when the values' order is |
| Data.RowOrderAntisymmetric | src/data/mod.rs:21-31 | `CompareRows`: comparing two records the other way round gives the opposite answer |
| Data.EmptyRowFirst | src/data/mod.rs:21-45 | `CompareRows`: a new record sorts before every record with a slot filled and ties only with another new record |
| Fields.ParseField | src/data/field.rs:131-147 | absent exactly when the trimmed text is a placeholder; present exactly when it is not and the untrimmed text parses, with that value; non-standard keeps the text as given; never fails |
| Fields.PlaceholdersTrimmed | src/data/field.rs:139 | no placeholder has whitespace at either end |
| Fields.PaddedPlaceholderAbsent | src/data/field.rs:138-141 | a placeholder surrounded by any whitespace is absent, whatever the type |
| Fields.TextFieldIsStandard | src/data/field.rs:142-145 | free text is absent or present with the text itself, never non-standard |
| Fields.FieldText | src/data/field.rs:14-22 | `as_ref` is empty for absent and the raw text for non-standard |
| Fields.FieldIndex | src/data/field.rs:24-28 | `Field::index` is empty exactly when the field's `as_ref` text is; otherwise it is `\index{` + the key of the remapped text + `}`, so an absent field has none |
| Fields.PresentValue | src/data/field.rs:151-157 | `Some` exactly for present, holding its value |
| Fields.DisplayFieldMeaning | src/data/field.rs:177-185 | `DisplayField`: a present cell shows its value's display, a non-standard one its text as written, an absent one "---" while its `as_ref` text is empty |
| Fields.FieldCell.Take | src/data/field.rs:159-164 | returns the old content and leaves absent behind |
| Fields.CompareByTextMeaning | src/data/field.rs:30-39 | absent ties with absent and is below everything else; otherwise the `as_ref` texts decide; the order is antisymmetric |
| Fields.CompareByTextTransitive | src/data/field.rs:30-39 | the generic field order is transitive |
| Fields.CompareTypedMeaning | src/data/field.rs:41-58 | `CompareTyped`: in a typed order absent is least, two present values use the typed comparison, and the order is antisymmetric |
| Fields.TypedFieldOrdersAntisymmetric | src/data/field.rs:41-119 | `CompareRangeFields`, `ComparePageFields`, `CompareNumberVolumeFields` and `CompareAtaFields` each put absent first and are antisymmetric |
| Fields.RangeFieldOrderCycle | src/data/field.rs:81-99 | the typed range field order is not transitive: 9 < 10 < "5 VVX" < 9 |
| FieldExamples.NonStandardRangeCell | src/data/field.rs:142-145 | "5 VVX" is no range, so it is a non-standard range field |
| Ranges.CompareRangesMeaning | src/data/range.rs:48-55 | ranges are ordered by start, then by end; they tie exactly when equal |
| Ranges.FormatFromValue | src/data/range.rs:19-23 | `FormatRange`: the range of one value displays as that value alone |
| Ranges.Span | src/data/range.rs:100 | the longest run of one alternative of the number pattern |
| Ranges.TokensRun | src/data/range.rs:100-106 | `Tokens`: a whole digit or Roman-letter run, followed by something outside it, is one token |
| Ranges.TokensSkip | src/data/range.rs:100-106 | `Tokens`: a character outside both alternatives produces no token |
| Ranges.LetterValue | src/data/range.rs:154-165 | every Roman letter has a positive value |
| Ranges.MaxValueLeast | src/data/range.rs:167-173 | the running maximum is the least upper bound of the letter values |
| Ranges.RomanValue | src/data/range.rs:175-179 | a Roman value, when there is one, is positive |
| Ranges.ParseRoman | src/data/range.rs:150-180 | the right-to-left loop adding letters at least the maximum so far and subtracting smaller ones gives `RomanValue` |
| Ranges.RomanAdditive | src/data/range.rs:167-173 | letters that never increase left to right simply add up |
| Ranges.RomanSubtractivePair | src/data/range.rs:168 | a letter before a larger one is subtracted |
| Ranges.Mask | src/data/range.rs:137-148 | the mask is at least 1 |
| Ranges.MaskIsLeastPowerAbove | src/data/range.rs:137-148 | `mask_digits(n)` is the least power of ten above `n` (1 for 0) |
| Ranges.MaskDigits | src/data/range.rs:137-148 | the dividing loop returns `Mask(n)` |
| Ranges.RepairAbbreviation | src/data/range.rs:120-126 | the repair keeps the digits of the maximum above the mask and puts the number below them; it is at least the maximum exactly when the number is at least the maximum's low digits |
| Ranges.RepairEndsWithNumber | src/data/range.rs:124-125 | the repaired maximum always ends with the digits of the number read |
| Ranges.ParseDecimal | src/data/range.rs:108-109 | a token parses as a decimal exactly when it is a non-empty run of digits |
| Ranges.TokenValues | src/data/range.rs:106-112 | one value per token when every token has one |
| Ranges.NextMax | src/data/range.rs:118-128 | the first number becomes the maximum; each later one replaces it or repairs it |
| Ranges.ParseRange | src/data/range.rs:87-135 | the loop over matches gives `ParseRangeSpec`: the first value is the start, the running maximum the end, and no token or a token with no value is an error |
| Ranges.RunningMaxSnoc | src/data/range.rs:118-128 | `RunningMax`: one more value applies one repair step to the running maximum |
| Ranges.TokenValuesFailure | src/data/range.rs:112 | a token with no value fails the whole parse |
| Ranges.ParsedEndEndsWithLastNumber | src/data/range.rs:118-134 | a parsed range's end ends with the digits of the last number written |
| Ranges.RunningMaxNonDecreasing | src/data/range.rs:121-122 | values written in non-decreasing order give the range from the first to the last |
| Ranges.TokensOfFormat | src/data/range.rs:76-85 | the tokens of a displayed range are its displayed numbers |
| Ranges.FormatRangeRoundTrip | src/data/range.rs:76-135 | `FormatRange`: a range displayed with its ends in order is parsed back unchanged |
| Ranges.ParseTwoDecimals | src/data/range.rs:114-128 | two decimal numbers around punctuation give the first as start and the repaired second as end |
| RangeExamples.ParseAbbreviatedEnd | src/data/range.rs:211 | "241-2" is 241 to 242 |
| RangeExamples.ParseAbbreviatedTens | src/data/range.rs:212 | "241/52" is 241 to 252 |
| RangeExamples.ParseReversedRange | src/data/range.rs:124-125 | "249-2" parses to a range whose end, 242, lies before its start |
| RangeExamples.RomanEleventhToThirteenth | src/data/range.rs:167-173 | "XI", "XII" and "XIII" total 11, 12 and 13 |
| RangeExamples.RomanZeroTotal | src/data/range.rs:167-173 | "VVX" totals 0 |
| RangeExamples.ParseRomanRange | src/data/range.rs:189 | "XI-XII-XIII" is 11 to 13 |
| RangeExamples.ParseRomanZero | src/data/range.rs:175-179 | "VVX" is refused by `parse_roman`, so the range is an error |
| RangeExamples.ParseNoNumber | src/data/range.rs:131-134 | a text with no number is an error |
| RangeExamples.ParsePaddedDecimal | src/data/range.rs:100-134 | punctuation on both sides of one decimal number gives the range of that number alone |
| RangeExamples.ParseDanglingSeparator | src/data/range.rs:208 | " 1234 -" is 1234 to 1234 |
| Pages.ParsePage | src/data/page.rs:17-23 | a page parses exactly when its range does, and wraps it |
| Pages.DisplayPageRoundTrip | src/data/page.rs:25-29 | `DisplayPage`: a displayed page whose range is in order is read back unchanged |
| Pages.ComparePagesMeaning | src/data/page.rs:8-9 | pages tie exactly when equal and the order is antisymmetric |
| PageExamples.ParsePrefixedTwoDecimals | src/data/page.rs:20-22 | punctuation before two numbers does not change the parse |
| PageExamples.ParsePageSingle | src/data/page.rs:51 | "p.152" is page 152 |
| PageExamples.ParsePage445 | src/data/page.rs:205 | "p.445" is page 445 |
| PageExamples.ParsePageSlash | src/data/page.rs:200 | "274/275" is pages 274 to 275 |
| PageExamples.ParsePageConjunction | src/data/page.rs:210 | "191 e 192" is pages 191 to 192 |
| PageExamples.ParsePageAbbreviated | src/data/page.rs:211 | "p.167-8" is pages 167 to 168 |
| NumberVolumes.GroupEnd | src/data/number_volume.rs:23-26 | the greedy repetition of a marker's group ends within the text |
| NumberVolumes.CaptureFromChars | src/data/number_volume.rs:23-26 | a captured group holds only characters its pattern allows, and a number group holds a digit |
| NumberVolumes.ParseNumberVolumeAsWritten | src/data/number_volume.rs:29-42 | an error exactly when neither marker matches |
| NumberVolumes.ParseNumberVolume | src/data/number_volume.rs:29-42 | corrected parse: a record exactly when one side yields a range, and then the record the code builds |
| NumberVolumes.ParseAgreesWithAsWritten | src/data/number_volume.rs:32-42 | the corrected parse refuses exactly the texts the code refuses plus those it turns into a record with no side |
| NumberVolumes.NumberSideNeverFails | src/data/number_volume.rs:35-37 | when the number marker matches, the number side always has a range |
| NumberVolumes.NoSideMeansBadVolume | src/data/number_volume.rs:32-42 | the code builds a record with neither side only when the number marker is missing and the volume text does not parse |
| NumberVolumes.DisplayAsWrittenSwapsSides | src/data/number_volume.rs:46-56 | `DisplayAsWritten`: the code prints every record as the record with its two sides exchanged |
| NumberVolumes.DisplayAsWrittenExample | src/data/number_volume.rs:51 | number 1, volume 18 is printed "n.~18, v.~1" |
| NumberVolumes.DisplayLabelsSides | src/data/number_volume.rs:46-56 | `DisplayNumberVolume`, the corrected display: the number's range follows "n.~" and the volume's follows "v.~" |
| NumberVolumes.CompareNumberVolumesMeaning | src/data/number_volume.rs:12-16 | `CompareNumberVolumes`: number first, then volume, with `None` first; ties exactly when equal; antisymmetric |
| NumberVolumeExamples.CaptureSkipsOtherLetters | src/data/number_volume.rs:38-40 | the search for a marker passes over every position holding another letter |
| NumberVolumeExamples.ParseTwoDecimalsThen | src/data/range.rs:100-128 | punctuation after two decimal numbers does not change the range |
| NumberVolumeExamples.ParseNumberAndVolume | src/data/number_volume.rs:103-109 | "N.1-2 V.18-19" is number 1 to 2 of volume 18 to 19, by both parsers |
| NumberVolumeExamples.ParseRomanVolumes | src/data/number_volume.rs:89-95 | "Volumes XI-XII-XIII" is volumes 11 to 13 with no number, by both parsers |
| NumberVolumeExamples.ParseSpelledOut | src/data/number_volume.rs:110-116 | "Volume IX - Número 1 e 2" is number 1 to 2 of volume 9, by both parsers |
| NumberVolumeExamples.ParseValuelessVolume | src/data/number_volume.rs:32-42 | as written, "Volume VVX" is a record with neither side; the corrected parser refuses it |
| Atas.ParseSession | src/data/ata.rs:18-28 | "extraordinária" and "ordinária" are the two kinds, anything else is free text kept verbatim |
| Atas.ParseSessionCanonical | src/data/ata.rs:21-27 | the parser never makes free text spelling one of the kinds |
| Atas.CompareSessionsMeaning | src/data/ata.rs:11-16 | ordinary, then extraordinary, then free text; ties exactly when equal; antisymmetric |
| Atas.CompareSessionsTransitive | src/data/ata.rs:11-16 | the session order is transitive |
| Atas.MonthFromNameMeaning | src/data/ata.rs:165-205 | `MonthFromName`: a month name is accepted exactly as the lower-case name with the first letter possibly capitalised |
| Atas.MonthNameRoundTrip | src/data/ata.rs:165-205 | the lower-case and the capitalised month names are read as their month |
| Atas.MonthAbbrev | src/data/ata.rs:88-104 | the three-letter abbreviation is the start of the month's name |
| Atas.MonthAbbrevInjective | src/data/ata.rs:88-104 | different months have different abbreviations |
| Atas.AbbrevDetermines | src/data/ata.rs:88-104 | the month is recovered from its abbreviation |
| Atas.DaysInMonth | src/data/ata.rs:79 | every month has 28 to 31 days |
| Atas.LeapDay | src/data/ata.rs:79 | 29 February is a date exactly in leap years |
| Atas.ThirtyFirst | src/data/ata.rs:79 | the 31st exists exactly in the seven long months |
| Atas.FromYmd | src/data/ata.rs:76-83 | a day gives a precise day and no day the month; the result is a valid date with the given year and month, and none exactly when the date is invalid |
| Atas.CompareDatesMeaning | src/data/ata.rs:70-74 | `CompareDates`: dates tie exactly when equal; the order is antisymmetric |
| Atas.CompareDatesTransitive | src/data/ata.rs:70-74 | the date order is transitive |
| Atas.MonthBeforeDay | src/data/ata.rs:339-345 | every month-only date is before every precise day, January 1970 before 1 January 1970 among them |
| Atas.CompareAtasMeaning | src/data/ata.rs:129-134 | `CompareAtas`: minutes tie exactly when equal; the order is antisymmetric |
| Atas.CompareAtasTransitive | src/data/ata.rs:129-134 | the minutes order is transitive |
| Atas.DisplayAtaNumber | src/data/ata.rs:224-231 | `DisplayAta`: the display opens with the number and "ª sess. ", and the number reads back from its digits |
| Atas.DisplayDateParts | src/data/ata.rs:106-120 | `DisplayDate`: the display ends with the month's abbreviation, ". " and the year; a month-only date is just that, and a precise day opens with its digits and a space |
| Atas.RunEndAt | src/data/ata.rs:142 | a maximal run of a character class is the one the scanner finds |
| Atas.SessionPart | src/data/ata.rs:142 | a matched session description is non-empty letters and spaces, and the date groups are well formed |
| Atas.MatchAt | src/data/ata.rs:142 | a match has every group the captures need, well formed |
| Atas.FindMatch | src/data/ata.rs:147 | the leftmost match, when there is one, is well formed |
| Atas.ParseCaptures | src/data/ata.rs:155-212 | a result has a valid date, the number of the digits, the session parsed (ordinary when missing), the named month and the year; an unknown month, a number over `u16` or a year over `i32` gives none; otherwise there is a result exactly when the date exists, the day being the captured one when it fits a `u32` (the first of the month when there is none), and the date is precise exactly when that day is kept |
| Atas.ParseAta | src/data/ata.rs:139-150 | a record exactly when the pattern matches and its captures parse, with a valid date; otherwise the input itself is the error |
| Atas.DayOverflowKeepsMonth | src/data/ata.rs:161 | a day too large for `u32` is dropped and the date falls back to its month |
| Atas.DayKept | src/data/ata.rs:161 | a day is kept exactly when matched and within `u32`, with its value |
| Atas.NoDigitNoMatch | src/data/ata.rs:142 | text without a digit never matches |
| Atas.ParseAtaNeedsDigit | src/data/ata.rs:147-149 | text without a digit is refused with itself as the error |
| DocumentTypes.Spelling | src/data/document_type.rs:139-177 | a recognised spelling is a named category |
| DocumentTypes.ParseDocumentType | src/data/document_type.rs:136-181 | free text exactly when the text is no known spelling, and then kept verbatim |
| DocumentTypes.CompareDocumentTypesMeaning | src/data/document_type.rs:123-128 | kinds tie exactly when their names agree; antisymmetric and transitive |
| DocumentTypes.OtherTiesWithCategory | src/data/document_type.rs:123-128 | free text "Boletim" ties with the category Boletim |
| DocumentTypes.DisplayDocumentType | src/data/document_type.rs:91-107 | free text is shown with its first character in upper case (nothing when empty), any other kind by its name |
| DocumentTypes.RunEndAt | src/data/document_type.rs:235 | a run ended by an excluded character or the end is the one the scanner finds |
| DocumentTypes.MatchAt | src/data/document_type.rs:235 | a match has at most three groups and is empty exactly when it has none |
| DocumentTypes.ScanTypes | src/data/document_type.rs:238-248 | the loop over "/"-separated parts gives the entries of each part in order |
| DocumentTypes.ScanPart | src/data/document_type.rs:241-245 | the loop over one part's matches appends that part's entries |
| DocumentTypes.ScanMatch | src/data/document_type.rs:241-244 | one match pushes its groups and the search resumes strictly further on |
| DocumentTypes.PushGroups | src/data/document_type.rs:242-244 | the groups of a match are pushed in order |
| DocumentTypes.KindField | src/data/document_type.rs:243 | a group is trimmed and read as a field of a kind: absent for a placeholder, else present, never non-standard |
| DocumentTypes.ParseDocumentTypes | src/data/document_type.rs:233-249 | the parse never fails and no entry is non-standard |
| DocumentTypes.EntriesKeep | src/data/document_type.rs:240-246 | whatever every group's reading satisfies, every entry satisfies |
| DocumentTypes.PlainPart | src/data/document_type.rs:235 | a part with no "(" and no "?" is one entry |
| DocumentTypes.QualifiedPart | src/data/document_type.rs:235 | a kind then a parenthesised qualifier is two entries, the kind first |
| DocumentTypes.TwoParts | src/data/document_type.rs:240 | a "/" separates two parts, read in order |
| DocumentTypes.PaddedKind | src/data/document_type.rs:243 | a kind surrounded by whitespace reads as that kind |
| DocumentTypes.PaddedPlaceholderKind | src/data/document_type.rs:243 | a placeholder surrounded by whitespace is an absent entry |
| DocumentTypes.FreeTextKind | src/data/document_type.rs:243 | text that is no placeholder and no spelling is kept as free text |
| DocumentTypes.QualifiedShape | src/data/document_type.rs:233-249 | a kind with one qualifier and no "/" gives two entries |
| DocumentTypes.QualifiedExample | src/data/document_type.rs:254-264 | "periódico  (drama)" is Periódico then the free text "drama" |
| DocumentTypes.TwoKindsExample | src/data/document_type.rs:266-276 | "boletim / documentos oficiais" is Boletim then Documento Oficial |
| DocumentTypes.PlaceholderQualifierExample | src/data/document_type.rs:278-285 | "boletim ( a conferir )" is Boletim then an absent entry |
| DocumentTypes.DisplayDocumentTypes | src/data/document_type.rs:194-221 | the display is the entries' texts joined by "/" |
| DocumentTypes.WriteSeparated | src/data/document_type.rs:210-217 | the first element's text, then "/" and each further element's text |
| DocumentTypes.DisplaySplitsBack | src/data/document_type.rs:194-221 | splitting the display at "/" gives back each entry's text when none holds a "/" |
| DocumentTypes.CompareTypeListsMeaning | src/data/document_type.rs:183-186 | the list order is antisymmetric and ties exactly on equal length with tying entries |
| DocumentTypes.ProperPrefixFirst | src/data/document_type.rs:183-186 | a list sorts before every longer list that extends it |
| Indexes.Capitalize | src/data/index.rs:13-24 | the first character upper-cased and the rest unchanged; empty stays empty |
| Indexes.CapitalizeIdempotent | src/data/index.rs:13-24 | capitalising twice is capitalising once |
| Indexes.FirstSpace | src/data/index.rs:40 | the position of the first space: there is a space there and none before |
| Indexes.RenderIndex | src/data/index.rs:26-51 | nothing exactly for an empty text; otherwise `\index{` + the key of the remapped text + `}` |
| Indexes.IndexKeySplitsAtFirstSpace | src/data/index.rs:40-48 | `IndexKey`: only the first space splits: the first word capitalised, then "!" and the rest with its spaces |
| Indexes.IndexKeyOneWord | src/data/index.rs:40-48 | a single word is its capitalised self with no sub-entry |
| Indexes.RenderRemapped | src/data/index.rs:32-50 | a remapped text is filed under its new first word |
| Indexes.RemappedNames | src/data/index.rs:32-36 | `Remap`: the two remapped names become "Silva Ribeiro da" and "IAGP 1º secretário do" |
| Text.CompareStringsEqual | src/data/field.rs:36 | strings compare equal exactly when they are equal |
| Text.CompareStringsFlip | src/data/field.rs:36 | the string order is antisymmetric |
| Text.CompareStringsTransitive | src/data/field.rs:36 | the string order is transitive |
| Text.Lower | src/data/mod.rs:50 | lower-casing maps each character and keeps the length |
| Text.LowerIdempotent | src/data/mod.rs:50 | lower-casing twice changes nothing more |
| Text.TrimStart | src/data/mod.rs:51 | the result is a suffix, what is dropped is whitespace, and it does not start with whitespace |
| Text.TrimEnd | src/data/mod.rs:51 | the result is a prefix, what is dropped is whitespace, and it does not end with whitespace |
| Text.TrimIdempotent | src/data/mod.rs:50-51 | `Trim`: trimming twice is trimming once |
| Text.TrimPadded | src/data/field.rs:138 | trimming removes exactly the whitespace around a trimmed text |
| Text.TrimLowerCommute | src/data/mod.rs:50 | trimming and lower-casing commute |
| Text.EscapeDollarGrows | src/data/mod.rs:81 | escaping a text with a dollar sign lengthens it and keeps a dollar sign |
| Text.EscapeDollarRoundTrip | src/data/mod.rs:81 | `EscapeDollar`: escaping loses nothing: unescaping gives the text back |
| Text.SplitJoin | src/data/document_type.rs:240 | splitting loses nothing and no piece holds the separator |
| Text.JoinSplit | src/data/document_type.rs:214-217 | pieces without the separator are recovered from their join |
| Text.NatToStringRoundTrip | src/data/range.rs:81-83 | the decimal display of a number reads back as the number |

## Left out

- Reading the archive, opening the file, arguments, `main`'s LaTeX output and its paragraph filters: input/output and rendering. The XML reader is replaced by a sequence of events. Reading past the last event gives the end of the document.
- The `Row` LaTeX `Display` (`src/data/mod.rs:96-145`), the `eprintln!` warnings, the `Debug` impls and the `Hash` derives: output only.
- `ParseError` messages keep the words that open them and the state that was found. The `Debug` text of that state is not rendered.
- The `NoArgument`, `Io` and `Zip` variants of `CallError`: they come only from `main`.
- The regular expressions: each pattern is written as an explicit scanner that makes the same choices as the leftmost-first match.
- Unicode case mapping and letter classes are modelled on ASCII and Latin-1 only. `to_lowercase`, `to_uppercase` and `\pL` act on all of Unicode.
- The calendar library: date validity is a predicate on year, month and day. It covers the proleptic Gregorian calendar in the library's year range.
- Ranges.ParseRange: the numbers are unbounded. A decimal token over `u32::MAX` panics in the source, and the model reads it as a number.
- Fields.CompareTypedMeaning: the typed orders are antisymmetric, but the range field order is not transitive (`Fields.RangeFieldOrderCycle`), so no transitivity is claimed.
- Fields.FieldCell.Take: `FieldCell` is a small mutable cell standing for the `&mut Field` the source swaps.
- Data.SetFieldSpec: the error branch of `set_field_internal` for a failed parse is never taken, because every slot parser is a `Field` parser that never fails. The model has no such branch.
- Data.SetFieldSpec: an unrecognised non-empty key is accepted without the warning the source prints.
- Assembly.EndOfDocument: the contract restates the outcomes for a complete pair and for no pair. A key-only pair (`Col1`, `SearchingCol2`) goes through the same `Finishing` definition.
- Assembly.RowsNext: the iterator's loop is a recursive function whose termination comes from `NextProgress`.
- Fields.CompareTypedMeaning: the number/volume field order is modelled over records with at least one side, the only ones its display can print.
- DocumentTypes.DisplayDocumentTypes: the source panics on a non-standard entry. The model requires there is none, and the parser never makes one.
- Ranges.FormatRangeRoundTrip: of the range test table (`src/data/range.rs:184-214`), only "241-2", "241/52", "XI-XII-XIII", " 1234 -" and, through the number/volume and page examples, "1 e 2", "18-19" and "IX" are restated as lemmas. The other entries are covered by the general lemmas (`ParseTwoDecimals`, `ParsePaddedDecimal`, `TokensRun`, `RomanSubtractivePair`) rather than one lemma each. "MCMLXXXVIII-MCMLXXXIX" is not restated: evaluating an eleven-letter Roman total letter by letter is beyond the solver budget the proofs keep to.
- Atas.ParseAta: the source's test only prints the parsed minutes, so it is not restated as a lemma.
- Atas.MonthAbbrev: the month is typed 1 to 12, which stands for the caller's obligation that the unchecked `unreachable` arm is never reached.

- Data.SetFieldSpec: on a conflict the error carries the trimmed value as given, which is the corrected behaviour of the third Findings row. The source returns the value already transformed for the slot (`src/data/mod.rs:78-81`); `Data.SetFieldAsWritten` models that, and `Data.RefusedAsWritten` and `Data.ReseedTitleEscapesTwice` state what it leads to.
- Data.Row.SetField: the object's refused pair is the one `Data.SetFieldSpec` returns, the trimmed value as given, not the slot-transformed value of `src/data/mod.rs:78-81`.
- Assembly.Seed: a refused pair seeds the next row from its trimmed value, not from the slot-transformed value the source re-sets (`src/main.rs:101-104`), so a title with `$` is escaped once, not twice.
- Assembly.RowEnd: a refused pair is passed on as trimmed, not as transformed (`src/main.rs:98-107`), as in `Assembly.Seed`.
- Assembly.Finishing: at the end of the document, a refused pair is passed on as trimmed, not as transformed (`src/main.rs:120-131`).
- Assembly.ParseXml.Next: the pending row a refused pair starts is seeded from the trimmed value, as in `Assembly.Seed`.
- Assembly.ParseXml.SeedPending: the pending row holds the trimmed pair, as in `Assembly.Seed`.
- Assembly.RefusedPairStartsNextRow: the next row holds what a new row takes from the pair as given, the corrected behaviour; the source's next row takes the transformed value.
- Assembly.EndOfDocument: a conflict at the document end seeds the pending row from the trimmed value, as in `Assembly.Seed`.
- Data.ParseEntry: the number/volume slot uses the corrected parser. "Volume VVX" is stored as a non-standard cell, where the source stores a record with neither side (`NumberVolumeExamples.ParseValuelessVolume`).
- Fields.CompareNumberVolumeFields: a present record is compared with a non-standard text through the corrected display (`NumberVolumes.DisplayNumberVolume`), not through the source's display, which swaps the sides (`src/data/field.rs:101-119`). Number 1 of volume 18 against the text "n.~1, v.~18" ties in the model and is greater in the source.
- Fields.TypedFieldOrdersAntisymmetric: the number/volume field order it states is the corrected one, as in `Fields.CompareNumberVolumeFields`.
- Data.CompareRows: records compare their number/volume slots with the corrected field order, as in `Fields.CompareNumberVolumeFields`.
- Digits are ASCII `0`-`9` in the range, number/volume and minutes scanners. The regex `\d` also matches every other Unicode decimal digit (`src/data/range.rs:100`, `src/data/number_volume.rs:23-26`, `src/data/ata.rs:142`).
- Ranges.MaskDigits: the mask is an unbounded number. In the source `mask * 10` is `u32` arithmetic and overflows for a number of ten digits (`src/data/range.rs:137-148`).
- Ranges.NextMax: the repair `m / mask * mask + num` is computed without the `u32` overflow the source's arithmetic can reach (`src/data/range.rs:118-128`).

## Findings

| source | as written | input that shows it | evidently intended | confidence | as-written member | corrected member |
|---|---|---|---|---|---|---|
| src/data/number_volume.rs:46-56 | `Display` matches on `(volume, number)` but writes the first under "n.~" and the second under "v.~" | number 1, volume 18 prints "n.~18, v.~1" | the number after "n.~" and the volume after "v.~" | high, not executed | NumberVolumes.DisplayAsWrittenSwapsSides | NumberVolumes.DisplayLabelsSides |
| src/data/number_volume.rs:32-42 | `from_str` returns a record with neither side when a marker matches but its text does not parse, which `Display` treats as unreachable | "Volume VVX" (the Roman letters total 0) | an error when neither side yields a range | high, not executed | NumberVolumes.NoSideMeansBadVolume | NumberVolumes.ParseAgreesWithAsWritten |
| src/data/mod.rs:81 | a refused title pair is returned with `$` already escaped, and `src/main.rs:101-104` sets it into the new row, escaping it again | two title rows, the second "US$ 5" | the refused pair as trimmed, so the new row takes the title a new row would | high, not executed | Data.ReseedTitleEscapesTwice | Data.ReseedRejected |
