# csvtool column selection, modelled in Dafny

This project models the column-selection core of `csvtool`, a two-command
tool that streams delimiter-separated records:

- `cut -c LIST` keeps the columns named by a comma-separated list of 1-based
  columns and ranges (`2,5-7`). Output fields stay in input order.
- `reorder -c LIST` emits the listed columns in the given order, repeats
  included.
- `reorder -f NAMES` resolves header names to positions first. It writes the
  names as the first output record and then streams the remaining records.

Inputs and outputs are modelled like this:

- The CSV reader and writer are outside the model.
- A record is a sequence of byte fields (`Records.Record`).
- The input is the sequence of records the reader yields.
- The output is the sequence of records handed to the writer, kept in the
  `Records.Writer` class.
- Every fatal exit becomes an `Outcomes.Error` value:
  - `error_exit` calls;
  - a panicking `expect` or `unwrap`;
  - an integer underflow.
  The commands end with an `Outcomes.Status`.

Modules, in dependency order:

- `Records`: bytes, fields, records, UTF-8 well-formedness. It also holds
  two classes, the reusable output record (`OutRecord`) and the writer
  (`Writer`).
- `Outcomes`: the error taxonomy, `Result`/`Option`/`Status`, and `Collect`.
  `Collect` runs a list of steps and stops at the first one that fails,
  which is how every fatal loop of the tool behaves.
- `Text`: Rust's `str::split` on one character.
- `Numbers`: `str::parse::<usize>`.
- `Delimiter`: `get_delimiter`.
- `CutSpec`: `parse_columns` and `insert_column`. The list is read as items
  (`Single`, `Span`), and an item list has a specified bitmap (`BitmapOf`).
  The `Bitmap` class holds the `Vec<usize>` that `insert_column` grows in
  place.
- `ReorderSpec`: `parse_reorder`.
- `Header`: `fields_to_columns`.
- `Projection`: the per-record loops of `cut` and `reorder`.
- `Pipeline`: the two commands end to end, as specification functions
  (`CutRun`, `ReorderRun`) and as the imperative loops proved against them.

Where the specification and the code differ, the code is followed:

- A reversed range such as `5-3` selects nothing. It is not an error.
- Numeric `reorder` indexes the record with the 1-based column as given,
  without subtracting one (see "## Findings").
- A column equal to the record length passes the `>` bounds check. It then
  panics in the `unwrap`, which is modelled as `FieldAbsent`. A column
  beyond the length is `InvalidColumn`.
- Column 0 in a `cut` list underflows `index - 1` in `insert_column`, which
  is modelled as `ColumnUnderflow`.
- Integers are unbounded. `usize` is taken as 64 bits; `USIZE_MAX` is the
  largest number `parse::<usize>` accepts.

## Model

| member | source | states |
|---|---|---|
| Records.AsciiIsUtf8 | src/main.rs:134 | a header field of ASCII bytes passes the `from_utf8` check |
| Records.ValidUtf8 | src/main.rs:134 | no contract of its own: UTF-8 well-formedness as `from_utf8` checks it; `AsciiIsUtf8` states what it admits and `DecodeAll` what it decides |
| Records.OutRecord.PushField | src/main.rs:142 | the output record gains exactly the pushed field at its end |
| Records.OutRecord.Clear | src/main.rs:194 | the output record is empty after `clear` |
| Records.Writer.WriteRecord | src/main.rs:193 | the written stream gains exactly the given record at its end |
| Outcomes.Collect | src/main.rs:89-104 | a run of fatal steps succeeds iff every step does, then yields each step's value in order; otherwise it fails with the first failing step's error |
| Outcomes.OkPrefix | src/main.rs:220-235 | the values produced before the first failing step, in order, and the step after them has failed |
| Outcomes.CollectErrorAtPrefix | src/main.rs:220-235 | a run fails iff its successful prefix is short, and then with the error of the step right after that prefix |
| Text.Split | src/main.rs:89 | `split(',')` gives one more piece than there are separators, no piece contains the separator, and joining the pieces restores the text |
| Text.SplitJoin | src/main.rs:89 | splitting the join of separator-free pieces gives those pieces back |
| Numbers.ParseNumber | src/main.rs:71-74 | a result is at most `usize::MAX`; success needs an optional `+` and at least one digit, nothing else; every failure is `Invalid number` with the text |
| Numbers.NumeralValue | src/main.rs:71-74 | the decimal numeral of `n` has the value `n` |
| Numbers.ParseNumeral | src/main.rs:71-74 | parsing a numeral, with or without a leading `+`, gives its value iff it fits in a `usize`, and fails otherwise |
| Numbers.LeadingZero | src/main.rs:71-74 | leading zeros do not change a parsed value |
| Delimiter.GetDelimiter | src/main.rs:13-23 | no option gives `,`; a one-byte option gives that byte; a longer one is the single-character error; an empty one fails on the missing byte 0 |
| CutSpec.CutToken | src/main.rs:90-103 | an accepted token is a column or range starting at 1 or more, with every bound at most `usize::MAX` |
| CutSpec.ParseCutSpec | src/main.rs:86-107 | no contract of its own: the items of the comma-separated tokens, or the first bad token's error; characterised by `ParseCutSpecRoundTrip` and `CutFirstError`, and tied to the loop by `ParseColumns` |
| CutSpec.CutTokenRoundTrip | src/main.rs:90-103 | the text of a valid column or range parses back to it |
| CutSpec.ParseCutSpecRoundTrip | src/main.rs:86-107 | the comma-joined text of valid items parses back to exactly those items |
| CutSpec.ManyDashesInvalidRange | src/main.rs:91-95 | a token with two or more `-` is `Invalid range` with that token |
| CutSpec.EmptyRangeSide | src/main.rs:97-98 | a range with an empty side (`-5`, `5-`, `-`) fails as an invalid number |
| CutSpec.ZeroColumnUnderflows | src/main.rs:76-84 | column 0, bare or as the start of a range, underflows |
| CutSpec.CutFirstError | src/main.rs:89-104 | a bad cut list fails with the error of its first bad token |
| CutSpec.Width | src/main.rs:76-84 | the bitmap length bounds every covered column, and a nonzero length is itself a covered column |
| CutSpec.BitmapOf | src/main.rs:76-107 | no contract of its own: position `i` is 1 exactly when column `i+1` is covered, over the length `Width`; characterised by `BitmapOfCoverage`, `BitmapIgnoresOrder` and `ReversedSpanSelectsNothing`, and `ParseColumns` proves the in-place loop builds it |
| CutSpec.BitmapOfCoverage | src/main.rs:86-107 | two item lists covering the same columns give the same bitmap |
| CutSpec.BitmapIgnoresOrder | src/main.rs:86-107 | item lists with the same members, in any order and with any repeats, give the same bitmap |
| CutSpec.ReversedSpanSelectsNothing | src/main.rs:100 | a range whose start exceeds its end leaves the bitmap unchanged |
| CutSpec.InsertExtendsBitmap | src/main.rs:76-84 | inserting a column into the bitmap of some items gives the bitmap of those items plus that column |
| CutSpec.Bitmap.InsertColumn | src/main.rs:76-84 | column `c >= 1` grows the vector with zeros to at least `c` and sets position `c-1`, leaving every other position alone; column 0 changes nothing and fails |
| CutSpec.InsertRange | src/main.rs:100 | inserting `start..=end` one column at a time gives the bitmap of the items so far plus that range |
| CutSpec.InsertToken | src/main.rs:90-103 | one token is parsed as `CutToken` does, and on success the bitmap gains exactly that item |
| CutSpec.ParseColumns | src/main.rs:86-107 | the loop yields the bitmap of the parsed items, or the list's first error |
| ReorderSpec.ReorderToken | src/main.rs:113-117 | a token is accepted iff it parses to a number of 1 or more, to that number; a token with `-` is an invalid number |
| ReorderSpec.ReorderColumns | src/main.rs:109-123 | no contract of its own: the columns of the tokens in order, or the first bad token's error; characterised by `ReorderColumnsMeaning`, `ReorderRoundTrip` and `ReorderFirstError` |
| ReorderSpec.ReorderColumnsMeaning | src/main.rs:109-123 | one column per comma-separated token, in order, each at least 1 and equal to its token's value; a failure means some token is bad |
| ReorderSpec.ParseReorder | src/main.rs:109-123 | the loop yields exactly `ReorderColumns` of the list |
| ReorderSpec.SplitRenderReorder | src/main.rs:112 | splitting the comma-joined numerals gives the numerals back |
| ReorderSpec.ReorderRoundTrip | src/main.rs:109-123 | the comma-joined numerals of columns in `1..=usize::MAX` parse back to those columns, repeats and order kept |
| ReorderSpec.ReorderRejectsZero | src/main.rs:115-117 | a 0 after valid columns is the `Invalid column: 0` error |
| ReorderSpec.ReorderFirstError | src/main.rs:112-120 | a bad reorder list fails with the error of its first bad token |
| Header.HeaderIndex | src/main.rs:133-135 | the map's keys are exactly the header's names, and each maps to the last position holding it |
| Header.DecodeAll | src/main.rs:134 | decoding the header succeeds iff every field is UTF-8 |
| Header.LookupAll | src/main.rs:137-141 | the lookups succeed iff every requested name is in the header, each giving the name's last position |
| Header.DecodeName | src/main.rs:134 | no contract of its own: `from_utf8(..).unwrap()` on one field, failing with that field when it is not UTF-8; characterised by `DecodeAll` |
| Header.Lookup | src/main.rs:137-141 | no contract of its own: `map.get(field).expect(..)`, failing with the missing name; characterised by `LookupAll` |
| Header.ResolveFields | src/main.rs:125-148 | no contract of its own: the whole header decoded first, then each name looked up in request order; characterised by `ResolveFieldsMeaning`, and `FieldsToColumns` ties the methods to it |
| Header.ResolveFieldsMeaning | src/main.rs:125-148 | resolution succeeds iff the header is UTF-8 and holds every requested name; then column `k` is the last header position of name `k` |
| Header.BuildIndex | src/main.rs:133-135 | the map loop yields the header index, or the first non-UTF-8 field's error |
| Header.LookupNames | src/main.rs:137-143 | the lookup loop yields the lookups in request order and copies the names into the output record |
| Header.FieldsToColumns | src/main.rs:125-148 | no header is `No header line found`; otherwise the result is `ResolveFields` of the header, and the names are written once exactly when it succeeds |
| Projection.Selection | src/main.rs:187-188 | the kept positions are strictly increasing, below the record length, and exactly those the bitmap marks 1 |
| Projection.CutFields | src/main.rs:187-191 | no contract of its own: the record's fields pushed in index order where the bitmap marks them; characterised by `CutSelects`, `CutKeepsAll` and `CutIgnoresDropped`, and tied to the loop by `CutProject` |
| Projection.CutFieldsStep | src/main.rs:187-191 | one more input field extends the cut output by that field when it is marked |
| Projection.CutSelects | src/main.rs:187-191 | the cut output has one field per kept position, field `k` being the record's field at the `k`-th kept position |
| Projection.CutProject | src/main.rs:187-191 | the loop appends exactly the cut output to the output record |
| Projection.CutKeepsAll | src/main.rs:187-191 | a bitmap of ones at least as long as the record keeps the record unchanged |
| Projection.CutIgnoresDropped | src/main.rs:187-191 | records that agree on the kept positions cut alike |
| Projection.FieldAt | src/main.rs:226-230 | no contract of its own: a column beyond the record is the `Invalid column` exit of line 226, a column equal to its length passes that check and fails in the `unwrap` of line 230, any other column gives its field; characterised by `ReorderPicks` |
| Projection.ReorderFields | src/main.rs:223-231 | no contract of its own: `FieldAt` of each column in list order, stopping at the first failure; characterised by `ReorderPicks` and `AsWrittenIsShifted`, and tied to the loop by `ReorderProject` |
| Projection.ReorderPicks | src/main.rs:223-231 | reordering succeeds iff every column is below the record length, giving `out[k] == record[columns[k]]`; otherwise the first bad column is `Invalid column` (beyond the length) or the `unwrap` panic (at the length) |
| Projection.ReorderProject | src/main.rs:223-231 | the loop appends the reordered fields on success; on failure it appends the fields before the first bad column and reports that column's error |
| Projection.ReorderFieldsOneBased | src/main.rs:223-231 | corrected projection: succeeds iff every column is in `1..=len`, giving `out[k] == record[columns[k]-1]` |
| Projection.AsWrittenIsShifted | src/main.rs:224-230 | the projection as written picks, for each column `c`, what the 1-based reading picks for `c+1` |
| Projection.OneBasedExample | src/main.rs:223-231 | the 1-based reading of `3,1,3` turns `a,b,c` into `c,a,c` |
| Pipeline.CutRun | src/main.rs:175-200 | `cut` writes nothing and fails on a bad delimiter or list; otherwise it writes one record per input record, record `i` being the cut of input record `i` alone |
| Pipeline.CutOutput | src/main.rs:184-195 | no contract of its own: the cut of each input record, in order; `CutRun` states what it writes and `CutRows` proves the loop writes it |
| Pipeline.ReorderRowsMeaning | src/main.rs:220-235 | the records written are the reordered input records, in order, before the first failing one; it ends done iff none fails, else with that record's error |
| Pipeline.ReorderRows | src/main.rs:220-235 | no contract of its own: the reordered records before the first failing one, and how the run ends; characterised by `ReorderRowsMeaning` and tied to the loop by `ReorderStream` |
| Pipeline.ColumnsRun | src/main.rs:217-235 | with `-c`, a list that does not parse stops `reorder` before any output, with the parse error |
| Pipeline.FieldsRunEchoesNames | src/main.rs:213-216 | with `-f`, an empty input is `No header line found` and a failed resolution its error, both before any output; otherwise the names are the first record written, followed by the streaming of the records after the header |
| Pipeline.FieldsRun | src/main.rs:213-235 | no contract of its own: `-f` mode with the header consumed and the names written first; characterised by `FieldsRunEchoesNames` and tied to the methods by `ReorderByFields` |
| Pipeline.ReorderRun | src/main.rs:203-240 | a bad delimiter option stops `reorder` before any output |
| Pipeline.CutRows | src/main.rs:184-195 | the record loop writes exactly the cut of each input record, reusing one cleared output record |
| Pipeline.Cut | src/main.rs:175-200 | the command's status and written records are exactly those of `CutRun` |
| Pipeline.ReorderStream | src/main.rs:220-235 | the record loop's status and written records are exactly those of `ReorderRows` |
| Pipeline.ReorderByColumns | src/main.rs:217-235 | the `-c` path's status and written records are exactly those of `ColumnsRun` |
| Pipeline.ReorderAfterHeader | src/main.rs:213-235 | once the header is read, a failed resolution writes nothing; otherwise the names and then the reordered records are written |
| Pipeline.ReorderByFields | src/main.rs:213-235 | the `-f` path's status and written records are exactly those of `FieldsRun`, the header being consumed |
| Pipeline.Reorder | src/main.rs:203-240 | the command's status and written records are exactly those of `ReorderRun` |
| Pipeline.CutKeepsCovered | src/main.rs:187-189 | a field survives `cut` iff its 1-based column is covered by the list |
| Pipeline.CutOrderIrrelevant | src/main.rs:86-107 | column lists with the same items, in any order and with repeats, cut every input alike |
| Pipeline.WholeRangeParses | src/main.rs:90-100 | the list `1-N` is the single range from 1 to N |
| Pipeline.WholeRangeBitmap | src/main.rs:100 | the range `1-N` sets exactly the first N bitmap positions |
| Pipeline.CutWholeRange | src/main.rs:184-195 | `cut -c 1-N` copies every input of at most N fields per record unchanged |
| Pipeline.CutBadSpecWritesNothing | src/main.rs:33-41 | a column list that does not parse stops `cut` before any output, with the parse error |
| Pipeline.ResolveExample | src/main.rs:125-148 | the names `b,a` resolve against the header `a,b,c` to positions 1, 0 |
| Pipeline.RowExample | src/main.rs:223-231 | the columns 1, 0 turn the row `1,2,3` into `2,1` |
| Pipeline.FieldsExample | src/main.rs:203-235 | `reorder -f b,a` on `a,b,c` then `1,2,3` writes `b,a` then `2,1` |
| Pipeline.ParseThreeOneThree | src/main.rs:109-123 | the list `3,1,3` parses to the columns 3, 1, 3 |
| Pipeline.NumericReorderAsWritten | src/main.rs:223-231 | as written, `reorder -c 3,1,3` on the single row `a,b,c` writes nothing and fails on column 3 |

## Left out

- Argument parsing (clap), `main` and the config structs are not modelled; they only route values. The commands take the delimiter option, the list or names, and the input records as parameters.
- Mode selection is a parameter. clap guarantees exactly one of `-c` and `-f` for `reorder`, and `ReorderMode` gives exactly one.
- The `-f` list is given as a sequence of byte fields. This is the `split(',')` of line 58 followed by `as_bytes`.
- Reader and writer construction, files and stdio, and CSV tokenising and quoting are not modelled. Neither is the use of the delimiter byte by the reader and writer. `GetDelimiter` only decides whether the option is accepted.
- I/O errors from the `?` operators on `record`, `write_record` and `flush` are not modelled, and neither is `flush`. Everything handed to the writer counts as written. `process::exit` skips the buffered writer's flush, so a fatal error may lose output that the model counts as written.
- Pipeline.CutRun, Pipeline.ReorderRows, Pipeline.FieldsRun: all input records are assumed to have the same number of fields. The reader is built without `flexible(true)` (src/main.rs:157-160), so `result?` (lines 185 and 221) also stops the command at the first record whose field count differs from the first record's. In `-f` mode the header is that first record. The model keeps streaming such records instead: for `cut -c 1` on `a,b` then `c` it writes `a` and `c` and ends done, where the tool writes `a` and fails.
- The message text of `error_exit`, `expect` and panics is not modelled. Each fatal condition is a distinct `Error` value instead.
- The cost and memory use of huge columns are not modelled. `vector.resize(index, 0)` for a column near `usize::MAX` would exhaust memory; the model grows its sequence without limit.
- `HashMap` hashing is not modelled. The map is a Dafny `map` with the same insert-overwrites semantics, built in header order.
- Numbers.ParseNumber: follows `usize` being 64 bits wide; a 32-bit target would reject values above `2^32 - 1`.
- Header.FieldsToColumns: the map's keys in the source are decoded `String`s compared with the requested `String`s. The model compares the same bytes, which is equivalent for well-formed UTF-8. Invalid UTF-8 fails before any lookup in both.

## Findings

| source | as written | input that shows it | evidently intended | confidence | as-written member | corrected member |
|---|---|---|---|---|---|---|
| src/main.rs:224-230 | numeric `reorder` indexes the record with the 1-based column itself, and the bounds check rejects only columns beyond the length | `reorder -c 3,1,3` on the row `a,b,c`: column 3 passes the check, and `record.get(3)` panics, so no record is written; `-c 1` on `a,b` writes `b` | column `c` selects field `c-1`, as in `cut`, so `3,1,3` on `a,b,c` gives `c,a,c` | not executed | Pipeline.NumericReorderAsWritten | Projection.ReorderFieldsOneBased |

The name-based mode is not affected: `fields_to_columns` produces 0-based
positions, which the as-written projection indexes correctly
(`Pipeline.FieldsExample`). `Projection.AsWrittenIsShifted` shows that the
as-written numeric projection is exactly the corrected one applied to every
column plus one. The pipeline models the code as written.
