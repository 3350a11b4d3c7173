/** The two commands end to end: option checking, column resolution before
    streaming, then one output record per input record until the input ends
    or a record fails. The input is the sequence of records the CSV reader
    yields, and the output is the sequence of records handed to the writer. */
module Pipeline {
  import opened Records
  import opened Text
  import opened Outcomes
  import opened Numbers
  import opened Delimiter
  import opened CutSpec
  import opened ReorderSpec
  import opened Header
  import opened Projection

  /** What a command hands to the writer, and how it ends. */
  datatype Run = Run(written: seq<Record>, status: Status)

  /** `reorder` takes exactly one of `--columns` and `--fields`. */
  datatype ReorderMode = ByColumns(spec: string) | ByFields(names: seq<Field>)

  function CutOutput(rows: seq<Record>, bitmap: seq<nat>): seq<Record>
  {
    seq(|rows|, i requires 0 <= i < |rows| => CutFields(rows[i], bitmap))
  }

  /** The `cut` command: a bad delimiter or column list stops it before any
      output; otherwise every input record yields its cut record. */
  function CutRun(delimiter: Option<seq<Byte>>, spec: string, input: seq<Record>): (run: Run)
    ensures run.status.Done? <==> GetDelimiter(delimiter).Ok? && ParseCutSpec(spec).Ok?
    ensures run.status.Failed? ==> run.written == []
    ensures run.status.Done? ==> |run.written| == |input|
    ensures run.status.Done? ==> forall i :: 0 <= i < |input| ==>
              run.written[i] == CutFields(input[i], BitmapOf(ParseCutSpec(spec).value))
  {
    var d := GetDelimiter(delimiter);
    if d.Err? then Run([], Failed(d.error))
    else
      var items := ParseCutSpec(spec);
      if items.Err? then Run([], Failed(items.error))
      else Run(CutOutput(input, BitmapOf(items.value)), Done)
  }

  function RowResults(rows: seq<Record>, columns: seq<nat>): seq<Result<Record>>
  {
    seq(|rows|, i requires 0 <= i < |rows| => ReorderFields(rows[i], columns))
  }

  /** The streaming loop of `reorder`: records are projected in turn and
      written until one fails; that one is not written and ends the run. */
  function ReorderRows(rows: seq<Record>, columns: seq<nat>): Run
  {
    var rs := RowResults(rows, columns);
    var c := Collect(rs);
    Run(OkPrefix(rs), if c.Ok? then Done else Failed(c.error))
  }

  /** Each written record is the reordering of the input record at the same
      place, and of nothing else; the run ends done iff every record is
      written, and otherwise with the error of the first record not written. */
  lemma ReorderRowsMeaning(rows: seq<Record>, columns: seq<nat>)
    ensures var run := ReorderRows(rows, columns);
            |run.written| <= |rows|
            && (forall i :: 0 <= i < |run.written| ==> ReorderFields(rows[i], columns) == Ok(run.written[i]))
            && (run.status.Done? <==> |run.written| == |rows|)
            && (run.status.Failed? ==>
                  ReorderFields(rows[|run.written|], columns).Err?
                  && run.status.error == ReorderFields(rows[|run.written|], columns).error)
  {
    CollectErrorAtPrefix(RowResults(rows, columns));
  }

  /** `reorder --columns`: the list is parsed before any output, then the
      records are streamed. */
  function ColumnsRun(spec: string, input: seq<Record>): (run: Run)
    ensures ReorderColumns(spec).Err? ==> run == Run([], Failed(ReorderColumns(spec).error))
  {
    match ReorderColumns(spec)
    case Err(e) => Run([], Failed(e))
    case Ok(columns) => ReorderRows(input, columns)
  }

  /** `reorder --fields`: the first record is the header; it is resolved and
      consumed, the requested names are written first, and the remaining
      records are streamed. */
  function FieldsRun(names: seq<Field>, input: seq<Record>): Run
  {
    if |input| == 0 then Run([], Failed(NoHeader))
    else
      match ResolveFields(input[0], names)
      case Err(e) => Run([], Failed(e))
      case Ok(columns) =>
        var rest := ReorderRows(input[1..], columns);
        Run([names] + rest.written, rest.status)
  }

  /** By fields, a missing header or a failed resolution stops the run
      before any output; otherwise the requested names are the first record
      written, and the rest is the streaming of the records after the header. */
  lemma FieldsRunEchoesNames(names: seq<Field>, input: seq<Record>)
    ensures |input| == 0 ==> FieldsRun(names, input) == Run([], Failed(NoHeader))
    ensures |input| > 0 && ResolveFields(input[0], names).Err? ==>
              FieldsRun(names, input) == Run([], Failed(ResolveFields(input[0], names).error))
    ensures |input| > 0 && ResolveFields(input[0], names).Ok? ==>
              var run := FieldsRun(names, input);
              var rest := ReorderRows(input[1..], ResolveFields(input[0], names).value);
              |run.written| > 0 && run.written[0] == names && run.written[1..] == rest.written
              && run.status == rest.status
  {
    if |input| > 0 && ResolveFields(input[0], names).Ok? {
      var rest := ReorderRows(input[1..], ResolveFields(input[0], names).value);
      assert ([names] + rest.written)[1..] == rest.written;
    }
  }

  /** The `reorder` command: a bad delimiter stops it before any output. */
  function ReorderRun(delimiter: Option<seq<Byte>>, mode: ReorderMode, input: seq<Record>): (run: Run)
    ensures GetDelimiter(delimiter).Err? ==> run == Run([], Failed(GetDelimiter(delimiter).error))
  {
    var d := GetDelimiter(delimiter);
    if d.Err? then Run([], Failed(d.error))
    else
      match mode
      case ByColumns(spec) => ColumnsRun(spec, input)
      case ByFields(names) => FieldsRun(names, input)
  }

  /** The record loop of `cut`, with one output record reused and cleared
      after every write. */
  method CutRows(rows: seq<Record>, bitmap: seq<nat>, writer: Writer)
    modifies writer
    ensures writer.rows == old(writer.rows) + CutOutput(rows, bitmap)
  {
    var outRecord := new OutRecord();
    for i := 0 to |rows|
      invariant writer.rows == old(writer.rows) + CutOutput(rows[..i], bitmap)
      invariant outRecord.fields == []
    {
      CutProject(rows[i], bitmap, outRecord);
      assert outRecord.fields == CutFields(rows[i], bitmap);
      writer.WriteRecord(outRecord.fields);
      outRecord.Clear();
      assert rows[..i + 1] == rows[..i] + [rows[i]];
      assert CutOutput(rows[..i + 1], bitmap) == CutOutput(rows[..i], bitmap) + [CutFields(rows[i], bitmap)];
    }
    assert rows[..|rows|] == rows;
  }

  /** `cut`: the configuration is checked, the column list parsed into its
      bitmap, and the records streamed. */
  method Cut(delimiter: Option<seq<Byte>>, spec: string, input: seq<Record>, writer: Writer) returns (s: Status)
    modifies writer
    ensures s == CutRun(delimiter, spec, input).status
    ensures writer.rows == old(writer.rows) + CutRun(delimiter, spec, input).written
  {
    var d := GetDelimiter(delimiter);
    if d.Err? {
      return Failed(d.error);
    }
    var columns := ParseColumns(spec);
    if columns.Err? {
      return Failed(columns.error);
    }
    CutRows(input, columns.value, writer);
    return Done;
  }

  /** The record loop of `reorder`, with one output record reused and
      cleared after every write. */
  method ReorderStream(rows: seq<Record>, columns: seq<nat>, writer: Writer) returns (s: Status)
    modifies writer
    ensures s == ReorderRows(rows, columns).status
    ensures writer.rows == old(writer.rows) + ReorderRows(rows, columns).written
  {
    ghost var rs := RowResults(rows, columns);
    ghost var done: seq<Record> := [];
    var outRecord := new OutRecord();
    for i := 0 to |rows|
      invariant OkUpTo(rs, done) && |done| == i
      invariant writer.rows == old(writer.rows) + done
      invariant outRecord.fields == []
    {
      var st := ReorderProject(rows[i], columns, outRecord);
      if st.Failed? {
        CollectFirstFailure(rs, done);
        OkPrefixAt(rs, done);
        return st;
      }
      var projected := outRecord.fields;
      assert rs[i] == ReorderFields(rows[i], columns);
      assert rs[i].Ok? && projected == [] + rs[i].value;
      assert [] + rs[i].value == rs[i].value;
      OkUpToStep(rs, done, projected);
      writer.WriteRecord(projected);
      done := done + [projected];
      outRecord.Clear();
    }
    CollectAllSucceed(rs, done);
    OkPrefixAt(rs, done);
    return Done;
  }

  /** `reorder --columns`: the list is parsed, then the records streamed. */
  method ReorderByColumns(spec: string, input: seq<Record>, writer: Writer) returns (s: Status)
    modifies writer
    ensures s == ColumnsRun(spec, input).status
    ensures writer.rows == old(writer.rows) + ColumnsRun(spec, input).written
  {
    var columns := ParseReorder(spec);
    if columns.Err? {
      return Failed(columns.error);
    }
    s := ReorderStream(input, columns.value, writer);
  }

  /** The part of `reorder --fields` after the header has been read. */
  method ReorderAfterHeader(names: seq<Field>, header: Record, rest: seq<Record>, writer: Writer) returns (s: Status)
    modifies writer
    ensures ResolveFields(header, names).Err? ==>
              s == Failed(ResolveFields(header, names).error) && writer.rows == old(writer.rows)
    ensures ResolveFields(header, names).Ok? ==>
              s == ReorderRows(rest, ResolveFields(header, names).value).status
              && writer.rows == old(writer.rows) + [names] + ReorderRows(rest, ResolveFields(header, names).value).written
  {
    var columns := FieldsToColumns(Some(header), writer, names);
    if columns.Err? {
      return Failed(columns.error);
    }
    s := ReorderStream(rest, columns.value, writer);
  }

  /** `reorder --fields`: the header is resolved and consumed, the names
      written, then the remaining records streamed. */
  method ReorderByFields(names: seq<Field>, input: seq<Record>, writer: Writer) returns (s: Status)
    modifies writer
    ensures s == FieldsRun(names, input).status
    ensures writer.rows == old(writer.rows) + FieldsRun(names, input).written
  {
    if |input| == 0 {
      var noHeader := FieldsToColumns(None, writer, names);
      return Failed(noHeader.error);
    }
    s := ReorderAfterHeader(names, input[0], input[1..], writer);
    ghost var run := FieldsRun(names, input);
    assert run == match ResolveFields(input[0], names)
                  case Err(e) => Run([], Failed(e))
                  case Ok(columns) => Run([names] + ReorderRows(input[1..], columns).written,
                                          ReorderRows(input[1..], columns).status);
  }

  /** `reorder`: the configuration is checked, the columns resolved from
      the list or from the header, and the records streamed. */
  method Reorder(delimiter: Option<seq<Byte>>, mode: ReorderMode, input: seq<Record>, writer: Writer) returns (s: Status)
    modifies writer
    ensures s == ReorderRun(delimiter, mode, input).status
    ensures writer.rows == old(writer.rows) + ReorderRun(delimiter, mode, input).written
  {
    var d := GetDelimiter(delimiter);
    if d.Err? {
      return Failed(d.error);
    }
    match mode {
      case ByColumns(spec) =>
        s := ReorderByColumns(spec, input, writer);
      case ByFields(names) =>
        s := ReorderByFields(names, input, writer);
    }
  }

  /** A field of a record survives `cut` exactly when its 1-based column is
      covered by the column list. */
  lemma CutKeepsCovered(record: Record, items: seq<CutItem>)
    ensures forall i: nat :: i in Selection(|record|, BitmapOf(items)) <==> i < |record| && Covered(items, i + 1)
  {
    var bitmap := BitmapOf(items);
    forall i: nat | i < |record| && Covered(items, i + 1)
      ensures Selected(bitmap, i)
    {
      assert i + 1 <= Width(items);
    }
  }

  /** Column lists with the same items, in any order and with any repeats,
      cut every input alike. */
  lemma CutOrderIrrelevant(delimiter: Option<seq<Byte>>, a: string, b: string, input: seq<Record>)
    requires ParseCutSpec(a).Ok? && ParseCutSpec(b).Ok?
    requires forall it :: it in ParseCutSpec(a).value <==> it in ParseCutSpec(b).value
    ensures CutRun(delimiter, a, input) == CutRun(delimiter, b, input)
  {
    BitmapIgnoresOrder(ParseCutSpec(a).value, ParseCutSpec(b).value);
  }

  /** The list "1-N" parses to the single span from 1 to N. */
  lemma WholeRangeParses(n: nat)
    requires 1 <= n <= USIZE_MAX
    ensures ParseCutSpec("1-" + Numeral(n)) == Ok([Span(1, n)])
  {
    var items := [Span(1, n)];
    assert Numeral(1) == "1";
    assert RenderItem(items[0]) == "1-" + Numeral(n);
    var texts := seq(1, k requires 0 <= k < 1 => RenderItem(items[k]));
    assert texts == [RenderItem(items[0])];
    assert RenderCutSpec(items) == Join(texts, ',') == texts[0];
    assert ValidItem(items[0]);
    ParseCutSpecRoundTrip(items);
  }

  /** The span from 1 to N sets the first N bitmap positions. */
  lemma WholeRangeBitmap(n: nat)
    requires 1 <= n
    ensures |BitmapOf([Span(1, n)])| == n
    ensures forall i :: 0 <= i < n ==> BitmapOf([Span(1, n)])[i] == 1
  {
    var items := [Span(1, n)];
    assert items[0] in items && Covers(items[0], n);
    assert Covered(items, n);
    forall c | 1 <= c <= n
      ensures Covered(items, c)
    {
      assert items[0] in items && Covers(items[0], c);
    }
  }

  /** `cut -c 1-N` copies every record of at most `N` fields unchanged. */
  lemma CutWholeRange(n: nat, input: seq<Record>)
    requires 1 <= n <= USIZE_MAX
    requires forall i :: 0 <= i < |input| ==> |input[i]| <= n
    ensures CutRun(None, "1-" + Numeral(n), input) == Run(input, Done)
  {
    WholeRangeParses(n);
    WholeRangeBitmap(n);
    var bitmap := BitmapOf([Span(1, n)]);
    forall i | 0 <= i < |input|
      ensures CutFields(input[i], bitmap) == input[i]
    {
      CutKeepsAll(input[i], bitmap);
    }
    assert CutOutput(input, bitmap) == input;
  }

  /** A column list that does not parse stops `cut` before any output. */
  lemma CutBadSpecWritesNothing(delimiter: Option<seq<Byte>>, spec: string, input: seq<Record>)
    requires ParseCutSpec(spec).Err?
    ensures CutRun(delimiter, spec, input).written == []
    ensures GetDelimiter(delimiter).Ok? ==> CutRun(delimiter, spec, input).status == Failed(ParseCutSpec(spec).error)
  {
  }

  /** The names b,a resolve against the header a,b,c to the positions 1, 0. */
  lemma ResolveExample()
    ensures ResolveFields([[97], [98], [99]], [[98], [97]]) == Ok([1, 0])
  {
    var header: Record := [[97], [98], [99]];
    forall i | 0 <= i < |header|
      ensures ValidUtf8(header[i])
    {
      AsciiIsUtf8(header[i]);
    }
    ResolveFieldsMeaning(header, [[98], [97]]);
    var columns := ResolveFields(header, [[98], [97]]);
    assert [98] == header[1] && [97] == header[0];
    assert columns.Ok?;
    assert IsLastIndex(header, [98], columns.value[0]) && IsLastIndex(header, [97], columns.value[1]);
    assert columns.value == [1, 0];
  }

  /** The columns 1, 0 turn the row 1,2,3 into 2,1. */
  lemma RowExample()
    ensures ReorderRows([[[49], [50], [51]]], [1, 0]) == Run([[[50], [49]]], Done)
  {
    var row: Record := [[49], [50], [51]];
    ReorderPicks(row, [1, 0]);
    var out := ReorderFields(row, [1, 0]);
    assert out.Ok? && out.value[0] == row[1] && out.value[1] == row[0];
    assert out.value == [[50], [49]];
    var rs := RowResults([row], [1, 0]);
    assert OkUpTo(rs, [out.value]);
    CollectAllSucceed(rs, [out.value]);
    OkPrefixAt(rs, [out.value]);
  }

  /** `reorder --fields b,a` on the header a,b,c and the row 1,2,3 writes
      b,a and then 2,1. */
  lemma FieldsExample()
    ensures ReorderRun(None, ByFields([[98], [97]]), [[[97], [98], [99]], [[49], [50], [51]]])
            == Run([[[98], [97]], [[50], [49]]], Done)
  {
    ResolveExample();
    RowExample();
    assert [[[97], [98], [99]], [[49], [50], [51]]][1..] == [[[49], [50], [51]]];
  }

  /** The numeric list "3,1,3" parses to the columns 3, 1, 3. */
  lemma ParseThreeOneThree()
    ensures ReorderColumns("3,1,3") == Ok([3, 1, 3])
  {
    assert Numeral(3) == "3" && Numeral(1) == "1";
    var texts := seq(3, k requires 0 <= k < 3 => Numeral([3, 1, 3][k]));
    assert texts == ["3", "1", "3"];
    assert Join(texts, ',') == "3" + "," + Join(["1", "3"], ',');
    assert RenderReorder([3, 1, 3]) == "3,1,3";
    ReorderRoundTrip([3, 1, 3]);
  }

  /** As written, `reorder -c 3,1,3` on the row a,b,c writes nothing and
      fails: column 3 is used as the 0-based position 3, which passes the
      bounds check and finds no field. */
  lemma NumericReorderAsWritten()
    ensures ReorderRun(None, ByColumns("3,1,3"), [[[97], [98], [99]]]) == Run([], Failed(FieldAbsent(3)))
  {
    ParseThreeOneThree();
    var rs := FieldResults([[97], [98], [99]], [3, 1, 3]);
    assert rs[0] == Err(FieldAbsent(3));
    CollectFirstFailure(rs, []);
    var rows := RowResults([[[97], [98], [99]]], [3, 1, 3]);
    CollectFirstFailure(rows, []);
    OkPrefixAt(rows, []);
  }
}
