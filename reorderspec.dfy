/** The numeric reorder list (`parse_reorder`): comma-separated 1-based
    columns, kept in order with their repetitions. */
module ReorderSpec {
  import opened Outcomes
  import opened Text
  import opened Numbers

  /** One token of a reorder list: a number, and 0 is an invalid column.
      There are no ranges here: a '-' makes the token an invalid number. */
  function ReorderToken(token: string): (r: Result<nat>)
    ensures r.Ok? <==> ParseNumber(token).Ok? && ParseNumber(token).value >= 1
    ensures r.Ok? ==> r.value == ParseNumber(token).value
    ensures '-' in token ==> r == Err(InvalidNumber(token))
  {
    var column :- ParseNumber(token);
    if column < 1 then Err(InvalidColumn(column)) else Ok(column)
  }

  function ReorderResults(tokens: seq<string>): seq<Result<nat>>
  {
    seq(|tokens|, k requires 0 <= k < |tokens| => ReorderToken(tokens[k]))
  }

  /** The columns of a reorder list, or the error of its first bad token. */
  function ReorderColumns(spec: string): Result<seq<nat>>
  {
    Collect(ReorderResults(Split(spec, ',')))
  }

  /** A reorder list yields one column per comma-separated token, in token
      order, each at least 1 and equal to its token's value; it fails only
      when some token is bad. */
  lemma ReorderColumnsMeaning(spec: string)
    ensures var r := ReorderColumns(spec);
            (r.Ok? ==> |r.value| == |Split(spec, ',')|
                       && forall k :: 0 <= k < |r.value| ==>
                            r.value[k] >= 1 && ParseNumber(Split(spec, ',')[k]) == Ok(r.value[k]))
            && (r.Err? ==> exists k :: 0 <= k < |Split(spec, ',')| && ReorderToken(Split(spec, ',')[k]).Err?)
  {
    var tokens := Split(spec, ',');
    var rs := ReorderResults(tokens);
    var r := Collect(rs);
    if r.Ok? {
      forall k | 0 <= k < |r.value|
        ensures r.value[k] >= 1 && ParseNumber(tokens[k]) == Ok(r.value[k])
      {
        assert rs[k] == ReorderToken(tokens[k]);
        assert rs[k].Ok? && rs[k].value == r.value[k];
      }
    } else {
      var j :| 0 <= j < |rs| && rs[j].Err?;
      assert ReorderToken(tokens[j]).Err?;
    }
  }

  /** `parse_reorder`. */
  method ParseReorder(spec: string) returns (r: Result<seq<nat>>)
    ensures r == ReorderColumns(spec)
  {
    var tokens := Split(spec, ',');
    ghost var rs := ReorderResults(tokens);
    var columns: seq<nat> := [];
    for i := 0 to |tokens|
      invariant |columns| == i
      invariant OkUpTo(rs, columns)
    {
      var column := ParseNumber(tokens[i]);
      if column.Err? {
        CollectFirstFailure(rs, columns);
        return Err(column.error);
      }
      if column.value < 1 {
        CollectFirstFailure(rs, columns);
        return Err(InvalidColumn(column.value));
      }
      OkUpToStep(rs, columns, column.value);
      columns := columns + [column.value];
    }
    CollectAllSucceed(rs, columns);
    return Ok(columns);
  }

  /** A reorder list naming the columns in order. */
  function RenderReorder(columns: seq<nat>): string
    requires |columns| > 0
  {
    Join(seq(|columns|, k requires 0 <= k < |columns| => Numeral(columns[k])), ',')
  }

  lemma SplitRenderReorder(columns: seq<nat>)
    requires |columns| > 0
    ensures Split(RenderReorder(columns), ',')
            == seq(|columns|, k requires 0 <= k < |columns| => Numeral(columns[k]))
  {
    var texts := seq(|columns|, k requires 0 <= k < |columns| => Numeral(columns[k]));
    forall k | 0 <= k < |columns| ensures ',' !in texts[k] {
      NumeralHasNoPunctuation(columns[k]);
    }
    SplitJoin(texts, ',');
  }

  /** Any list of columns from 1 up, repetitions included, is read back in
      order from its text. */
  lemma ReorderRoundTrip(columns: seq<nat>)
    requires |columns| > 0
    requires forall k :: 0 <= k < |columns| ==> 1 <= columns[k] <= USIZE_MAX
    ensures ReorderColumns(RenderReorder(columns)) == Ok(columns)
  {
    SplitRenderReorder(columns);
    var rs := ReorderResults(Split(RenderReorder(columns), ','));
    forall k | 0 <= k < |columns| ensures rs[k].Ok? && rs[k].value == columns[k] {
      ParseNumeral(columns[k]);
    }
    assert OkUpTo(rs, columns);
    CollectAllSucceed(rs, columns);
  }

  /** A 0 in the list is the "Invalid column" error, when every column
      before it is accepted. */
  lemma ReorderRejectsZero(columns: seq<nat>, j: nat)
    requires j < |columns| && columns[j] == 0
    requires forall k :: 0 <= k < j ==> 1 <= columns[k] <= USIZE_MAX
    ensures ReorderColumns(RenderReorder(columns)) == Err(InvalidColumn(0))
  {
    SplitRenderReorder(columns);
    var rs := ReorderResults(Split(RenderReorder(columns), ','));
    forall k | 0 <= k < j ensures rs[k].Ok? && rs[k].value == columns[k] {
      ParseNumeral(columns[k]);
    }
    ParseNumeral(0);
    assert OkUpTo(rs, columns[..j]);
    CollectFirstFailure(rs, columns[..j]);
  }

  /** The error of a reorder list is that of its first bad token. */
  lemma ReorderFirstError(spec: string, j: nat)
    requires j < |Split(spec, ',')| && ReorderToken(Split(spec, ',')[j]).Err?
    requires forall k :: 0 <= k < j ==> ReorderToken(Split(spec, ',')[k]).Ok?
    ensures ReorderColumns(spec) == Err(ReorderToken(Split(spec, ',')[j]).error)
  {
    var rs := ReorderResults(Split(spec, ','));
    var vs := seq(j, k requires 0 <= k < j => rs[k].value);
    assert OkUpTo(rs, vs);
    CollectFirstFailure(rs, vs);
  }
}
