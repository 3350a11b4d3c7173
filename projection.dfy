/** The per-record projections of `cut` and `reorder`: which fields of one
    input record are copied into the output record, and in what order. */
module Projection {
  import opened Records
  import opened Outcomes

  /** Field `i` is kept by `cut` when the bitmap has a 1 at position `i`;
      positions beyond the bitmap are not kept. */
  predicate Selected(bitmap: seq<nat>, i: nat)
  {
    i < |bitmap| && bitmap[i] == 1
  }

  /** The kept positions of a record of length `n`, in increasing order. */
  function Selection(n: nat, bitmap: seq<nat>): (idx: seq<nat>)
    ensures forall k :: 0 <= k < |idx| ==> idx[k] < n && Selected(bitmap, idx[k])
    ensures forall i: nat :: i < n && Selected(bitmap, i) ==> i in idx
    ensures forall k, l :: 0 <= k < l < |idx| ==> idx[k] < idx[l]
  {
    if n == 0 then []
    else Selection(n - 1, bitmap) + (if Selected(bitmap, n - 1) then [n - 1] else [])
  }

  /** The output record `cut` builds from one input record. */
  function CutFields(record: Record, bitmap: seq<nat>): Record
  {
    if |record| == 0 then []
    else
      var n := |record| - 1;
      CutFields(record[..n], bitmap) + (if Selected(bitmap, n) then [record[n]] else [])
  }

  /** One more field of input extends the cut output by that field when it
      is selected. */
  lemma CutFieldsStep(record: Record, bitmap: seq<nat>, idx: nat)
    requires idx < |record|
    ensures CutFields(record[..idx + 1], bitmap)
            == CutFields(record[..idx], bitmap) + (if Selected(bitmap, idx) then [record[idx]] else [])
  {
    assert record[..idx + 1][..idx] == record[..idx];
  }

  /** The cut output is the record's fields at the selected positions, in
      input order. */
  lemma {:induction false} CutSelects(record: Record, bitmap: seq<nat>)
    ensures |CutFields(record, bitmap)| == |Selection(|record|, bitmap)|
    ensures forall k :: 0 <= k < |CutFields(record, bitmap)| ==>
              CutFields(record, bitmap)[k] == record[Selection(|record|, bitmap)[k]]
  {
    if |record| > 0 {
      var n := |record| - 1;
      CutSelects(record[..n], bitmap);
      var prev := CutFields(record[..n], bitmap);
      var sel := Selection(n, bitmap);
      var out := CutFields(record, bitmap);
      var idx := Selection(|record|, bitmap);
      var kept := Selected(bitmap, n);
      assert out == prev + (if kept then [record[n]] else []);
      assert idx == sel + (if kept then [n] else []);
      forall k | 0 <= k < |out|
        ensures out[k] == record[idx[k]]
      {
        if k < |prev| {
          assert sel[k] < n;
          assert out[k] == prev[k] == record[..n][sel[k]];
        }
      }
    }
  }

  /** The projection loop of `cut`: each field, in input order, is pushed
      onto the output record when the bitmap marks it. */
  method CutProject(record: Record, bitmap: seq<nat>, out: OutRecord)
    modifies out
    ensures out.fields == old(out.fields) + CutFields(record, bitmap)
  {
    for idx := 0 to |record|
      invariant out.fields == old(out.fields) + CutFields(record[..idx], bitmap)
    {
      CutFieldsStep(record, bitmap, idx);
      if idx < |bitmap| && bitmap[idx] == 1 {
        out.PushField(record[idx]);
      }
    }
    assert record[..|record|] == record;
  }

  /** A bitmap of ones at least as long as the record keeps every field. */
  lemma {:induction false} CutKeepsAll(record: Record, bitmap: seq<nat>)
    requires |bitmap| >= |record|
    requires forall i :: 0 <= i < |record| ==> bitmap[i] == 1
    ensures CutFields(record, bitmap) == record
  {
    if |record| > 0 {
      var n := |record| - 1;
      CutKeepsAll(record[..n], bitmap);
      assert record == record[..n] + [record[n]];
    }
  }

  /** The cut output depends only on the fields at selected positions:
      records that agree there cut alike. */
  lemma {:induction false} CutIgnoresDropped(a: Record, b: Record, bitmap: seq<nat>)
    requires |a| == |b|
    requires forall i :: 0 <= i < |a| && Selected(bitmap, i) ==> a[i] == b[i]
    ensures CutFields(a, bitmap) == CutFields(b, bitmap)
  {
    if |a| > 0 {
      var n := |a| - 1;
      CutIgnoresDropped(a[..n], b[..n], bitmap);
    }
  }

  /** `record.get(column).unwrap()` after the bounds check of `reorder`:
      a column beyond the record is reported, and a column equal to its
      length passes the check but finds no field. */
  function FieldAt(record: Record, column: nat): Result<Field>
  {
    if column > |record| then Err(InvalidColumn(column))
    else if column == |record| then Err(FieldAbsent(column))
    else Ok(record[column])
  }

  function FieldResults(record: Record, columns: seq<nat>): seq<Result<Field>>
  {
    seq(|columns|, k requires 0 <= k < |columns| => FieldAt(record, columns[k]))
  }

  /** The output record `reorder` builds from one input record, taking
      `columns` as 0-based positions. */
  function ReorderFields(record: Record, columns: seq<nat>): Result<Record>
  {
    Collect(FieldResults(record, columns))
  }

  /** Reordering succeeds exactly when every column is a position of the
      record, and then yields the fields at those positions in list order;
      otherwise it fails with the error of the first bad column. */
  lemma ReorderPicks(record: Record, columns: seq<nat>)
    ensures var r := ReorderFields(record, columns);
            (r.Ok? <==> forall k :: 0 <= k < |columns| ==> columns[k] < |record|)
            && (r.Ok? ==> |r.value| == |columns|
                          && forall k :: 0 <= k < |columns| ==> r.value[k] == record[columns[k]])
            && (r.Err? ==> exists j :: 0 <= j < |columns| && columns[j] >= |record|
                                       && (forall k :: 0 <= k < j ==> columns[k] < |record|)
                                       && r.error == (if columns[j] > |record| then InvalidColumn(columns[j])
                                                      else FieldAbsent(columns[j])))
  {
    var rs := FieldResults(record, columns);
    assert forall k :: 0 <= k < |columns| ==> (rs[k].Ok? <==> columns[k] < |record|);
  }

  /** The projection loop of `reorder`. On success the output record gains
      the requested fields; on failure it gains the fields before the first
      bad column and the status carries that column's error. */
  method ReorderProject(record: Record, columns: seq<nat>, out: OutRecord) returns (s: Status)
    modifies out
    ensures s.Done? <==> ReorderFields(record, columns).Ok?
    ensures s.Done? ==> out.fields == old(out.fields) + ReorderFields(record, columns).value
    ensures s.Failed? ==> s.error == ReorderFields(record, columns).error
    ensures out.fields == old(out.fields) + OkPrefix(FieldResults(record, columns))
  {
    ghost var rs := FieldResults(record, columns);
    ghost var pushed: seq<Field> := [];
    for idx := 0 to |columns|
      invariant OkUpTo(rs, pushed) && |pushed| == idx
      invariant out.fields == old(out.fields) + pushed
    {
      var columnIdx := columns[idx];
      if columnIdx > |record| {
        CollectFirstFailure(rs, pushed);
        OkPrefixAt(rs, pushed);
        return Failed(InvalidColumn(columnIdx));
      }
      if columnIdx == |record| {
        CollectFirstFailure(rs, pushed);
        OkPrefixAt(rs, pushed);
        return Failed(FieldAbsent(columnIdx));
      }
      OkUpToStep(rs, pushed, record[columnIdx]);
      out.PushField(record[columnIdx]);
      pushed := pushed + [record[columnIdx]];
    }
    CollectAllSucceed(rs, pushed);
    OkPrefixAt(rs, pushed);
    return Done;
  }

  /** The 1-based reading of a reorder column list: column `c` is field
      `c - 1`. `parse_reorder` rejects 0 as an invalid column, and `cut`
      reads its list of the same form 1-based. */
  function ReorderFieldsOneBased(record: Record, columns: seq<nat>): (r: Result<Record>)
    ensures r.Ok? <==> forall k :: 0 <= k < |columns| ==> 1 <= columns[k] <= |record|
    ensures r.Ok? ==> |r.value| == |columns|
                      && forall k :: 0 <= k < |columns| ==> r.value[k] == record[columns[k] - 1]
  {
    if exists k :: 0 <= k < |columns| && columns[k] == 0 then
      Err(InvalidColumn(0))
    else
      var shifted := seq(|columns|, k requires 0 <= k < |columns| => columns[k] - 1);
      assert forall k :: 0 <= k < |columns| ==> shifted[k] + 1 == columns[k];
      ReorderPicks(record, shifted);
      ReorderFields(record, shifted)
  }

  /** The 0-based reading takes each column one place to the right of the
      1-based one: a list read as written picks what the 1-based reading
      picks for every column plus one. */
  lemma AsWrittenIsShifted(record: Record, columns: seq<nat>)
    ensures ReorderFields(record, columns)
            == ReorderFieldsOneBased(record, seq(|columns|, k requires 0 <= k < |columns| => columns[k] + 1))
  {
    var plus := seq(|columns|, k requires 0 <= k < |columns| => columns[k] + 1);
    assert !exists k :: 0 <= k < |plus| && plus[k] == 0;
    assert seq(|plus|, k requires 0 <= k < |plus| => plus[k] - 1) == columns;
  }

  /** The 1-based reading of "3,1,3" on the row a,b,c is c,a,c. */
  lemma OneBasedExample()
    ensures ReorderFieldsOneBased([[97], [98], [99]], [3, 1, 3]) == Ok([[99], [97], [99]])
  {
    var r := ReorderFieldsOneBased([[97], [98], [99]], [3, 1, 3]);
    assert r.Ok?;
    assert r.value == [[99], [97], [99]];
  }
}
