/** The cut column list (`parse_number`, `insert_column`, `parse_columns`):
    comma-separated 1-based columns and inclusive `N-M` ranges, turned into a
    0/1 presence bitmap that grows on demand. */
module CutSpec {
  import opened Outcomes
  import opened Text
  import opened Numbers

  /** One token of a cut list: a bare column or an inclusive range. */
  datatype CutItem = Single(column: nat) | Span(first: nat, last: nat)

  /** A token the tool accepts: every column a `usize`, and no column 0 that
      would reach `insert_column`. A reversed span is allowed. */
  predicate ValidItem(it: CutItem)
  {
    match it
    case Single(c) => 1 <= c <= USIZE_MAX
    case Span(a, b) => 1 <= a <= USIZE_MAX && b <= USIZE_MAX
  }

  /** The meaning of one token, failing as the tool does and in the same order:
      a token with '-' must split into exactly two numbers, both are parsed
      before any column is inserted, and inserting column 0 underflows (a
      range that starts at 0 is never empty, so it always does). */
  function CutToken(token: string): (r: Result<CutItem>)
    ensures r.Ok? ==> ValidItem(r.value)
  {
    if '-' in token then
      var parts := Split(token, '-');
      if |parts| != 2 then Err(InvalidRange(token))
      else
        var first :- ParseNumber(parts[0]);
        var last :- ParseNumber(parts[1]);
        if first == 0 then Err(ColumnUnderflow) else Ok(Span(first, last))
    else
      var column :- ParseNumber(token);
      if column == 0 then Err(ColumnUnderflow) else Ok(Single(column))
  }

  function CutResults(tokens: seq<string>): seq<Result<CutItem>>
  {
    seq(|tokens|, k requires 0 <= k < |tokens| => CutToken(tokens[k]))
  }

  /** The items of a cut list, or the error of its first bad token. */
  function ParseCutSpec(spec: string): Result<seq<CutItem>>
  {
    Collect(CutResults(Split(spec, ',')))
  }

  predicate Covers(it: CutItem, c: int)
  {
    match it
    case Single(n) => c == n
    case Span(a, b) => a <= c <= b
  }

  /** Column `c` is named by some item, bare or inside a range. */
  predicate Covered(items: seq<CutItem>, c: int)
  {
    exists it :: it in items && Covers(it, c)
  }

  function ItemWidth(it: CutItem): nat
  {
    match it
    case Single(n) => n
    case Span(a, b) => if a <= b then b else 0
  }

  function Max(a: nat, b: nat): nat { if a < b then b else a }

  /** The highest column the items name (0 if none). */
  function Width(items: seq<CutItem>): (w: nat)
    ensures forall c :: Covered(items, c) ==> c <= w
    ensures w > 0 ==> Covered(items, w)
  {
    if |items| == 0 then 0
    else
      var init, last := items[..|items| - 1], items[|items| - 1];
      assert items == init + [last];
      var w := Max(Width(init), ItemWidth(last));
      assert forall c :: Covered(items, c) ==> Covered(init, c) || Covers(last, c);
      assert w > 0 && w == Width(init) ==> Covered(init, w);
      assert Covered(init, w) ==> Covered(items, w);
      assert w > 0 && w == ItemWidth(last) ==> Covers(last, w);
      w
  }

  /** The presence bitmap the items call for: position `i` is 1 exactly when
      column `i + 1` is covered, and it is as long as the highest column. */
  function BitmapOf(items: seq<CutItem>): seq<nat>
  {
    seq(Width(items), i => if Covered(items, i + 1) then 1 else 0)
  }

  /** The bitmap depends on nothing but which columns are covered. */
  lemma BitmapOfCoverage(a: seq<CutItem>, b: seq<CutItem>)
    requires forall c :: Covered(a, c) <==> Covered(b, c)
    ensures BitmapOf(a) == BitmapOf(b)
  {
    var wa, wb := Width(a), Width(b);
    if wa > 0 { assert Covered(b, wa); }
    if wb > 0 { assert Covered(a, wb); }
    assert wa == wb;
  }

  /** Token order and repeated tokens do not change the bitmap. */
  lemma BitmapIgnoresOrder(a: seq<CutItem>, b: seq<CutItem>)
    requires forall it :: it in a <==> it in b
    ensures BitmapOf(a) == BitmapOf(b)
  {
    BitmapOfCoverage(a, b);
  }

  /** A reversed range such as `5-3` adds nothing to the bitmap. */
  lemma ReversedSpanSelectsNothing(items: seq<CutItem>, first: nat, last: nat)
    requires first > last
    ensures BitmapOf(items + [Span(first, last)]) == BitmapOf(items)
  {
    var more := items + [Span(first, last)];
    forall c ensures Covered(more, c) <==> Covered(items, c) {
      if Covered(more, c) {
        var it :| it in more && Covers(it, c);
        assert it in items;
      }
      if Covered(items, c) {
        var it :| it in items && Covers(it, c);
        assert it in more;
      }
    }
    BitmapOfCoverage(more, items);
  }

  /** `after` is `before` once `insert_column(column)` has run: grown with
      zeros to at least `column` entries, with entry `column - 1` set. */
  ghost predicate InsertedAt(before: seq<nat>, after: seq<nat>, column: nat)
  {
    && column >= 1
    && |after| == Max(|before|, column)
    && after[column - 1] == 1
    && (forall i :: 0 <= i < |before| && i != column - 1 ==> after[i] == before[i])
    && (forall i :: |before| <= i < |after| && i != column - 1 ==> after[i] == 0)
  }

  /** The text of one item: `N` or `N-M`. */
  function RenderItem(it: CutItem): string
  {
    match it
    case Single(c) => Numeral(c)
    case Span(a, b) => Numeral(a) + ['-'] + Numeral(b)
  }

  /** A cut list naming the items in order. */
  function RenderCutSpec(items: seq<CutItem>): string
    requires |items| > 0
  {
    Join(seq(|items|, k requires 0 <= k < |items| => RenderItem(items[k])), ',')
  }

  /** `a-b` splits on '-' into `a` and `b` when neither holds a '-'. */
  lemma SplitRange(a: string, b: string)
    requires '-' !in a && '-' !in b
    ensures '-' in a + ['-'] + b
    ensures Split(a + ['-'] + b, '-') == [a, b]
  {
    var token := a + ['-'] + b;
    assert token[|a|] == '-';
    assert Join([a, b], '-') == token;
    SplitJoin([a, b], '-');
  }

  /** Every accepted item is read back from its text. */
  lemma CutTokenRoundTrip(it: CutItem)
    requires ValidItem(it)
    ensures CutToken(RenderItem(it)) == Ok(it)
  {
    match it
    case Single(c) =>
      NumeralHasNoPunctuation(c);
      ParseNumeral(c);
    case Span(a, b) =>
      NumeralHasNoPunctuation(a);
      NumeralHasNoPunctuation(b);
      ParseNumeral(a);
      ParseNumeral(b);
      SplitRange(Numeral(a), Numeral(b));
  }

  /** A list of accepted items is read back from its text, in order and with
      repetitions. */
  lemma ParseCutSpecRoundTrip(items: seq<CutItem>)
    requires |items| > 0
    requires forall k :: 0 <= k < |items| ==> ValidItem(items[k])
    ensures ParseCutSpec(RenderCutSpec(items)) == Ok(items)
  {
    var texts := seq(|items|, k requires 0 <= k < |items| => RenderItem(items[k]));
    forall k | 0 <= k < |items| ensures ',' !in texts[k] {
      match items[k]
      case Single(c) => NumeralHasNoPunctuation(c);
      case Span(a, b) =>
        NumeralHasNoPunctuation(a);
        NumeralHasNoPunctuation(b);
    }
    SplitJoin(texts, ',');
    var rs := CutResults(Split(RenderCutSpec(items), ','));
    forall k | 0 <= k < |items| ensures rs[k].Ok? && rs[k].value == items[k] {
      CutTokenRoundTrip(items[k]);
    }
    assert OkUpTo(rs, items);
    CollectAllSucceed(rs, items);
  }

  lemma {:induction false} CountedIsPresent(s: string, c: char)
    requires Count(s, c) > 0
    ensures c in s
  {
    if s[0] != c {
      CountedIsPresent(s[1..], c);
    }
  }

  /** A token with two or more '-' is an invalid range. */
  lemma ManyDashesInvalidRange(token: string)
    requires Count(token, '-') >= 2
    ensures CutToken(token) == Err(InvalidRange(token))
  {
    CountedIsPresent(token, '-');
  }

  /** A range with an empty side fails as an invalid number: `-5`, `5-`, `-`. */
  lemma EmptyRangeSide(a: string, b: string)
    requires '-' !in a && '-' !in b
    requires a == [] || b == []
    requires a == [] || ParseNumber(a).Ok?
    ensures CutToken(a + ['-'] + b) == Err(InvalidNumber([]))
  {
    SplitRange(a, b);
  }

  /** Column 0 underflows, bare or as the start of a range. */
  lemma ZeroColumnUnderflows(b: nat)
    requires b <= USIZE_MAX
    ensures CutToken(Numeral(0)) == Err(ColumnUnderflow)
    ensures CutToken(RenderItem(Span(0, b))) == Err(ColumnUnderflow)
  {
    ParseNumeral(0);
    ParseNumeral(b);
    NumeralHasNoPunctuation(0);
    NumeralHasNoPunctuation(b);
    SplitRange(Numeral(0), Numeral(b));
  }

  /** `after` covers what `before` covers and `column` besides. */
  ghost predicate AddsColumn(before: seq<CutItem>, after: seq<CutItem>, column: nat)
  {
    forall c :: Covered(after, c) <==> Covered(before, c) || c == column
  }

  /** Inserting a column into the bitmap of some items gives the bitmap of
      items that cover that column too. */
  lemma InsertExtendsBitmap(before: seq<CutItem>, after: seq<CutItem>, column: nat, bits: seq<nat>)
    requires AddsColumn(before, after, column)
    requires InsertedAt(BitmapOf(before), bits, column)
    ensures bits == BitmapOf(after)
  {
    var wb, wa := Width(before), Width(after);
    assert Covered(after, column);
    if wb > 0 { assert Covered(after, wb); }
    assert Covered(before, wa) || wa == column;
    assert wa == Max(wb, column);
    forall i | 0 <= i < wa ensures bits[i] == BitmapOf(after)[i] {
      if i != column - 1 && i < wb {
        assert Covered(after, i + 1) <==> Covered(before, i + 1);
      }
    }
  }

  /** The `Vec<usize>` that `parse_columns` fills. */
  class Bitmap {
    var bits: seq<nat>

    constructor ()
      ensures bits == []
    {
      bits := [];
    }

    /** `insert_column`: grow with zeros to `column` entries if shorter, then
        set entry `column - 1`; column 0 underflows and fails, after the
        (empty) growth. */
    method InsertColumn(column: nat) returns (ok: bool)
      modifies this
      ensures ok <==> column >= 1
      ensures ok ==> InsertedAt(old(bits), bits, column)
      ensures !ok ==> bits == old(bits)
    {
      if |bits| < column {
        bits := bits + seq(column - |bits|, _ => 0);
      }
      if column == 0 {
        return false;
      }
      bits := bits[column - 1 := 1];
      return true;
    }
  }

  function CoveredUpTo(items: seq<CutItem>, first: nat, next: nat): seq<CutItem>
    requires first >= 1 && next >= first
  {
    items + [Span(first, next - 1)]
  }

  /** One more column of a range: the items so far plus `first..=next`. */
  lemma SpanStep(items: seq<CutItem>, first: nat, next: nat)
    requires 1 <= first <= next
    ensures AddsColumn(CoveredUpTo(items, first, next), CoveredUpTo(items, first, next + 1), next)
  {
    var a, b := CoveredUpTo(items, first, next + 1), CoveredUpTo(items, first, next);
    forall c ensures Covered(a, c) <==> Covered(b, c) || c == next {
      if Covered(a, c) {
        var it :| it in a && Covers(it, c);
        if it in items { assert it in b; }
        else if c != next { assert Span(first, next - 1) in b; }
      }
      if Covered(b, c) {
        var it :| it in b && Covers(it, c);
        if it in items { assert it in a; }
        else { assert Span(first, next) in a; }
      }
      if c == next { assert Span(first, next) in a; }
    }
  }

  /** Inserting a bare column into the bitmap of the items so far. */
  lemma SingleStep(done: seq<CutItem>, column: nat)
    ensures AddsColumn(done, done + [Single(column)], column)
  {
    var item := Single(column);
    forall c ensures Covered(done + [item], c) <==> Covered(done, c) || c == column {
      if Covered(done + [item], c) {
        var it :| it in done + [item] && Covers(it, c);
        if it in done { assert Covered(done, c); }
      }
      if Covered(done, c) {
        var it :| it in done && Covers(it, c);
        assert it in done + [item];
      }
      if c == column { assert item in done + [item]; }
    }
  }

  /** The range loop of `parse_columns`: `insert_column` for each of
      `start..=end` in turn, which fails at once when `start` is 0. */
  method InsertRange(columns: Bitmap, start: nat, end: nat, ghost done: seq<CutItem>) returns (ok: bool)
    requires columns.bits == BitmapOf(done)
    modifies columns
    ensures ok <==> start >= 1
    ensures ok ==> columns.bits == BitmapOf(done + [Span(start, end)])
    ensures !ok ==> columns.bits == old(columns.bits)
  {
    var next := start;
    while next <= end
      invariant next >= start
      invariant next <= end + 1 || next == start
      invariant start == 0 ==> next == 0 && columns.bits == BitmapOf(done)
      invariant start >= 1 ==> columns.bits == BitmapOf(CoveredUpTo(done, start, next))
      decreases end - next
    {
      ok := columns.InsertColumn(next);
      if !ok {
        return false;
      }
      SpanStep(done, start, next);
      InsertExtendsBitmap(CoveredUpTo(done, start, next), CoveredUpTo(done, start, next + 1), next, columns.bits);
      next := next + 1;
    }
    if start == 0 {
      assert false;
    }
    if start > end {
      ReversedSpanSelectsNothing(done, start, end);
      ReversedSpanSelectsNothing(done, start, start - 1);
    } else {
      assert CoveredUpTo(done, start, next) == done + [Span(start, end)];
    }
    return true;
  }

  /** One turn of the loop of `parse_columns`: parse the token and insert
      its columns. */
  method InsertToken(columns: Bitmap, token: string, ghost done: seq<CutItem>) returns (r: Result<CutItem>)
    requires columns.bits == BitmapOf(done)
    modifies columns
    ensures r == CutToken(token)
    ensures r.Ok? ==> columns.bits == BitmapOf(done + [r.value])
    ensures r.Err? ==> columns.bits == old(columns.bits)
  {
    if '-' in token {
      var range := Split(token, '-');
      if |range| != 2 {
        return Err(InvalidRange(token));
      }
      var start :- ParseNumber(range[0]);
      var end :- ParseNumber(range[1]);
      var ok := InsertRange(columns, start, end, done);
      if !ok {
        return Err(ColumnUnderflow);
      }
      return Ok(Span(start, end));
    } else {
      var column :- ParseNumber(token);
      var ok := columns.InsertColumn(column);
      if !ok {
        return Err(ColumnUnderflow);
      }
      SingleStep(done, column);
      InsertExtendsBitmap(done, done + [Single(column)], column, columns.bits);
      return Ok(Single(column));
    }
  }

  /** The error of a cut list is that of its first bad token. */
  lemma CutFirstError(spec: string, j: nat)
    requires j < |Split(spec, ',')| && CutToken(Split(spec, ',')[j]).Err?
    requires forall k :: 0 <= k < j ==> CutToken(Split(spec, ',')[k]).Ok?
    ensures ParseCutSpec(spec) == Err(CutToken(Split(spec, ',')[j]).error)
  {
    var rs := CutResults(Split(spec, ','));
    var vs := seq(j, k requires 0 <= k < j => rs[k].value);
    assert OkUpTo(rs, vs);
    CollectFirstFailure(rs, vs);
  }

  /** `parse_columns`: the bitmap of the list's items, or the error of its
      first bad token. */
  method ParseColumns(spec: string) returns (r: Result<seq<nat>>)
    ensures ParseCutSpec(spec).Ok? ==> r == Ok(BitmapOf(ParseCutSpec(spec).value))
    ensures ParseCutSpec(spec).Err? ==> r == Err(ParseCutSpec(spec).error)
  {
    var tokens := Split(spec, ',');
    ghost var rs := CutResults(tokens);
    ghost var done: seq<CutItem> := [];
    var columns := new Bitmap();
    for i := 0 to |tokens|
      invariant |done| == i
      invariant OkUpTo(rs, done)
      invariant columns.bits == BitmapOf(done)
    {
      var item := InsertToken(columns, tokens[i], done);
      if item.Err? {
        CollectFirstFailure(rs, done);
        return Err(item.error);
      }
      OkUpToStep(rs, done, item.value);
      done := done + [item.value];
    }
    CollectAllSucceed(rs, done);
    return Ok(columns.bits);
  }
}
