/** The ways a run of the tool can stop, and the result type of every fallible step. */
module Outcomes {
  import opened Records

  /** Every fatal condition of the tool. Each one is an `error_exit`, an
      `expect` or an `unwrap` that ends the process with a non-zero status. */
  datatype Error =
    | InvalidDelimiter             // the delimiter argument is longer than one byte
    | EmptyDelimiter               // an empty delimiter argument: reading byte 0 panics
    | InvalidNumber(text: string)  // `parse::<usize>` rejected the text
    | InvalidRange(token: string)  // a cut token that splits on '-' into other than two parts
    | ColumnUnderflow              // column 0 in a cut list: `index - 1` underflows
    | InvalidColumn(column: nat)   // reorder: column 0 in the list, or a column beyond the row
    | FieldAbsent(column: nat)     // reorder: `record.get(len)` is None and `unwrap` panics
    | NoHeader                     // fields mode on an empty input
    | InvalidUtf8(field: Field)    // a header field that is not UTF-8
    | UnknownField(name: Field)    // a requested name that is not in the header

  datatype Result<+T> = Ok(value: T) | Err(error: Error) {
    predicate IsFailure() { Err? }

    function PropagateFailure<U>(): Result<U>
      requires Err?
    {
      Err(error)
    }

    function Extract(): T
      requires Ok?
    {
      value
    }
  }

  datatype Option<+T> = None | Some(value: T)

  /** How a run (or one step of it) ends. */
  datatype Status = Done | Failed(error: Error)

  /** Runs the steps in order: all their values when every one succeeds,
      otherwise the error of the first one that fails. */
  function Collect<T>(rs: seq<Result<T>>): (r: Result<seq<T>>)
    ensures r.Ok? <==> forall k :: 0 <= k < |rs| ==> rs[k].Ok?
    ensures r.Ok? ==> |r.value| == |rs| && forall k :: 0 <= k < |rs| ==> r.value[k] == rs[k].value
    ensures r.Err? ==>
      exists j :: 0 <= j < |rs| && rs[j].Err? && rs[j].error == r.error
                  && forall k :: 0 <= k < j ==> rs[k].Ok?
  {
    if |rs| == 0 then Ok([])
    else if rs[0].Err? then Err(rs[0].error)
    else
      match Collect(rs[1..])
      case Ok(vs) => Ok([rs[0].value] + vs)
      case Err(e) => Err(e)
  }

  /** The first `|vs|` steps succeeded, with the values `vs`. */
  ghost predicate OkUpTo<T>(rs: seq<Result<T>>, vs: seq<T>)
  {
    |vs| <= |rs| && forall k :: 0 <= k < |vs| ==> rs[k].Ok? && rs[k].value == vs[k]
  }

  lemma OkUpToStep<T>(rs: seq<Result<T>>, vs: seq<T>, v: T)
    requires OkUpTo(rs, vs) && |vs| < |rs| && rs[|vs|] == Ok(v)
    ensures OkUpTo(rs, vs + [v])
  {
  }

  /** The first failing step decides the error. */
  lemma CollectFirstFailure<T>(rs: seq<Result<T>>, vs: seq<T>)
    requires OkUpTo(rs, vs) && |vs| < |rs| && rs[|vs|].Err?
    ensures Collect(rs) == Err(rs[|vs|].error)
  {
    var r := Collect(rs);
    var i :| 0 <= i < |rs| && rs[i].Err? && rs[i].error == r.error
             && forall k :: 0 <= k < i ==> rs[k].Ok?;
    assert i == |vs|;
  }

  /** When every step succeeds, the values are exactly theirs. */
  lemma CollectAllSucceed<T>(rs: seq<Result<T>>, vs: seq<T>)
    requires OkUpTo(rs, vs) && |vs| == |rs|
    ensures Collect(rs) == Ok(vs)
  {
    assert Collect(rs).value == vs;
  }

  /** The values of the steps before the first failure: what a streaming loop
      has written when it stops. */
  function OkPrefix<T>(rs: seq<Result<T>>): (p: seq<T>)
    ensures |p| <= |rs|
    ensures forall k :: 0 <= k < |p| ==> rs[k].Ok? && p[k] == rs[k].value
    ensures |p| < |rs| ==> rs[|p|].Err?
  {
    if |rs| == 0 || rs[0].Err? then [] else [rs[0].value] + OkPrefix(rs[1..])
  }

  /** The prefix before the failure at `j` is the values of the first `j` steps. */
  lemma OkPrefixAt<T>(rs: seq<Result<T>>, vs: seq<T>)
    requires OkUpTo(rs, vs)
    requires |vs| < |rs| ==> rs[|vs|].Err?
    ensures OkPrefix(rs) == vs
  {
    var p := OkPrefix(rs);
    assert |p| == |vs|;
  }

  /** Collecting fails exactly when the successful prefix stops short, and
      then with the error of the step right after that prefix. */
  lemma CollectErrorAtPrefix<T>(rs: seq<Result<T>>)
    ensures |OkPrefix(rs)| <= |rs|
    ensures forall k :: 0 <= k < |OkPrefix(rs)| ==> rs[k] == Ok(OkPrefix(rs)[k])
    ensures Collect(rs).Ok? <==> |OkPrefix(rs)| == |rs|
    ensures Collect(rs).Err? ==> rs[|OkPrefix(rs)|].Err? && Collect(rs).error == rs[|OkPrefix(rs)|].error
  {
    var p := OkPrefix(rs);
    assert OkUpTo(rs, p);
    if |p| == |rs| {
      CollectAllSucceed(rs, p);
    } else {
      CollectFirstFailure(rs, p);
    }
  }
}
