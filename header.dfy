/** Header-name resolution for `reorder --fields` (`fields_to_columns`):
    the header's names mapped to their positions, the requested names looked
    up in it, and the names echoed as the first output record. */
module Header {
  import opened Records
  import opened Outcomes

  /** `i` is the last position at which `name` occurs in the header. */
  ghost predicate IsLastIndex(header: Record, name: Field, i: nat)
  {
    i < |header| && header[i] == name && forall j :: i < j < |header| ==> header[j] != name
  }

  /** The name-to-position map, built left to right so that a later
      occurrence of a name replaces an earlier one. */
  function HeaderIndex(header: Record): (m: map<Field, nat>)
    ensures forall name :: name in m <==> name in header
    ensures forall name :: name in m ==> IsLastIndex(header, name, m[name])
  {
    if |header| == 0 then map[]
    else
      var init := header[..|header| - 1];
      assert header == init + [header[|header| - 1]];
      HeaderIndex(init)[header[|header| - 1] := |header| - 1]
  }

  /** `from_utf8(..).unwrap()` on one header field. */
  function DecodeName(f: Field): Result<Field>
  {
    if ValidUtf8(f) then Ok(f) else Err(InvalidUtf8(f))
  }

  function DecodeResults(header: Record): seq<Result<Field>>
  {
    seq(|header|, i requires 0 <= i < |header| => DecodeName(header[i]))
  }

  /** `map.get(field).expect(..)`. */
  function Lookup(m: map<Field, nat>, name: Field): Result<nat>
  {
    if name in m then Ok(m[name]) else Err(UnknownField(name))
  }

  function LookupResults(m: map<Field, nat>, names: seq<Field>): seq<Result<nat>>
  {
    seq(|names|, k requires 0 <= k < |names| => Lookup(m, names[k]))
  }

  /** Decoding the header succeeds exactly when every field is UTF-8, and
      then yields the header itself. */
  lemma DecodeAll(header: Record)
    ensures var d := Collect(DecodeResults(header));
            (d.Ok? <==> forall i :: 0 <= i < |header| ==> ValidUtf8(header[i]))
            && (d.Ok? ==> d.value == header)
  {
    var d := Collect(DecodeResults(header));
    if d.Ok? {
      assert d.value == header;
    }
  }

  /** Looking the names up succeeds exactly when all occur in the header,
      and each column is the last position of its name. */
  lemma LookupAll(header: Record, names: seq<Field>)
    ensures var l := Collect(LookupResults(HeaderIndex(header), names));
            (l.Ok? <==> forall k :: 0 <= k < |names| ==> names[k] in header)
            && (l.Ok? ==> |l.value| == |names|
                          && forall k :: 0 <= k < |names| ==> IsLastIndex(header, names[k], l.value[k]))
  {
    var m := HeaderIndex(header);
    var rs := LookupResults(m, names);
    assert forall k :: 0 <= k < |names| ==> (rs[k].Ok? <==> names[k] in header);
  }

  /** The columns for the requested names: the whole header is decoded
      first, then each name is looked up in request order. */
  function ResolveFields(header: Record, names: seq<Field>): Result<seq<nat>>
  {
    var decoded := Collect(DecodeResults(header));
    if decoded.Err? then Err(decoded.error)
    else Collect(LookupResults(HeaderIndex(header), names))
  }

  /** Resolution succeeds exactly when the header is UTF-8 and holds every
      requested name; column `k` is then the last header position of name
      `k`, so a repeated header name resolves to its last occurrence. */
  lemma ResolveFieldsMeaning(header: Record, names: seq<Field>)
    ensures var r := ResolveFields(header, names);
            (r.Ok? <==> (forall i :: 0 <= i < |header| ==> ValidUtf8(header[i]))
                        && forall k :: 0 <= k < |names| ==> names[k] in header)
            && (r.Ok? ==> |r.value| == |names|
                          && forall k :: 0 <= k < |names| ==> IsLastIndex(header, names[k], r.value[k]))
  {
    DecodeAll(header);
    LookupAll(header, names);
  }

  /** The map-building loop of `fields_to_columns`: every header field is
      decoded, and the first one that is not UTF-8 stops the build. */
  method BuildIndex(header: Record) returns (r: Result<map<Field, nat>>)
    ensures var d := Collect(DecodeResults(header));
            r == if d.Ok? then Ok(HeaderIndex(header)) else Err(d.error)
  {
    ghost var decoded := DecodeResults(header);
    var index: map<Field, nat> := map[];
    for i := 0 to |header|
      invariant OkUpTo(decoded, header[..i])
      invariant index == HeaderIndex(header[..i])
    {
      if !ValidUtf8(header[i]) {
        CollectFirstFailure(decoded, header[..i]);
        return Err(InvalidUtf8(header[i]));
      }
      OkUpToStep(decoded, header[..i], header[i]);
      assert header[..i + 1] == header[..i] + [header[i]];
      index := index[header[i] := i];
    }
    assert header[..|header|] == header;
    CollectAllSucceed(decoded, header);
    return Ok(index);
  }

  /** The lookup loop of `fields_to_columns`: each requested name is looked
      up in turn and copied into the output record. */
  method LookupNames(index: map<Field, nat>, names: seq<Field>, outRecord: OutRecord) returns (r: Result<seq<nat>>)
    requires outRecord.fields == []
    modifies outRecord
    ensures r == Collect(LookupResults(index, names))
    ensures r.Ok? ==> outRecord.fields == names
    ensures r.Err? ==> outRecord.fields == names[..|OkPrefix(LookupResults(index, names))|]
  {
    ghost var lookups := LookupResults(index, names);
    var columns: seq<nat> := [];
    for k := 0 to |names|
      invariant OkUpTo(lookups, columns) && |columns| == k
      invariant outRecord.fields == names[..k]
    {
      if names[k] !in index {
        CollectFirstFailure(lookups, columns);
        OkPrefixAt(lookups, columns);
        return Err(UnknownField(names[k]));
      }
      var column := index[names[k]];
      OkUpToStep(lookups, columns, column);
      columns := columns + [column];
      outRecord.PushField(names[k]);
      assert names[..k + 1] == names[..k] + [names[k]];
    }
    CollectAllSucceed(lookups, columns);
    assert names[..|names|] == names;
    return Ok(columns);
  }

  /** `fields_to_columns`: takes the first record of the input (`None` when
      there is none) as the header, writes the requested names as the first
      output record, and returns the resolved columns. */
  method FieldsToColumns(next: Option<Record>, writer: Writer, fields: seq<Field>) returns (r: Result<seq<nat>>)
    modifies writer
    ensures next.None? ==> r == Err(NoHeader)
    ensures next.Some? ==> r == ResolveFields(next.value, fields)
    ensures writer.rows == old(writer.rows) + (if r.Ok? then [fields] else [])
  {
    if next.None? {
      return Err(NoHeader);
    }
    var index :- BuildIndex(next.value);
    var outRecord := new OutRecord();
    r := LookupNames(index, fields, outRecord);
    if r.Ok? {
      writer.WriteRecord(outRecord.fields);
    }
  }
}
