/** Byte strings, records, and the two buffers the tool writes into: the reused
    output record and the CSV writer. */
module Records {

  newtype Byte = b: int | 0 <= b < 256

  /** One field of a record, as the reader hands it over: raw bytes. */
  type Field = seq<Byte>

  /** One row of the delimited stream, already split into fields. */
  type Record = seq<Field>

  predicate IsContinuation(b: Byte) { 0x80 <= b <= 0xBF }

  /** Well-formed UTF-8 (the byte sequences of Table 3-7 of the Unicode
      Standard): what `str::from_utf8` accepts. */
  predicate ValidUtf8(s: Field)
    decreases |s|
  {
    if |s| == 0 then true
    else if s[0] <= 0x7F then ValidUtf8(s[1..])
    else if 0xC2 <= s[0] <= 0xDF then
      |s| >= 2 && IsContinuation(s[1]) && ValidUtf8(s[2..])
    else if s[0] == 0xE0 then
      |s| >= 3 && 0xA0 <= s[1] <= 0xBF && IsContinuation(s[2]) && ValidUtf8(s[3..])
    else if 0xE1 <= s[0] <= 0xEC || 0xEE <= s[0] <= 0xEF then
      |s| >= 3 && IsContinuation(s[1]) && IsContinuation(s[2]) && ValidUtf8(s[3..])
    else if s[0] == 0xED then
      |s| >= 3 && 0x80 <= s[1] <= 0x9F && IsContinuation(s[2]) && ValidUtf8(s[3..])
    else if s[0] == 0xF0 then
      |s| >= 4 && 0x90 <= s[1] <= 0xBF && IsContinuation(s[2]) && IsContinuation(s[3])
      && ValidUtf8(s[4..])
    else if 0xF1 <= s[0] <= 0xF3 then
      |s| >= 4 && IsContinuation(s[1]) && IsContinuation(s[2]) && IsContinuation(s[3])
      && ValidUtf8(s[4..])
    else if s[0] == 0xF4 then
      |s| >= 4 && 0x80 <= s[1] <= 0x8F && IsContinuation(s[2]) && IsContinuation(s[3])
      && ValidUtf8(s[4..])
    else false
  }

  /** Pure ASCII is well-formed UTF-8. */
  lemma {:induction false} AsciiIsUtf8(s: Field)
    requires forall i :: 0 <= i < |s| ==> s[i] <= 0x7F
    ensures ValidUtf8(s)
    decreases |s|
  {
    if |s| > 0 {
      AsciiIsUtf8(s[1..]);
    }
  }

  /** The `ByteRecord` buffer the tool reuses for every output row. */
  class OutRecord {
    var fields: Record

    constructor ()
      ensures fields == []
    {
      fields := [];
    }

    method PushField(f: Field)
      modifies this
      ensures fields == old(fields) + [f]
    {
      fields := fields + [f];
    }

    method Clear()
      modifies this
      ensures fields == []
    {
      fields := [];
    }
  }

  /** The CSV writer, seen as the sequence of records written to it so far. */
  class Writer {
    var rows: seq<Record>

    constructor ()
      ensures rows == []
    {
      rows := [];
    }

    method WriteRecord(r: Record)
      modifies this
      ensures rows == old(rows) + [r]
    {
      rows := rows + [r];
    }
  }
}
