/** The delimiter option of both subcommands (`get_delimiter`). */
module Delimiter {
  import opened Records
  import opened Outcomes

  /** ',' as a byte. */
  const Comma: Byte := 44

  /** The delimiter byte for the option's value, given as the UTF-8 bytes of
      the argument: no value means a comma, a value of more than one byte is
      refused, an empty value fails when its first byte is read, and a single
      byte is the delimiter. */
  function GetDelimiter(arg: Option<seq<Byte>>): (r: Result<Byte>)
    ensures arg.None? ==> r == Ok(Comma)
    ensures arg.Some? ==> (r.Ok? <==> |arg.value| == 1)
    ensures arg.Some? && r.Ok? ==> r.value == arg.value[0]
    ensures arg.Some? && |arg.value| > 1 ==> r == Err(InvalidDelimiter)
    ensures arg.Some? && arg.value == [] ==> r == Err(EmptyDelimiter)
  {
    match arg
    case None => Ok(Comma)
    case Some(s) =>
      if |s| > 1 then Err(InvalidDelimiter)
      else if |s| == 0 then Err(EmptyDelimiter)
      else Ok(s[0])
  }
}
