/** `get_exception_reason` of the oldest generation: the text of an
    exception's first argument, or a fixed "unknown error" text. */
module LegacyException {
  import opened Wrappers

  /** The first argument of an exception: a text or any other value. */
  datatype Arg = StrArg(text: string) | OtherArg

  /** An object passed in: its `args` tuple, or None when it has no `args`
      attribute at all. */
  datatype Raised = Raised(args: Option<seq<Arg>>)

  /** The fallback reason, "unknown error" in Chinese. */
  const UnknownReason: string := "未知错误"

  /** The reason is `args[0]` when that is a text; a missing `args` (the
      AttributeError), an empty one (the IndexError) and a non-text first
      argument all give the fallback. The function never fails. */
  function Reason(e: Raised): (r: string)
    ensures e.args.Some? && |e.args.value| > 0 && e.args.value[0].StrArg? ==> r == e.args.value[0].text
    ensures e.args.None? || e.args.value == [] || e.args.value[0].OtherArg? ==> r == UnknownReason
  {
    match e.args
    case None => UnknownReason
    case Some(args) =>
      if |args| == 0 then UnknownReason
      else
        match args[0]
        case StrArg(text) => text
        case OtherArg => UnknownReason
  }

  /** Only the first argument matters. */
  lemma ReasonFirstArgOnly(a: Arg, rest1: seq<Arg>, rest2: seq<Arg>)
    ensures Reason(Raised(Some([a] + rest1))) == Reason(Raised(Some([a] + rest2)))
  {
    assert ([a] + rest1)[0] == a && ([a] + rest2)[0] == a;
  }
}
