/** The converters of the oldest generation (`Vank`): each pairs the
    expression a placeholder's capture must match with `convert_to_python`
    and `convert_to_url`. The converters a project uses are named in its
    settings; the ones shipped with the framework are modelled here. */
module LegacyConverters {
  import opened Wrappers
  import opened Text
  import opened Patterns
  import VisapiConvertor

  /** A converter object: its `name` attribute if it has one (none of the
      shipped classes defines it), its `regex`, `convert_to_python` (None
      when it raises) and `convert_to_url`. */
  datatype Converter<!V> = Converter(name: Option<string>, pat: Pattern, toPython: string -> Option<V>, toUrl: V -> string)

  /** The Python values the shipped converters produce; `uuid.UUID` is the
      model of the `visapi` convertors. */
  datatype Value = IntValue(n: int) | StrValue(s: string) | UuidValue(u: VisapiConvertor.UUID)

  /** `str(value)`, which is every shipped `convert_to_url`. */
  function Show(v: Value): string {
    match v
    case IntValue(n) => IntToString(n)
    case StrValue(s) => s
    case UuidValue(u) => if |u.hex| == 32 then VisapiConvertor.UuidToUrl(u) else u.hex
  }

  /** `int(value)`. */
  function IntToPython(value: string): Option<Value> {
    match ParseInt(value)
    case Some(n) => Some(IntValue(n))
    case None => None
  }

  /** `str(value)` on a text. */
  function StrToPython(value: string): Option<Value> {
    Some(StrValue(value))
  }

  /** `UUID(value)`. */
  function UuidToPython(value: string): Option<Value> {
    match VisapiConvertor.UuidToPython(value)
    case Ok(u) => Some(UuidValue(u))
    case Err(_) => None
  }

  /** `IntConverter`: `\d+`, no sign. */
  const IntConverter: Converter<Value> := Converter(None, Run(Digit, 1), IntToPython, Show)

  /** `StrConverter`: `[^/]+`. */
  const StrConverter: Converter<Value> := Converter(None, Run(NotSlash, 1), StrToPython, Show)

  /** `UUIDConverter`: lower-case 8-4-4-4-12 hexadecimal groups. */
  const UuidConverter: Converter<Value> := Converter(None, Uuid, UuidToPython, Show)

  /** `PathConverter`: `.*`, which takes the empty text and slashes. */
  const PathConverter: Converter<Value> := Converter(None, Run(NotNewline, 0), StrToPython, Show)

  /** Every non-negative integer's URL text matches `\d+` and reads back as
      the same integer; a negative one's does not match. */
  lemma IntConverterRoundTrip(n: int)
    ensures n >= 0 ==> Accepts(IntConverter.pat, IntConverter.toUrl(IntValue(n)))
    ensures n >= 0 ==> IntConverter.toPython(IntConverter.toUrl(IntValue(n))) == Some(IntValue(n))
    ensures n < 0 ==> !Accepts(IntConverter.pat, IntConverter.toUrl(IntValue(n)))
  {
    ParseIntToString(n);
    if n >= 0 {
      DigitsOfNat(n);
    } else {
      assert IntToString(n)[0] == '-';
    }
  }

  /** Every text `\d+` matches converts, to the integer its digits spell. */
  lemma IntConverterAccepted(t: string)
    requires Accepts(IntConverter.pat, t)
    ensures IntConverter.toPython(t) == Some(IntValue(DigitsValue(t)))
  {
    assert !IsSpace(t[0]) && !IsSpace(t[|t| - 1]);
    assert Strip(t) == t;
  }

  /** `StrConverter` and `PathConverter` are the identity both ways; `.*`
      accepts the empty text and slashes, `[^/]+` neither. */
  lemma TextConverters(t: string)
    ensures StrConverter.toPython(t) == Some(StrValue(t)) && StrConverter.toUrl(StrValue(t)) == t
    ensures PathConverter.toPython(t) == Some(StrValue(t)) && PathConverter.toUrl(StrValue(t)) == t
    ensures Accepts(StrConverter.pat, t) <==> t != [] && '/' !in t
    ensures Accepts(PathConverter.pat, t) <==> '\n' !in t
  {
    if t != [] && '/' !in t {
      assert forall i :: 0 <= i < |t| ==> t[i] != '/' by {
        forall i | 0 <= i < |t| ensures t[i] != '/' { assert t[i] in t; }
      }
    }
    if '\n' !in t {
      assert forall i :: 0 <= i < |t| ==> t[i] != '\n' by {
        forall i | 0 <= i < |t| ensures t[i] != '\n' { assert t[i] in t; }
      }
    }
  }

  /** Every text the UUID expression matches converts and prints back as
      itself. */
  lemma UuidConverterRoundTrip(t: string)
    requires Accepts(UuidConverter.pat, t)
    ensures UuidConverter.toPython(t).Some?
    ensures UuidConverter.toUrl(UuidConverter.toPython(t).value) == t
  {
    VisapiConvertor.UuidRoundTrip(t);
  }

  /** None of the shipped converters has a `name` attribute. */
  predicate Nameless<V>(c: Converter<V>) { c.name.None? }
}
