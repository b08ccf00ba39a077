/** The convertors of the `visapi` generation: each pairs the expression a
    placeholder's capture must match with a function from the captured text
    to a value (`to_python`) and one back to URL text (`to_url`). */
module VisapiConvertor {
  import opened Wrappers
  import opened Text
  import opened Patterns

  /** The ValueError of a failed conversion, and the NotImplementedError of
      the base class. */
  datatype ConvertError = NotImplemented | InvalidValue

  /** `Convertor.to_python` and `Convertor.to_url` of the base class. */
  function BaseToPython(value: string): (r: Result<string, ConvertError>)
    ensures r == Err(NotImplemented)
  {
    Err(NotImplemented)
  }

  function BaseToUrl(value: string): (r: Result<string, ConvertError>)
    ensures r == Err(NotImplemented)
  {
    Err(NotImplemented)
  }

  // ---- IntConvertor ---------------------------------------------------------

  const IntRegex: Pattern := SignedDigits

  function IntToPython(value: string): Result<int, ConvertError> {
    match ParseInt(value)
    case Some(n) => Ok(n)
    case None => Err(InvalidValue)
  }

  function IntToUrl(n: int): string {
    IntToString(n)
  }

  /** Every integer's URL text matches the expression and reads back as the
      same integer. */
  lemma IntRoundTrip(n: int)
    ensures Accepts(IntRegex, IntToUrl(n))
    ensures IntToPython(IntToUrl(n)) == Ok(n)
  {
    ParseIntToString(n);
    var m: nat := if n < 0 then -n else n;
    var digits := NatToString(m);
    if n < 0 {
      assert IntToUrl(n)[1..] == digits;
    }
  }

  /** Every text the expression matches converts. */
  lemma IntAcceptedConverts(t: string)
    requires Accepts(IntRegex, t)
    ensures IntToPython(t).Ok?
  {
    assert !IsSpace(t[0]) && !IsSpace(t[|t| - 1]);
    assert Strip(t) == t;
  }

  // ---- FloatConvertor -------------------------------------------------------

  const FloatRegex: Pattern := Decimal

  /** A float as the exact decimal it was written as, `num / 10^scale`. */
  datatype Float = Float(num: int, scale: nat)

  /** The first index of `c` in `s`. */
  function FirstIndex(s: string, c: char): (r: Option<nat>)
    ensures r.Some? ==> r.value < |s| && s[r.value] == c && forall k :: 0 <= k < r.value ==> s[k] != c
    ensures r.None? ==> forall k :: 0 <= k < |s| ==> s[k] != c
  {
    if s == [] then None
    else if s[0] == c then Some(0)
    else match FirstIndex(s[1..], c)
      case None => None
      case Some(k) => Some(k + 1)
  }

  /** `float(value)` on unsigned decimal notation: digits with at most one
      point and at least one digit. */
  function UnsignedFloat(body: string): (r: Option<Float>)
  {
    match FirstIndex(body, '.')
    case None =>
      if |body| >= 1 && AllDigits(body) then Some(Float(DigitsValue(body), 0)) else None
    case Some(i) =>
      var whole, frac := body[..i], body[i + 1..];
      if |whole| + |frac| >= 1 && AllDigits(whole) && AllDigits(frac) then
        Some(Float(DigitsValue(whole + frac), |frac|))
      else None
  }

  /** `float(value)`: surrounding white space is ignored and one sign is
      allowed. */
  function FloatToPython(value: string): Result<Float, ConvertError> {
    var t := Strip(value);
    var neg := |t| > 0 && t[0] == '-';
    var body := if |t| > 0 && (t[0] == '-' || t[0] == '+') then t[1..] else t;
    match UnsignedFloat(body)
    case None => Err(InvalidValue)
    case Some(f) => Ok(if neg then Float(0 - f.num, f.scale) else f)
  }

  /** Every text the expression matches converts, and an integer text
      converts to that integer with no decimals. */
  lemma FloatAcceptedConverts(t: string)
    requires Accepts(FloatRegex, t)
    ensures FloatToPython(t).Ok?
  {
    if UnsignedDecimal(t) {
      UnsignedDecimalEnds(t);
      UnsignedDecimalConverts(t);
    } else {
      var body := t[1..];
      UnsignedDecimalEnds(body);
      assert t[|t| - 1] == body[|body| - 1];
      assert Strip(t) == t;
      UnsignedDecimalConverts(body);
    }
  }

  lemma UnsignedDecimalEnds(body: string)
    requires UnsignedDecimal(body)
    ensures |body| >= 1 && !IsSpace(body[0]) && !IsSpace(body[|body| - 1])
    ensures body[0] != '-' && body[0] != '+'
  {
  }

  lemma UnsignedDecimalConverts(body: string)
    requires UnsignedDecimal(body)
    ensures UnsignedFloat(body).Some?
  {
    if i :| 1 <= i < |body| && body[i] == '.' && AllDigits(body[..i]) && AllDigits(body[i + 1..]) {
      forall k | 0 <= k < i
        ensures body[k] != '.'
      {
        assert body[k] == body[..i][k];
      }
      FirstIndexAt(body, '.', i);
    } else if |body| >= 2 && body[0] == '.' && AllDigits(body[1..]) {
      FirstIndexAt(body, '.', 0);
      assert body[..0] + body[1..] == body[1..];
    }
  }

  /** The first occurrence is the one with none before it. */
  lemma FirstIndexAt(s: string, c: char, i: nat)
    requires i < |s| && s[i] == c
    requires forall k :: 0 <= k < i ==> s[k] != c
    ensures FirstIndex(s, c) == Some(i)
  {
  }

  lemma FloatOfInt(t: string)
    requires Accepts(IntRegex, t)
    ensures FloatToPython(t) == Ok(Float(IntToPython(t).value, 0))
  {
    IntAcceptedConverts(t);
    assert Strip(t) == t;
    var body := if t[0] == '-' then t[1..] else t;
    assert FirstIndex(body, '.').None?;
  }

  // ---- StrConvertor, SlugConvertor, PathConvertor -----------------------------

  const StrRegex: Pattern := Run(NotSlash, 1)
  const SlugRegex: Pattern := Run(WordOrDash, 1)
  const PathRegex: Pattern := LazyTail

  /** The three text convertors are the identity in both directions. */
  function TextToPython(value: string): string { value }

  function TextToUrl(value: string): string { value }

  /** What each text convertor's expression admits: a non-empty text
      without `/`; a non-empty run of letters, digits, `_` and `-`; and a
      text whose first character is not `/` (later ones may be). */
  lemma TextRegexes(t: string)
    ensures Accepts(StrRegex, t) <==> |t| >= 1 && forall i :: 0 <= i < |t| ==> t[i] != '/'
    ensures Accepts(SlugRegex, t) <==>
      |t| >= 1 && forall i :: 0 <= i < |t| ==> t[i] == '-' || t[i] == '_' || IsDigit(t[i]) || IsAsciiLetter(t[i])
    ensures Accepts(PathRegex, t) ==> |t| >= 1 && t[0] != '/'
    ensures TextToPython(TextToUrl(t)) == t && TextToUrl(TextToPython(t)) == t
  {
  }

  // ---- BoolConvertor --------------------------------------------------------

  const BoolRegex: Pattern := OneOf(["true", "false", "1", "0"])

  /** `'true'`/`'1'` and `'false'`/`'0'`, in any letter case. */
  function BoolToPython(value: string): Result<bool, ConvertError> {
    var v := Lower(value);
    if v == "true" || v == "1" then Ok(true)
    else if v == "false" || v == "0" then Ok(false)
    else Err(InvalidValue)
  }

  function BoolToUrl(b: bool): string {
    if b then "true" else "false"
  }

  /** Booleans round-trip, the URL text matches the expression, and every
      matched text converts. */
  lemma BoolRoundTrip(b: bool)
    ensures Accepts(BoolRegex, BoolToUrl(b))
    ensures BoolToPython(BoolToUrl(b)) == Ok(b)
  {
    LowerOfLower(BoolToUrl(b));
  }

  lemma BoolAcceptedConverts(t: string)
    requires Accepts(BoolRegex, t)
    ensures BoolToPython(t).Ok?
    ensures BoolToPython(t) == Ok(t == "true" || t == "1")
  {
    LowerOfLower(t);
  }

  /** Letter case does not matter to the conversion. */
  lemma BoolIgnoresCase(t: string)
    ensures BoolToPython(t) == BoolToPython(Lower(t)) == BoolToPython(Upper(t))
  {
    LowerIdempotent(t);
    LowerOfUpper(t);
  }

  /** A text without capital letters is its own lower case. */
  lemma LowerOfLower(t: string)
    requires forall i :: 0 <= i < |t| ==> !('A' <= t[i] <= 'Z')
    ensures Lower(t) == t
  {
  }

  lemma LowerIdempotent(t: string)
    ensures Lower(Lower(t)) == Lower(t)
  {
  }

  lemma LowerOfUpper(t: string)
    ensures Lower(Upper(t)) == Lower(t)
  {
  }

  // ---- UUIDConvertor --------------------------------------------------------

  const UuidRegex: Pattern := Uuid

  /** A UUID as its 32 lowercase hexadecimal digits. */
  datatype UUID = UUID(hex: string)

  predicate IsHexDigit(c: char) { IsDigit(c) || 'a' <= c <= 'f' || 'A' <= c <= 'F' }

  function WithoutHyphens(s: string): (r: string)
    ensures forall i :: 0 <= i < |r| ==> r[i] != '-'
  {
    if s == [] then [] else (if s[0] == '-' then [] else [s[0]]) + WithoutHyphens(s[1..])
  }

  /** `uuid.UUID(value)`: the hyphens are dropped, and what is left must be
      32 hexadecimal digits. */
  function UuidToPython(value: string): (r: Result<UUID, ConvertError>)
    ensures r.Ok? ==> |r.value.hex| == 32 && forall i :: 0 <= i < 32 ==> IsLowerHex(r.value.hex[i])
  {
    var h := WithoutHyphens(value);
    LowerChars(h);
    if |h| == 32 && forall i :: 0 <= i < 32 ==> IsHexDigit(h[i]) then Ok(UUID(Lower(h))) else Err(InvalidValue)
  }

  /** `str(uuid)`: the 8-4-4-4-12 form. */
  function UuidToUrl(u: UUID): string
    requires |u.hex| == 32
  {
    u.hex[..8] + "-" + u.hex[8..12] + "-" + u.hex[12..16] + "-" + u.hex[16..20] + "-" + u.hex[20..]
  }

  /** Every text the expression matches converts, and prints back as
      itself; every UUID's text matches and reads back as the same UUID. */
  lemma UuidRoundTrip(t: string)
    requires Accepts(UuidRegex, t)
    ensures UuidToPython(t).Ok? && UuidToUrl(UuidToPython(t).value) == t
  {
    var groups := [t[..8], t[9..13], t[14..18], t[19..23], t[24..]];
    assert t == groups[0] + "-" + groups[1] + "-" + groups[2] + "-" + groups[3] + "-" + groups[4];
    var h := groups[0] + (groups[1] + (groups[2] + (groups[3] + groups[4])));
    HyphensOfUuid(t, h);
    assert forall i :: 0 <= i < 32 ==> IsLowerHex(h[i]) by {
      forall i | 0 <= i < 32 ensures IsLowerHex(h[i]) {
        UuidHexAt(t, h, i);
      }
    }
    LowerOfLower(h);
    assert h[..8] == t[..8] && h[8..12] == t[9..13] && h[12..16] == t[14..18] && h[16..20] == t[19..23] && h[20..] == t[24..];
  }

  lemma UuidUrlRoundTrip(u: UUID)
    requires |u.hex| == 32 && forall i :: 0 <= i < 32 ==> IsLowerHex(u.hex[i])
    ensures Accepts(UuidRegex, UuidToUrl(u))
    ensures UuidToPython(UuidToUrl(u)) == Ok(u)
  {
    var t := UuidToUrl(u);
    assert UuidText(t) by {
      forall i | 0 <= i < 36
        ensures if i == 8 || i == 13 || i == 18 || i == 23 then t[i] == '-' else IsLowerHex(t[i])
      {
        if i < 8 { assert t[i] == u.hex[i]; }
        else if 8 < i < 13 { assert t[i] == u.hex[i - 1]; }
        else if 13 < i < 18 { assert t[i] == u.hex[i - 2]; }
        else if 18 < i < 23 { assert t[i] == u.hex[i - 3]; }
        else if 23 < i { assert t[i] == u.hex[i - 4]; }
      }
    }
    UuidRoundTrip(t);
    var h := u.hex[..8] + (u.hex[8..12] + (u.hex[12..16] + (u.hex[16..20] + u.hex[20..])));
    assert h == u.hex;
    assert t[..8] == u.hex[..8] && t[9..13] == u.hex[8..12] && t[14..18] == u.hex[12..16] &&
           t[19..23] == u.hex[16..20] && t[24..] == u.hex[20..];
    HyphensOfUuid(t, h);
    LowerOfLower(u.hex);
  }

  /** Removing the hyphens of an 8-4-4-4-12 text leaves its five groups. */
  lemma HyphensOfUuid(t: string, h: string)
    requires |t| == 36 && t[8] == '-' && t[13] == '-' && t[18] == '-' && t[23] == '-'
    requires forall i :: 0 <= i < 36 && i != 8 && i != 13 && i != 18 && i != 23 ==> t[i] != '-'
    requires h == t[..8] + (t[9..13] + (t[14..18] + (t[19..23] + t[24..])))
    ensures WithoutHyphens(t) == h
  {
    assert t == t[..8] + "-" + t[9..];
    assert t[9..] == t[9..13] + "-" + t[14..];
    assert t[14..] == t[14..18] + "-" + t[19..];
    assert t[19..] == t[19..23] + "-" + t[24..];
    NoHyphens(t[24..]);
    GroupThenHyphen(t[19..23], t[24..]);
    GroupThenHyphen(t[14..18], t[19..]);
    GroupThenHyphen(t[9..13], t[14..]);
    GroupThenHyphen(t[..8], t[9..]);
  }

  lemma GroupThenHyphen(g: string, rest: string)
    requires forall i :: 0 <= i < |g| ==> g[i] != '-'
    ensures WithoutHyphens(g + "-" + rest) == g + WithoutHyphens(rest)
  {
    assert g + "-" + rest == g + ("-" + rest);
    WithoutHyphensAppend(g, "-" + rest);
    NoHyphens(g);
    assert ("-" + rest)[1..] == rest;
  }

  lemma UuidHexAt(t: string, h: string, i: nat)
    requires UuidText(t) && i < 32
    requires h == t[..8] + (t[9..13] + (t[14..18] + (t[19..23] + t[24..])))
    ensures IsLowerHex(h[i])
  {
    if i < 8 { assert h[i] == t[i]; }
    else if i < 12 { assert h[i] == t[i + 1]; }
    else if i < 16 { assert h[i] == t[i + 2]; }
    else if i < 20 { assert h[i] == t[i + 3]; }
    else { assert h[i] == t[i + 4]; }
  }

  lemma {:induction false} WithoutHyphensAppend(a: string, b: string)
    ensures WithoutHyphens(a + b) == WithoutHyphens(a) + WithoutHyphens(b)
    decreases |a|
  {
    if a == [] {
      assert a + b == b;
    } else {
      assert (a + b)[1..] == a[1..] + b;
      WithoutHyphensAppend(a[1..], b);
    }
  }

  lemma NoHyphens(s: string)
    requires forall i :: 0 <= i < |s| ==> s[i] != '-'
    ensures WithoutHyphens(s) == s
  {
  }
}
