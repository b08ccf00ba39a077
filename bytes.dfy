/** Python `bytes` as a sequence of octets, with the few byte-string
    operations the framework uses: ASCII lower-casing, conversion from a
    Latin-1 literal, splitting once and stripping. */
module Bytes {
  import opened Wrappers
  import opened Text

  type byte = x: int | 0 <= x < 256

  type Bytes = seq<byte>

  /** A text whose characters are all Latin-1. */
  predicate IsLatin1(s: string) {
    forall i :: 0 <= i < |s| ==> s[i] as int < 256
  }

  /** `s.encode('latin-1')`, and the spelling of a `b"…"` literal. */
  function Latin1(s: string): (b: Bytes)
    requires IsLatin1(s)
    ensures |b| == |s|
    ensures forall i :: 0 <= i < |s| ==> b[i] == s[i] as int
  {
    seq(|s|, i requires 0 <= i < |s| => s[i] as int as byte)
  }

  /** `b.decode('latin-1')`: every octet is one character. */
  function Latin1Decode(b: Bytes): (s: string)
    ensures IsLatin1(s) && |s| == |b|
    ensures forall i :: 0 <= i < |b| ==> s[i] as int == b[i]
  {
    seq(|b|, i requires 0 <= i < |b| => b[i] as char)
  }

  /** Decoding and encoding Latin-1 are inverse. */
  lemma Latin1RoundTrip(b: Bytes)
    ensures Latin1(Latin1Decode(b)) == b
  {
  }

  function LowerByte(c: byte): byte {
    if 65 <= c <= 90 then c + 32 else c
  }

  /** `b.lower()`: ASCII upper-case letters only. */
  function LowerBytes(b: Bytes): (r: Bytes)
    ensures |r| == |b|
    ensures forall i :: 0 <= i < |b| ==> r[i] == LowerByte(b[i])
  {
    seq(|b|, i requires 0 <= i < |b| => LowerByte(b[i]))
  }

  /** The chunks joined in order, `b"".join(chunks)`. */
  function Concat(chunks: seq<Bytes>): Bytes
    decreases |chunks|
  {
    if chunks == [] then [] else chunks[0] + Concat(chunks[1..])
  }

  /** Joining one more chunk at the end extends the joined bytes by it. */
  lemma {:induction false} ConcatSnoc(chunks: seq<Bytes>, c: Bytes)
    ensures Concat(chunks + [c]) == Concat(chunks) + c
    decreases |chunks|
  {
    if chunks != [] {
      assert (chunks + [c])[1..] == chunks[1..] + [c];
      ConcatSnoc(chunks[1..], c);
    }
  }

  /** `b.split(sep, 1)` unpacked into two names: the bytes before the first
      `sep` and those after it, or None when there is no `sep` (the
      unpacking raises). */
  function SplitOnce(s: Bytes, sep: Bytes): (r: Option<(Bytes, Bytes)>)
    requires |sep| > 0
    ensures r.None? <==> !Contains(s, sep)
    ensures r.Some? ==> s == r.value.0 + sep + r.value.1 && !Contains(r.value.0, sep)
  {
    IndexOfContains(s, sep);
    match IndexOf(s, sep)
    case None => None
    case Some(i) =>
      assert OccursAt(s, sep, i);
      assert s == s[..i] + sep + s[i + |sep|..];
      assert !Contains(s[..i], sep) by {
        forall j: nat | OccursAt(s[..i], sep, j) ensures false {
          assert s[..i][j..j + |sep|] == s[j..j + |sep|];
          assert OccursAt(s, sep, j);
        }
      }
      Some((s[..i], s[i + |sep|..]))
  }

  /** `b.lstrip(chars)`. */
  function TrimLeft(b: Bytes, chars: set<byte>): (r: Bytes)
    ensures |r| <= |b| && r == b[|b| - |r|..]
    ensures r == [] || r[0] !in chars
    ensures forall i :: 0 <= i < |b| - |r| ==> b[i] in chars
    decreases |b|
  {
    if b != [] && b[0] in chars then TrimLeft(b[1..], chars) else b
  }

  /** `b.rstrip(chars)`. */
  function TrimRight(b: Bytes, chars: set<byte>): (r: Bytes)
    ensures |r| <= |b| && r == b[..|r|]
    ensures r == [] || r[|r| - 1] !in chars
    ensures forall i :: |r| <= i < |b| ==> b[i] in chars
    decreases |b|
  {
    if b != [] && b[|b| - 1] in chars then TrimRight(b[..|b| - 1], chars) else b
  }

  /** `b.strip(chars)`: the longest run in the middle that neither starts
      nor ends with one of `chars`. */
  function Trim(b: Bytes, chars: set<byte>): (r: Bytes)
    ensures r == [] || (r[0] !in chars && r[|r| - 1] !in chars)
    ensures b == [] || (b[0] !in chars && b[|b| - 1] !in chars) ==> r == b
  {
    TrimRight(TrimLeft(b, chars), chars)
  }

}
