/** The part of Python's `re` that compiled route patterns use.

    A compiled route is a sequence of pieces: a literal (escaped, so it
    matches only itself), a raw literal (unescaped, where `.` matches any
    character but a newline), or a named group holding a converter's
    pattern. Each converter pattern is described by the ordered list of
    prefix lengths the backtracking engine tries for it (`Candidates`), and,
    independently, by the set of texts it accepts (`Accepts`). `MatchFrom`
    then reproduces the engine's first-match search over the pieces. */
module Patterns {
  import opened Wrappers
  import opened Text

  /** The character classes of the converters' expressions (ASCII `\w`). */
  datatype CharClass = Digit | NotSlash | NotNewline | WordOrDash

  predicate InClass(k: CharClass, c: char) {
    match k
    case Digit => IsDigit(c)
    case NotSlash => c != '/'
    case NotNewline => c != '\n'
    case WordOrDash => c == '-' || c == '_' || IsDigit(c) || IsAsciiLetter(c)
  }

  /** The converter expressions that occur in the framework. */
  datatype Pattern =
    | Run(cls: CharClass, min: nat) // `[cls]{min,}`, greedy: `\d+`, `[^/]+`, `.*`, `[-\w]+`
    | SignedDigits                  // `-?\d+`
    | Decimal                       // `-?(?:\d+(?:\.\d*)?|\.\d+)`
    | LazyTail                      // `[^/].*?`
    | Uuid                          // `[0-9a-f]{8}-[0-9a-f]{4}-[0-9a-f]{4}-[0-9a-f]{4}-[0-9a-f]{12}`
    | OneOf(words: seq<string>)     // `w1|w2|...`

  /** Length of the longest prefix of `s` made of characters of class `k`. */
  function RunLength(k: CharClass, s: string): (n: nat)
    ensures n <= |s|
    ensures forall i :: 0 <= i < n ==> InClass(k, s[i])
    ensures n < |s| ==> !InClass(k, s[n])
    decreases |s|
  {
    if s == [] || !InClass(k, s[0]) then 0 else 1 + RunLength(k, s[1..])
  }

  lemma {:induction false} RunLengthOf(k: CharClass, v: string, rest: string)
    requires forall i :: 0 <= i < |v| ==> InClass(k, v[i])
    requires rest == [] || !InClass(k, rest[0])
    ensures RunLength(k, v + rest) == |v|
    decreases |v|
  {
    if v == [] {
      assert v + rest == rest;
    } else {
      assert (v + rest)[1..] == v[1..] + rest;
      RunLengthOf(k, v[1..], rest);
    }
  }

  /** `[hi, hi-1, ..., lo]`: a greedy quantifier gives back one at a time. */
  function Down(hi: int, lo: nat): (r: seq<nat>)
    ensures forall i :: 0 <= i < |r| ==> lo <= r[i] <= hi
    ensures forall k: nat :: lo <= k <= hi ==> k in r
    ensures lo <= hi ==> |r| > 0 && r[0] == hi
    decreases hi - lo
  {
    if hi < lo then [] else [hi as nat] + Down(hi - 1, lo)
  }

  /** `[lo, lo+1, ..., hi]`: a lazy quantifier takes one more at a time. */
  function Up(lo: nat, hi: int): (r: seq<nat>)
    ensures forall i :: 0 <= i < |r| ==> lo <= r[i] <= hi
    ensures forall k: nat :: lo <= k <= hi ==> k in r
    ensures lo <= hi ==> |r| > 0 && r[0] == lo
    decreases hi - lo
  {
    if hi < lo then [] else [lo] + Up(lo + 1, hi)
  }

  function AddOne(ks: seq<nat>): (r: seq<nat>)
    ensures |r| == |ks|
    ensures forall i :: 0 <= i < |ks| ==> r[i] == ks[i] + 1
  {
    seq(|ks|, i requires 0 <= i < |ks| => ks[i] + 1)
  }

  predicate IsLowerHex(c: char) { IsDigit(c) || 'a' <= c <= 'f' }

  /** The 8-4-4-4-12 lowercase hexadecimal shape. */
  predicate UuidText(t: string) {
    |t| == 36 &&
    forall i :: 0 <= i < 36 ==>
      if i == 8 || i == 13 || i == 18 || i == 23 then t[i] == '-' else IsLowerHex(t[i])
  }

  /** Engine order for `\d+(?:\.\d*)?|\.\d+` without the sign. */
  function DecimalBody(s: string): (r: seq<nat>)
    ensures forall i :: 0 <= i < |r| ==> r[i] <= |s|
  {
    WithDot(s) + DigitsOnly(s) + DotFirst(s)
  }

  /** Digits, a `.`, then as many digits as possible and fewer. */
  function WithDot(s: string): seq<nat> {
    var n := RunLength(Digit, s);
    if 1 <= n < |s| && s[n] == '.' then Down(n + 1 + RunLength(Digit, s[n + 1..]), n + 1) else []
  }

  /** Digits alone, longest first. */
  function DigitsOnly(s: string): seq<nat> {
    var n := RunLength(Digit, s);
    if n >= 1 then Down(n, 1) else []
  }

  /** A `.` first, then digits, longest first. */
  function DotFirst(s: string): seq<nat> {
    if |s| > 0 && s[0] == '.' then Down(1 + RunLength(Digit, s[1..]), 2) else []
  }

  function WordCandidates(words: seq<string>, s: string): (r: seq<nat>)
    ensures forall i :: 0 <= i < |r| ==> r[i] <= |s|
  {
    if words == [] then []
    else (if words[0] <= s then [|words[0]|] else []) + WordCandidates(words[1..], s)
  }

  /** The prefix lengths of `s` that pattern `p` can match, in the order the
      backtracking engine tries them. */
  function Candidates(p: Pattern, s: string): (r: seq<nat>)
    ensures forall i :: 0 <= i < |r| ==> r[i] <= |s|
  {
    match p
    case Run(k, m) => Down(RunLength(k, s), m)
    case SignedDigits =>
      if |s| > 0 && s[0] == '-' then Down(1 + RunLength(Digit, s[1..]), 2)
      else Down(RunLength(Digit, s), 1)
    case Decimal =>
      if |s| > 0 && s[0] == '-' then AddOne(DecimalBody(s[1..])) else DecimalBody(s)
    case LazyTail =>
      if |s| > 0 && s[0] != '/' then Up(1, 1 + RunLength(NotNewline, s[1..])) else []
    case Uuid => if |s| >= 36 && UuidText(s[..36]) then [36] else []
    case OneOf(ws) => WordCandidates(ws, s)
  }

  predicate AllIn(k: CharClass, t: string) {
    forall i :: 0 <= i < |t| ==> InClass(k, t[i])
  }

  predicate UnsignedDecimal(t: string) {
    (|t| >= 1 && AllDigits(t))
    || (exists i :: 1 <= i < |t| && t[i] == '.' && AllDigits(t[..i]) && AllDigits(t[i + 1..]))
    || (|t| >= 2 && t[0] == '.' && AllDigits(t[1..]))
  }

  /** The texts pattern `p` matches in full: the reference the candidate
      lists are proved against. */
  predicate Accepts(p: Pattern, t: string) {
    match p
    case Run(k, m) => |t| >= m && AllIn(k, t)
    case SignedDigits => (|t| >= 1 && AllDigits(t)) || (|t| >= 2 && t[0] == '-' && AllDigits(t[1..]))
    case Decimal => UnsignedDecimal(t) || (|t| >= 1 && t[0] == '-' && UnsignedDecimal(t[1..]))
    case LazyTail => |t| >= 1 && t[0] != '/' && AllIn(NotNewline, t[1..])
    case Uuid => UuidText(t)
    case OneOf(ws) => t in ws
  }

  lemma AllDigitsPrefix(s: string, n: nat)
    requires n <= |s| && forall i :: 0 <= i < n ==> IsDigit(s[i])
    ensures AllDigits(s[..n])
  {
  }

  lemma WordCandidatesSound(ws: seq<string>, s: string, k: nat)
    requires k in WordCandidates(ws, s)
    ensures s[..k] in ws
  {
    if ws[0] <= s && k == |ws[0]| {
      assert s[..k] == ws[0];
    } else {
      WordCandidatesSound(ws[1..], s, k);
    }
  }

  lemma DecimalBodySound(s: string, k: nat)
    requires k in DecimalBody(s)
    ensures UnsignedDecimal(s[..k])
  {
    if k in WithDot(s) {
      var n := RunLength(Digit, s);
      InDown(n + 1 + RunLength(Digit, s[n + 1..]), n + 1, k);
      DecimalWithDot(s, n, RunLength(Digit, s[n + 1..]), k);
    } else if k in DigitsOnly(s) {
      InDown(RunLength(Digit, s), 1, k);
      AllDigitsPrefix(s, k);
    } else {
      assert |s| > 0 && s[0] == '.';
      InDown(1 + RunLength(Digit, s[1..]), 2, k);
      DecimalDotFirst(s, RunLength(Digit, s[1..]), k);
    }
  }

  lemma InDown(hi: int, lo: nat, k: nat)
    requires k in Down(hi, lo)
    ensures lo <= k <= hi
  {
    var i :| 0 <= i < |Down(hi, lo)| && Down(hi, lo)[i] == k;
  }

  /** Digits, the `.`, then at least zero more digits. */
  lemma DecimalWithDot(s: string, n: nat, m: nat, k: nat)
    requires n == RunLength(Digit, s) && 1 <= n < |s| && s[n] == '.'
    requires m == RunLength(Digit, s[n + 1..]) && n + 1 <= k <= n + 1 + m
    ensures UnsignedDecimal(s[..k])
  {
    var t := s[..k];
    assert t[n] == '.';
    assert t[..n] == s[..n];
    AllDigitsPrefix(s, n);
    assert t[n + 1..] == s[n + 1..][..k - n - 1];
    AllDigitsPrefix(s[n + 1..], k - n - 1);
    assert 1 <= n < |t| && t[n] == '.' && AllDigits(t[..n]) && AllDigits(t[n + 1..]);
  }

  /** The `.` first, then at least one digit. */
  lemma DecimalDotFirst(s: string, m: nat, k: nat)
    requires |s| > 0 && s[0] == '.'
    requires m == RunLength(Digit, s[1..]) && 2 <= k <= 1 + m
    ensures UnsignedDecimal(s[..k])
  {
    var t := s[..k];
    assert t[1..] == s[1..][..k - 1];
    AllDigitsPrefix(s[1..], k - 1);
  }

  /** Every length the engine tries is a prefix the pattern accepts. */
  lemma CandidatesSound(p: Pattern, s: string, k: nat)
    requires k in Candidates(p, s)
    ensures k <= |s| && Accepts(p, s[..k])
  {
    match p
    case Run(c, m) =>
    case SignedDigits => SignedDigitsSound(s, k);
    case Decimal => DecimalSound(s, k);
    case LazyTail => LazyTailSound(s, k);
    case Uuid =>
    case OneOf(ws) => WordCandidatesSound(ws, s, k);
  }

  lemma SignedDigitsSound(s: string, k: nat)
    requires k in Candidates(SignedDigits, s)
    ensures k <= |s| && Accepts(SignedDigits, s[..k])
  {
    if |s| > 0 && s[0] == '-' {
      assert s[..k][1..] == s[1..][..k - 1];
      AllDigitsPrefix(s[1..], k - 1);
    } else {
      AllDigitsPrefix(s, k);
    }
  }

  lemma DecimalSound(s: string, k: nat)
    requires k in Candidates(Decimal, s)
    ensures k <= |s| && Accepts(Decimal, s[..k])
  {
    if |s| > 0 && s[0] == '-' {
      SignedCandidate(s, k);
      SignedDecimal(s, k);
    } else {
      assert Candidates(Decimal, s) == DecimalBody(s);
      DecimalBodySound(s, k);
    }
  }

  /** A candidate after a `-` is one past a candidate of the body. */
  lemma SignedCandidate(s: string, k: nat)
    requires |s| > 0 && s[0] == '-' && k in Candidates(Decimal, s)
    ensures 1 <= k <= |s| && k - 1 in DecimalBody(s[1..])
  {
    var b := DecimalBody(s[1..]);
    assert Candidates(Decimal, s) == AddOne(b);
    var i :| 0 <= i < |b| && AddOne(b)[i] == k;
    assert b[i] == k - 1;
  }

  /** A `-` before an unsigned decimal. */
  lemma SignedDecimal(s: string, k: nat)
    requires 1 <= k <= |s| && s[0] == '-' && k - 1 in DecimalBody(s[1..])
    ensures Accepts(Decimal, s[..k])
  {
    var t := s[..k];
    assert |t| == k && t[0] == '-';
    assert forall i :: 0 <= i < k - 1 ==> t[1..][i] == s[1..][..k - 1][i];
    assert t[1..] == s[1..][..k - 1];
    SignedDecimalOf(t, s[1..], k - 1);
  }

  lemma SignedDecimalOf(t: string, body: string, j: nat)
    requires j in DecimalBody(body) && |t| >= 1 && t[0] == '-' && t[1..] == body[..j]
    ensures Accepts(Decimal, t)
  {
    DecimalBodySound(body, j);
  }

  lemma LazyTailSound(s: string, k: nat)
    requires k in Candidates(LazyTail, s)
    ensures k <= |s| && Accepts(LazyTail, s[..k])
  {
    assert s[..k][1..] == s[1..][..k - 1];
  }

  // ---- pieces -----------------------------------------------------------

  /** One element of a compiled route pattern. */
  datatype Piece =
    | Lit(text: string)               // escaped literal: matches itself
    | RawLit(text: string)            // unescaped literal: `.` matches any character but newline
    | Group(name: string, pat: Pattern)

  predicate RawLitMatches(x: string, t: string) {
    |t| == |x| &&
    forall i :: 0 <= i < |x| ==> if x[i] == '.' then t[i] != '\n' else t[i] == x[i]
  }

  /** A successful match: the named captures and the length matched. */
  datatype Hit = Hit(groups: map<string, string>, end: nat)

  function Shift(h: Option<Hit>, offset: nat): Option<Hit> {
    match h
    case None => None
    case Some(x) => Some(Hit(x.groups, x.end + offset))
  }

  /** What is left when the pieces are used up: anything for a prefix
      match; for a pattern ending in `$`, the end of the text or a single
      final newline (Python's `$`). */
  predicate EndOk(s: string, anchored: bool) {
    !anchored || s == [] || s == "\n"
  }

  /** The engine's first match of the pieces against a prefix of `s`. */
  function MatchFrom(ps: seq<Piece>, s: string, anchored: bool): (r: Option<Hit>)
    ensures r.Some? ==> r.value.end <= |s|
    decreases |ps|, 1, 0
  {
    if ps == [] then
      if EndOk(s, anchored) then Some(Hit(map[], 0)) else None
    else
      match ps[0]
      case Lit(x) =>
        if x <= s then Shift(MatchFrom(ps[1..], s[|x|..], anchored), |x|) else None
      case RawLit(x) =>
        if |x| <= |s| && RawLitMatches(x, s[..|x|]) then Shift(MatchFrom(ps[1..], s[|x|..], anchored), |x|)
        else None
      case Group(n, p) => TryEach(ps, Candidates(p, s), s, anchored)
  }

  /** Tries the candidate lengths of the leading group in order; the first
      one after which the remaining pieces match wins. */
  function TryEach(ps: seq<Piece>, ks: seq<nat>, s: string, anchored: bool): (r: Option<Hit>)
    requires ps != [] && ps[0].Group?
    requires forall i :: 0 <= i < |ks| ==> ks[i] <= |s|
    ensures r.Some? ==> r.value.end <= |s|
    decreases |ps|, 0, |ks|
  {
    if ks == [] then None
    else
      match MatchFrom(ps[1..], s[ks[0]..], anchored)
      case Some(h) => Some(Hit(h.groups[ps[0].name := s[..ks[0]]], ks[0] + h.end))
      case None => TryEach(ps, ks[1..], s, anchored)
  }

  /** `pattern.match(s)` succeeds. */
  predicate Matches(ps: seq<Piece>, s: string, anchored: bool) {
    MatchFrom(ps, s, anchored).Some?
  }

  function GroupNames(ps: seq<Piece>): (r: set<string>)
    ensures forall i :: 0 <= i < |ps| && ps[i].Group? ==> ps[i].name in r
  {
    if ps == [] then {} else (if ps[0].Group? then {ps[0].name} else {}) + GroupNames(ps[1..])
  }

  predicate DistinctNames(ps: seq<Piece>) {
    forall i, j :: 0 <= i < j < |ps| && ps[i].Group? && ps[j].Group? ==> ps[i].name != ps[j].name
  }

  predicate NoRawLit(ps: seq<Piece>) {
    forall i :: 0 <= i < |ps| ==> !ps[i].RawLit?
  }

  lemma DistinctNamesCons(p: Piece, rest: seq<Piece>)
    requires DistinctNames(rest) && (p.Group? ==> p.name !in GroupNames(rest))
    ensures DistinctNames([p] + rest)
  {
    var ps := [p] + rest;
    forall i, j | 0 <= i < j < |ps| && ps[i].Group? && ps[j].Group? ensures ps[i].name != ps[j].name {
      assert ps[j] == rest[j - 1];
      if i > 0 {
        assert ps[i] == rest[i - 1];
      }
    }
  }

  /** The declarative reading of a match: `t` is the concatenation of what
      each piece matched, each group capturing a text its pattern accepts. */
  predicate Conforms(ps: seq<Piece>, groups: map<string, string>, t: string)
    decreases |ps|
  {
    if ps == [] then t == []
    else
      match ps[0]
      case Lit(x) => x <= t && Conforms(ps[1..], groups, t[|x|..])
      case RawLit(x) =>
        |x| <= |t| && RawLitMatches(x, t[..|x|]) && Conforms(ps[1..], groups, t[|x|..])
      case Group(n, p) =>
        n in groups && groups[n] <= t && Accepts(p, groups[n])
        && Conforms(ps[1..], groups, t[|groups[n]|..])
  }

  lemma ConformsExtra(ps: seq<Piece>, groups: map<string, string>, t: string, n: string, v: string)
    requires n !in GroupNames(ps)
    requires Conforms(ps, groups, t)
    ensures Conforms(ps, groups[n := v], t)
    decreases |ps|
  {
    if ps != [] {
      ConformsExtra(ps[1..], groups, t[if ps[0].Group? then |groups[ps[0].name]| else |ps[0].text|..], n, v);
    }
  }

  /** Every group of a conforming match captured a text its pattern accepts. */
  lemma {:induction false} ConformsGroups(ps: seq<Piece>, groups: map<string, string>, t: string)
    requires Conforms(ps, groups, t)
    ensures forall i :: 0 <= i < |ps| && ps[i].Group? ==> ps[i].name in groups && Accepts(ps[i].pat, groups[ps[i].name])
    decreases |ps|
  {
    if ps != [] {
      var k := if ps[0].Group? then |groups[ps[0].name]| else |ps[0].text|;
      ConformsGroups(ps[1..], groups, t[k..]);
      forall i | 1 <= i < |ps| ensures ps[i] == ps[1..][i - 1] {
      }
    }
  }

  lemma {:induction false} GroupNamesAppend(ps: seq<Piece>, qs: seq<Piece>)
    ensures GroupNames(ps + qs) == GroupNames(ps) + GroupNames(qs)
    decreases |ps|
  {
    if ps == [] {
      assert ps + qs == qs;
    } else {
      assert (ps + qs)[1..] == ps[1..] + qs;
      GroupNamesAppend(ps[1..], qs);
    }
  }

  lemma DistinctTail(ps: seq<Piece>)
    requires ps != [] && DistinctNames(ps) && ps[0].Group?
    ensures DistinctNames(ps[1..]) && ps[0].name !in GroupNames(ps[1..])
  {
    NamesAt(ps[1..]);
  }

  lemma NamesAt(ps: seq<Piece>)
    ensures forall n :: n in GroupNames(ps) <==> exists i :: 0 <= i < |ps| && ps[i].Group? && ps[i].name == n
    decreases |ps|
  {
    if ps != [] {
      NamesAt(ps[1..]);
      forall n | n in GroupNames(ps) ensures exists i :: 0 <= i < |ps| && ps[i].Group? && ps[i].name == n {
        if !(ps[0].Group? && ps[0].name == n) {
          assert n in GroupNames(ps[1..]);
          var i :| 0 <= i < |ps[1..]| && ps[1..][i].Group? && ps[1..][i].name == n;
          assert ps[i + 1] == ps[1..][i];
        }
      }
      forall n, i | 0 <= i < |ps| && ps[i].Group? && ps[i].name == n ensures n in GroupNames(ps) {
        if i > 0 {
          assert ps[1..][i - 1] == ps[i];
        }
      }
    }
  }

  /** Splitting a text at `x` and then at `x + e`. */
  lemma SliceSteps(s: string, x: nat, e: nat)
    requires x + e <= |s|
    ensures s[..x + e][x..] == s[x..][..e]
    ensures s[..x + e][..x] == s[..x]
    ensures s[x + e..] == s[x..][e..]
  {
  }

  /** Soundness of the engine: a match captures exactly the groups of the
      pattern, and the matched text is the pieces' concatenation. */
  lemma {:induction false} MatchSound(ps: seq<Piece>, s: string, anchored: bool)
    requires DistinctNames(ps)
    requires Matches(ps, s, anchored)
    ensures HitConforms(ps, MatchFrom(ps, s, anchored).value, s, anchored)
    decreases |ps|, 1, 0
  {
    if ps != [] {
      if ps[0].Group? {
        var ks := Candidates(ps[0].pat, s);
        forall i | 0 <= i < |ks| ensures Accepts(ps[0].pat, s[..ks[i]]) {
          CandidatesSound(ps[0].pat, s, ks[i]);
        }
        TryEachSound(ps, ks, s, anchored);
      } else {
        LiteralSound(ps, s, anchored);
      }
    }
  }

  lemma {:induction false} LiteralSound(ps: seq<Piece>, s: string, anchored: bool)
    requires ps != [] && !ps[0].Group? && DistinctNames(ps)
    requires Matches(ps, s, anchored)
    ensures HitConforms(ps, MatchFrom(ps, s, anchored).value, s, anchored)
    decreases |ps|, 0, 0
  {
    var x := |ps[0].text|;
    assert x <= |s|;
    var rest := MatchFrom(ps[1..], s[x..], anchored);
    assert MatchFrom(ps, s, anchored) == Shift(rest, x);
    assert DistinctNames(ps[1..]);
    MatchSound(ps[1..], s[x..], anchored);
    LitHitSound(ps, s, anchored, rest.value);
  }

  /** The leading literal matched the first characters and the remaining
      pieces matched what follows: the shifted hit conforms to the whole
      pattern. */
  lemma LitHitSound(ps: seq<Piece>, s: string, anchored: bool, h: Hit)
    requires ps != [] && !ps[0].Group? && |ps[0].text| <= |s|
    requires if ps[0].Lit? then ps[0].text <= s else RawLitMatches(ps[0].text, s[..|ps[0].text|])
    requires HitConforms(ps[1..], h, s[|ps[0].text|..], anchored)
    ensures HitConforms(ps, Hit(h.groups, h.end + |ps[0].text|), s, anchored)
  {
    var x := |ps[0].text|;
    SliceSteps(s, x, h.end);
    assert GroupNames(ps) == GroupNames(ps[1..]);
    var t := s[..x + h.end];
    assert t[x..] == s[x..][..h.end];
    assert t[..x] == s[..x];
  }

  /** A hit of pattern `ps` on `s`: it captured exactly the pattern's
      groups, the matched text conforms to the pieces and what follows
      satisfies `$`. */
  predicate HitConforms(ps: seq<Piece>, h: Hit, s: string, anchored: bool) {
    h.end <= |s| && h.groups.Keys == GroupNames(ps) && Conforms(ps, h.groups, s[..h.end])
    && EndOk(s[h.end..], anchored)
  }

  lemma {:induction false} TryEachSound(ps: seq<Piece>, ks: seq<nat>, s: string, anchored: bool)
    requires ps != [] && ps[0].Group? && DistinctNames(ps)
    requires forall i :: 0 <= i < |ks| ==> ks[i] <= |s|
    requires forall i :: 0 <= i < |ks| ==> Accepts(ps[0].pat, s[..ks[i]])
    requires TryEach(ps, ks, s, anchored).Some?
    ensures HitConforms(ps, TryEach(ps, ks, s, anchored).value, s, anchored)
    decreases |ps|, 0, |ks|
  {
    var k := ks[0];
    match MatchFrom(ps[1..], s[k..], anchored)
    case None =>
      assert TryEach(ps, ks, s, anchored) == TryEach(ps, ks[1..], s, anchored);
      TryEachSound(ps, ks[1..], s, anchored);
    case Some(h) =>
      assert TryEach(ps, ks, s, anchored) == Some(Hit(h.groups[ps[0].name := s[..k]], k + h.end));
      DistinctTail(ps);
      MatchSound(ps[1..], s[k..], anchored);
      GroupHitSound(ps, k, s, anchored, h);
  }

  /** The leading group takes the first `k` characters and the remaining
      pieces matched what follows: the hit conforms to the whole pattern. */
  lemma GroupHitSound(ps: seq<Piece>, k: nat, s: string, anchored: bool, h: Hit)
    requires ps != [] && ps[0].Group? && k <= |s| && h.end <= |s| - k
    requires ps[0].name !in GroupNames(ps[1..]) && Accepts(ps[0].pat, s[..k])
    requires h.groups.Keys == GroupNames(ps[1..]) && Conforms(ps[1..], h.groups, s[k..][..h.end])
    requires EndOk(s[k..][h.end..], anchored)
    ensures HitConforms(ps, Hit(h.groups[ps[0].name := s[..k]], k + h.end), s, anchored)
  {
    var n := ps[0].name;
    var g := h.groups[n := s[..k]];
    ConformsExtra(ps[1..], h.groups, s[k..][..h.end], n, s[..k]);
    SliceSteps(s, k, h.end);
    var t := s[..k + h.end];
    assert g[n] == s[..k] && g[n] <= t;
    assert t[|g[n]|..] == s[k..][..h.end];
  }

  // ---- rendering and the round trip ---------------------------------------

  /** The text a pattern would match when each group takes its value from
      `vals`: the literal pieces verbatim, each group its value. */
  function Render(ps: seq<Piece>, vals: map<string, string>): string
    decreases |ps|
  {
    if ps == [] then []
    else
      (match ps[0]
       case Lit(x) => x
       case RawLit(x) => x
       case Group(n, _) => if n in vals then vals[n] else [])
      + Render(ps[1..], vals)
  }

  /** The engine's first choice for pattern `p` at the front of `v + rest`
      is exactly `v`. */
  predicate Leads(p: Pattern, v: string, rest: string) {
    var ks := Candidates(p, v + rest);
    |ks| > 0 && ks[0] == |v|
  }

  /** Every group's value is accepted by its pattern and is where the engine
      stops: either the pattern's first choice, or a `[^/].*?` tail that ends
      an anchored pattern. What follows the last piece satisfies `$`. */
  predicate Delimited(ps: seq<Piece>, vals: map<string, string>, tail: string, anchored: bool)
    decreases |ps|
  {
    if ps == [] then EndOk(tail, anchored)
    else
      Delimited(ps[1..], vals, tail, anchored) &&
      match ps[0]
      case Lit(_) => true
      case RawLit(_) => true
      case Group(n, p) =>
        n in vals && Accepts(p, vals[n]) &&
        (Leads(p, vals[n], Render(ps[1..], vals) + tail)
         || (p.LazyTail? && |ps| == 1 && anchored && tail == []))
  }

  /** The values of `vals` for the group names of `ps`. */
  function Restrict(vals: map<string, string>, names: set<string>): (r: map<string, string>)
    ensures r.Keys == names * vals.Keys
    ensures forall n :: n in r ==> r[n] == vals[n]
  {
    map n | n in names && n in vals :: vals[n]
  }

  lemma RawLitSelf(x: string)
    ensures RawLitMatches(x, x)
  {
  }

  /** Matching a rendered URL gives back the values it was rendered from
      (for templates whose captures are delimited), and the match covers
      exactly the rendered text. */
  lemma RoundTrip(ps: seq<Piece>, vals: map<string, string>, tail: string, anchored: bool)
    requires Delimited(ps, vals, tail, anchored)
    ensures MatchFrom(ps, Render(ps, vals) + tail, anchored)
         == Some(Hit(Restrict(vals, GroupNames(ps)), |Render(ps, vals)|))
  {
    RoundTripAt(ps, vals, tail, anchored, Render(ps, vals) + tail);
  }

  lemma {:induction false} RoundTripAt(ps: seq<Piece>, vals: map<string, string>, tail: string, anchored: bool, s: string)
    requires Delimited(ps, vals, tail, anchored) && s == Render(ps, vals) + tail
    ensures MatchFrom(ps, s, anchored) == Some(Hit(Restrict(vals, GroupNames(ps)), |Render(ps, vals)|))
    decreases |ps|
  {
    if ps == [] {
      assert s == tail;
      assert Restrict(vals, {}) == map[];
    } else {
      var r := Render(ps[1..], vals);
      var h := Hit(Restrict(vals, GroupNames(ps[1..])), |r|);
      RoundTripAt(ps[1..], vals, tail, anchored, r + tail);
      if ps[0].Group? {
        RoundTripGroup(ps, vals, tail, anchored, s, h);
      } else {
        RoundTripLiteral(ps, vals, tail, anchored, s, h);
      }
    }
  }

  /** A literal renders as itself and matches itself. */
  lemma RoundTripLiteral(ps: seq<Piece>, vals: map<string, string>, tail: string, anchored: bool, s: string, h: Hit)
    requires ps != [] && !ps[0].Group? && s == Render(ps, vals) + tail
    requires h == Hit(Restrict(vals, GroupNames(ps[1..])), |Render(ps[1..], vals)|)
    requires MatchFrom(ps[1..], Render(ps[1..], vals) + tail, anchored) == Some(h)
    ensures MatchFrom(ps, s, anchored) == Some(Hit(Restrict(vals, GroupNames(ps)), |Render(ps, vals)|))
  {
    var x := ps[0].text;
    var r := Render(ps[1..], vals);
    assert Render(ps, vals) == x + r;
    Regroup(s, Render(ps, vals), tail, x, r);
    assert GroupNames(ps) == GroupNames(ps[1..]);
    LiteralHit(ps, s, r + tail, anchored, h);
  }

  lemma RoundTripGroup(ps: seq<Piece>, vals: map<string, string>, tail: string, anchored: bool, s: string, h: Hit)
    requires ps != [] && ps[0].Group? && Delimited(ps, vals, tail, anchored) && s == Render(ps, vals) + tail
    requires h == Hit(Restrict(vals, GroupNames(ps[1..])), |Render(ps[1..], vals)|)
    requires MatchFrom(ps[1..], Render(ps[1..], vals) + tail, anchored) == Some(h)
    ensures MatchFrom(ps, s, anchored) == Some(Hit(Restrict(vals, GroupNames(ps)), |Render(ps, vals)|))
  {
    if Leads(ps[0].pat, vals[ps[0].name], Render(ps[1..], vals) + tail) {
      RoundTripLeads(ps, vals, tail, anchored, s, h);
    } else {
      RoundTripLazy(ps, vals, tail, anchored, s);
    }
  }

  /** The group's value is the pattern's first choice. */
  lemma RoundTripLeads(ps: seq<Piece>, vals: map<string, string>, tail: string, anchored: bool, s: string, h: Hit)
    requires ps != [] && ps[0].Group? && ps[0].name in vals && s == Render(ps, vals) + tail
    requires Leads(ps[0].pat, vals[ps[0].name], Render(ps[1..], vals) + tail)
    requires h == Hit(Restrict(vals, GroupNames(ps[1..])), |Render(ps[1..], vals)|)
    requires MatchFrom(ps[1..], Render(ps[1..], vals) + tail, anchored) == Some(h)
    ensures MatchFrom(ps, s, anchored) == Some(Hit(Restrict(vals, GroupNames(ps)), |Render(ps, vals)|))
  {
    var r := Render(ps[1..], vals);
    var v := vals[ps[0].name];
    assert Render(ps, vals) == v + r;
    RestrictGroup(ps, vals);
    Regroup(s, Render(ps, vals), tail, v, r);
    GroupHit(ps, s, v, r + tail, anchored, h);
    assert Hit(h.groups[ps[0].name := v], |v| + h.end) == Hit(Restrict(vals, GroupNames(ps)), |Render(ps, vals)|);
  }

  /** The group is a `[^/].*?` tail that ends an anchored pattern. */
  lemma RoundTripLazy(ps: seq<Piece>, vals: map<string, string>, tail: string, anchored: bool, s: string)
    requires ps != [] && ps[0].Group? && Delimited(ps, vals, tail, anchored) && s == Render(ps, vals) + tail
    requires !Leads(ps[0].pat, vals[ps[0].name], Render(ps[1..], vals) + tail)
    ensures MatchFrom(ps, s, anchored) == Some(Hit(Restrict(vals, GroupNames(ps)), |Render(ps, vals)|))
  {
    LazyCase(ps, vals, tail, anchored, s);
    RestrictGroup(ps, vals);
    assert GroupNames(ps[1..]) == {};
    assert Restrict(vals, GroupNames(ps[1..])) == map[];
  }

  lemma Regroup(s: string, x: string, tail: string, v: string, r: string)
    requires s == x + tail && x == v + r
    ensures s == v + (r + tail)
  {
  }

  lemma RestrictGroup(ps: seq<Piece>, vals: map<string, string>)
    requires ps != [] && ps[0].Group? && ps[0].name in vals
    ensures Restrict(vals, GroupNames(ps))
         == Restrict(vals, GroupNames(ps[1..]))[ps[0].name := vals[ps[0].name]]
  {
    assert GroupNames(ps) == {ps[0].name} + GroupNames(ps[1..]);
  }

  lemma LazyCase(ps: seq<Piece>, vals: map<string, string>, tail: string, anchored: bool, s: string)
    requires ps != [] && ps[0].Group? && Delimited(ps, vals, tail, anchored) && s == Render(ps, vals) + tail
    requires !Leads(ps[0].pat, vals[ps[0].name], Render(ps[1..], vals) + tail)
    ensures MatchFrom(ps, s, anchored) == Some(Hit(map[ps[0].name := vals[ps[0].name]], |vals[ps[0].name]|))
    ensures ps[1..] == [] && Render(ps, vals) == vals[ps[0].name]
  {
    var v := vals[ps[0].name];
    assert |ps| == 1 && anchored && tail == [] && ps[0].pat.LazyTail?;
    assert Render(ps, vals) == v;
    assert s == v;
    RunLengthOf(NotNewline, v[1..], []);
    assert v[1..] + [] == v[1..];
    assert Candidates(LazyTail, v) == Up(1, |v|);
    LazyLast(ps, v, 1);
    GroupUnfold(ps, s, anchored);
  }

  lemma LiteralHit(ps: seq<Piece>, s: string, t: string, anchored: bool, h: Hit)
    requires ps != [] && !ps[0].Group? && s == ps[0].text + t
    requires MatchFrom(ps[1..], t, anchored) == Some(h)
    ensures MatchFrom(ps, s, anchored) == Some(Hit(h.groups, |ps[0].text| + h.end))
  {
    var x := ps[0].text;
    assert s[..|x|] == x && s[|x|..] == t;
    if ps[0].RawLit? {
      RawLitSelf(x);
    }
    LitUnfold(ps, s, anchored);
  }

  /** A leading literal that the text starts with is consumed and the rest
      of the pattern matched after it. */
  lemma LitUnfold(ps: seq<Piece>, s: string, anchored: bool)
    requires ps != [] && !ps[0].Group? && |ps[0].text| <= |s|
    requires if ps[0].Lit? then ps[0].text <= s else RawLitMatches(ps[0].text, s[..|ps[0].text|])
    ensures MatchFrom(ps, s, anchored) == Shift(MatchFrom(ps[1..], s[|ps[0].text|..], anchored), |ps[0].text|)
  {
  }

  lemma GroupHit(ps: seq<Piece>, s: string, v: string, t: string, anchored: bool, h: Hit)
    requires ps != [] && ps[0].Group? && s == v + t
    requires Leads(ps[0].pat, v, t)
    requires MatchFrom(ps[1..], t, anchored) == Some(h)
    ensures MatchFrom(ps, s, anchored) == Some(Hit(h.groups[ps[0].name := v], |v| + h.end))
  {
    var ks := Candidates(ps[0].pat, v + t);
    assert ks != [] && ks[0] == |v|;
    SplitHalves(v, t);
    TryFirstHit(ps, ks, s, anchored, h);
    GroupUnfold(ps, s, anchored);
  }

  lemma SplitHalves(v: string, t: string)
    ensures (v + t)[..|v|] == v && (v + t)[|v|..] == t
  {
  }

  lemma GroupUnfold(ps: seq<Piece>, s: string, anchored: bool)
    requires ps != [] && ps[0].Group?
    ensures MatchFrom(ps, s, anchored) == TryEach(ps, Candidates(ps[0].pat, s), s, anchored)
  {
  }

  lemma TryFirstHit(ps: seq<Piece>, ks: seq<nat>, s: string, anchored: bool, h: Hit)
    requires ps != [] && ps[0].Group?
    requires forall i :: 0 <= i < |ks| ==> ks[i] <= |s|
    requires ks != [] && MatchFrom(ps[1..], s[ks[0]..], anchored) == Some(h)
    ensures TryEach(ps, ks, s, anchored) == Some(Hit(h.groups[ps[0].name := s[..ks[0]]], ks[0] + h.end))
  {
  }

  /** A `[^/].*?` group ending an anchored pattern takes the whole rest. */
  lemma {:induction false} LazyLast(ps: seq<Piece>, v: string, j: nat)
    requires |ps| == 1 && ps[0].Group? && ps[0].pat.LazyTail?
    requires Accepts(LazyTail, v) && 1 <= j <= |v|
    ensures TryEach(ps, Up(j, |v|), v, true) == Some(Hit(map[ps[0].name := v], |v|))
    decreases |v| - j
  {
    assert Up(j, |v|) == [j] + Up(j + 1, |v|);
    if j < |v| {
      assert v[j..] != [] && v[j] != '\n';
      assert !EndOk(v[j..], true);
      LazyLast(ps, v, j + 1);
    } else {
      assert v[j..] == [] && v[..j] == v;
    }
  }

  // ---- when the engine's first choice is the value -----------------------

  lemma LeadsRun(k: CharClass, m: nat, v: string, rest: string)
    requires |v| >= m && AllIn(k, v)
    requires rest == [] || !InClass(k, rest[0])
    ensures Leads(Run(k, m), v, rest)
  {
    RunLengthOf(k, v, rest);
  }

  lemma LeadsSignedDigits(v: string, rest: string)
    requires Accepts(SignedDigits, v)
    requires rest == [] || !IsDigit(rest[0])
    ensures Leads(SignedDigits, v, rest)
  {
    var s := v + rest;
    if |v| >= 2 && v[0] == '-' && AllDigits(v[1..]) {
      assert s[0] == '-' && s[1..] == v[1..] + rest;
      RunLengthOf(Digit, v[1..], rest);
    } else {
      assert s[0] == v[0];
      RunLengthOf(Digit, v, rest);
    }
  }

  lemma LeadsUuid(v: string, rest: string)
    requires UuidText(v)
    ensures Leads(Uuid, v, rest)
  {
    assert (v + rest)[..36] == v;
  }

  lemma PrefixesComparable(a: string, b: string, s: string)
    requires a <= s && b <= s
    ensures a <= b || b <= a
  {
    if |a| <= |b| {
      assert a == b[..|a|];
    } else {
      assert b == a[..|b|];
    }
  }

  /** No alternative is a prefix of another. */
  predicate PrefixFree(ws: seq<string>) {
    forall i, j :: 0 <= i < |ws| && 0 <= j < |ws| && i != j ==> !(ws[i] <= ws[j])
  }

  lemma {:induction false} LeadsOneOf(ws: seq<string>, v: string, rest: string)
    requires PrefixFree(ws) && v in ws
    ensures Leads(OneOf(ws), v, rest)
    decreases |ws|
  {
    var s := v + rest;
    assert v <= s;
    if ws[0] <= s {
      var j :| 0 <= j < |ws| && ws[j] == v;
      PrefixesComparable(ws[0], v, s);
    } else {
      assert ws[0] != v;
      assert v in ws[1..];
      LeadsOneOf(ws[1..], v, rest);
    }
  }
}
