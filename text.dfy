/** Sequence and string helpers with the meaning of the Python built-ins the
    framework calls: `str.find`, `str.split`, `str.join`, `str.replace`,
    `str.strip`, `str.upper`, `str.lower`, `int()` and `str()` of an integer.
    Letters are ASCII only; Unicode case mapping is outside the model. */
module Text {
  import opened Wrappers

  /** `sub` occurs in `s` at index `i`. */
  predicate OccursAt<T(==)>(s: seq<T>, sub: seq<T>, i: nat) {
    i + |sub| <= |s| && s[i..i + |sub|] == sub
  }

  /** Python `s.startswith(prefix)`. */
  predicate StartsWith<T(==)>(s: seq<T>, prefix: seq<T>) {
    |prefix| <= |s| && s[..|prefix|] == prefix
  }

  /** Python `s.endswith(suffix)`. */
  predicate EndsWith<T(==)>(s: seq<T>, suffix: seq<T>) {
    |suffix| <= |s| && s[|s| - |suffix|..] == suffix
  }

  /** Python `sub in s` for sequences. */
  predicate Contains<T(==)>(s: seq<T>, sub: seq<T>) {
    exists i: nat | i <= |s| :: OccursAt(s, sub, i)
  }

  /** Python `s.find(sub)`: the first index where `sub` occurs. */
  function IndexOf<T(==)>(s: seq<T>, sub: seq<T>): (r: Option<nat>)
    ensures r.Some? ==> OccursAt(s, sub, r.value)
    ensures r.Some? ==> forall j: nat :: j < r.value ==> !OccursAt(s, sub, j)
    ensures r.None? ==> forall j: nat :: !OccursAt(s, sub, j)
    decreases |s|
  {
    if |s| < |sub| then
      assert forall j: nat :: !OccursAt(s, sub, j);
      None
    else if s[..|sub|] == sub then
      Some(0)
    else
      match IndexOf(s[1..], sub)
      case None =>
        OccursShift(s, sub);
        None
      case Some(k) =>
        OccursShift(s, sub);
        Some(k + 1)
  }

  lemma OccursShift<T>(s: seq<T>, sub: seq<T>)
    requires |s| > 0
    ensures forall j: nat {:trigger OccursAt(s, sub, j)} :: 0 < j ==> (OccursAt(s, sub, j) <==> OccursAt(s[1..], sub, j - 1))
  {
    forall j: nat | 0 < j ensures OccursAt(s, sub, j) <==> OccursAt(s[1..], sub, j - 1) {
      if j + |sub| <= |s| {
        assert s[1..][j - 1..j - 1 + |sub|] == s[j..j + |sub|];
      }
    }
  }

  lemma IndexOfContains<T>(s: seq<T>, sub: seq<T>)
    ensures IndexOf(s, sub).Some? <==> Contains(s, sub)
  {
    if IndexOf(s, sub).Some? {
      assert OccursAt(s, sub, IndexOf(s, sub).value);
    }
  }

  /** A suffix cut at two points is its three pieces in order. */
  lemma SliceThirds<T>(s: seq<T>, i: nat, j: nat, k: nat)
    requires i <= j <= k <= |s|
    ensures s[i..] == s[i..j] + s[j..k] + s[k..]
  {
    assert s[i..] == s[i..j] + s[j..];
    assert s[j..] == s[j..k] + s[k..];
  }

  /** Concatenation regroups freely. */
  lemma AppendAssoc<T>(a: seq<T>, b: seq<T>, c: seq<T>)
    ensures a + (b + c) == (a + b) + c
  {
  }

  /** The empty sequence is neutral. */
  lemma AppendNil<T>(a: seq<T>)
    ensures a + [] == a && [] + a == a
  {
  }

  /** Python `s.split(sep)` with no limit: the pieces between the
      non-overlapping occurrences of `sep`, found left to right. */
  function Split<T(==)>(s: seq<T>, sep: seq<T>): (r: seq<seq<T>>)
    requires |sep| > 0
    ensures |r| >= 1
    decreases |s|
  {
    match IndexOf(s, sep)
    case None => [s]
    case Some(i) => [s[..i]] + Split(s[i + |sep|..], sep)
  }

  /** Python `sep.join(parts)`. */
  function Join<T>(parts: seq<seq<T>>, sep: seq<T>): seq<T> {
    if |parts| == 0 then []
    else if |parts| == 1 then parts[0]
    else parts[0] + sep + Join(parts[1..], sep)
  }

  lemma JoinCons<T>(head: seq<T>, tail: seq<seq<T>>, sep: seq<T>)
    requires |tail| >= 1
    ensures Join([head] + tail, sep) == head + sep + Join(tail, sep)
  {
    var parts := [head] + tail;
    assert parts[0] == head && parts[1..] == tail;
  }

  /** Splitting and joining with the same separator gives the text back. */
  lemma {:induction false} JoinSplit<T>(s: seq<T>, sep: seq<T>)
    requires |sep| > 0
    ensures Join(Split(s, sep), sep) == s
    decreases |s|
  {
    match IndexOf(s, sep)
    case None =>
    case Some(i) =>
      var rest := s[i + |sep|..];
      var tail := Split(rest, sep);
      assert Split(s, sep) == [s[..i]] + tail;
      JoinSplit(rest, sep);
      JoinCons(s[..i], tail, sep);
      Reassemble(s, sep, i);
  }

  /** The text around an occurrence, with the occurrence, is the text. */
  lemma Reassemble<T>(s: seq<T>, sep: seq<T>, i: nat)
    requires OccursAt(s, sep, i)
    ensures s[..i] + sep + s[i + |sep|..] == s
  {
    assert s == s[..i] + s[i..i + |sep|] + s[i + |sep|..];
  }

  /** No piece of a split contains the separator. */
  lemma {:induction false} SplitPiecesFree<T>(s: seq<T>, sep: seq<T>)
    requires |sep| > 0
    ensures forall k :: 0 <= k < |Split(s, sep)| ==> !Contains(Split(s, sep)[k], sep)
    decreases |s|
  {
    match IndexOf(s, sep)
    case None =>
      IndexOfContains(s, sep);
    case Some(i) =>
      var rest := s[i + |sep|..];
      SplitPiecesFree(rest, sep);
      var head := s[..i];
      assert !Contains(head, sep) by {
        forall j: nat | OccursAt(head, sep, j) ensures false {
          assert head[j..j + |sep|] == s[j..j + |sep|];
          assert OccursAt(s, sep, j);
        }
      }
      assert Split(s, sep) == [head] + Split(rest, sep);
  }

  /** Joining pieces that do not contain a one-element separator, then
      splitting on it, gives the pieces back. */
  lemma {:induction false} SplitJoin<T>(parts: seq<seq<T>>, c: T)
    requires |parts| >= 1
    requires forall k :: 0 <= k < |parts| ==> c !in parts[k]
    ensures Split(Join(parts, [c]), [c]) == parts
    decreases |parts|
  {
    var s := Join(parts, [c]);
    if |parts| == 1 {
      SepAbsent(parts[0], c);
    } else {
      var rest := Join(parts[1..], [c]);
      assert s == parts[0] + [c] + rest;
      SepFirst(parts[0], c, rest);
      SplitJoin(parts[1..], c);
      assert parts == [parts[0]] + parts[1..];
    }
  }

  /** A text without the separator is not split. */
  lemma SepAbsent<T>(s: seq<T>, c: T)
    requires c !in s
    ensures Split(s, [c]) == [s]
  {
    forall i: nat | i <= |s| ensures !OccursAt(s, [c], i) {
      if i + 1 <= |s| {
        assert s[i..i + 1][0] == s[i];
      }
    }
    IndexOfContains(s, [c]);
  }

  /** The first separator after a piece without one ends that piece. */
  lemma SepFirst<T>(a: seq<T>, c: T, rest: seq<T>)
    requires c !in a
    ensures Split(a + [c] + rest, [c]) == [a] + Split(rest, [c])
  {
    var s := a + [c] + rest;
    assert OccursAt(s, [c], |a|) by { assert s[|a|..|a| + 1] == [c]; }
    forall j: nat | j < |a| ensures !OccursAt(s, [c], j) {
      assert s[j] == a[j];
      assert s[j..j + 1][0] == s[j];
    }
    var i := IndexOf(s, [c]).value;
    assert i == |a|;
    assert s[..i] == a && s[i + 1..] == rest;
  }

  /** Python `s.replace(pat, rep)`: every non-overlapping occurrence of `pat`,
      left to right, is replaced. */
  function Replace<T(==)>(s: seq<T>, pat: seq<T>, rep: seq<T>): seq<T>
    requires |pat| > 0
  {
    Join(Split(s, pat), rep)
  }

  lemma ReplaceAbsent<T>(s: seq<T>, pat: seq<T>, rep: seq<T>)
    requires |pat| > 0 && !Contains(s, pat)
    ensures Replace(s, pat, rep) == s
  {
    IndexOfContains(s, pat);
  }

  /** The elements of a sequence, as a set. */
  function Elems<T>(xs: seq<T>): set<T> {
    set x | x in xs
  }

  lemma ElemsAppend<T>(xs: seq<T>, v: T)
    ensures Elems(xs + [v]) == Elems(xs) + {v}
  {
    assert forall x :: x in xs + [v] <==> x in xs || x == v;
  }

  lemma ElemsCons<T>(xs: seq<T>, ys: seq<T>)
    ensures Elems(xs + ys) == Elems(xs) + Elems(ys)
  {
    assert forall x :: x in xs + ys <==> x in xs || x in ys;
  }

  /** No element occurs twice. */
  predicate Distinct<T(==)>(xs: seq<T>) {
    forall i, j :: 0 <= i < j < |xs| ==> xs[i] != xs[j]
  }

  lemma DistinctPrefix<T>(xs: seq<T>, ys: seq<T>)
    requires Distinct(xs + ys)
    ensures Distinct(xs)
  {
    forall i, j | 0 <= i < j < |xs| ensures xs[i] != xs[j] {
      assert (xs + ys)[i] == xs[i] && (xs + ys)[j] == xs[j];
    }
  }

  lemma DistinctAppendIn<T>(xs: seq<T>, v: T, ys: seq<T>)
    requires v in Elems(xs)
    ensures !Distinct(xs + [v] + ys)
  {
    var k :| 0 <= k < |xs| && xs[k] == v;
    assert (xs + [v] + ys)[k] == (xs + [v] + ys)[|xs|];
  }

  /** In a sequence without repeats, the parts before and after an element
      hold neither it nor each other's elements. */
  lemma DistinctSplit<T>(xs: seq<T>, ys: seq<T>)
    requires Distinct(xs + ys)
    ensures Elems(xs) !! Elems(ys)
  {
    forall x | x in Elems(xs) ensures x !in Elems(ys) {
      var i :| 0 <= i < |xs| && xs[i] == x;
      forall j | 0 <= j < |ys| ensures ys[j] != x {
        assert (xs + ys)[i] == xs[i] && (xs + ys)[|xs| + j] == ys[j];
      }
    }
  }

  lemma DistinctAppend<T>(xs: seq<T>, v: T)
    requires Distinct(xs) && v !in Elems(xs)
    ensures Distinct(xs + [v]) && Elems(xs + [v]) == Elems(xs) + {v}
  {
    ElemsAppend(xs, v);
  }

  lemma DistinctHead<T>(v: T, ys: seq<T>)
    requires Distinct([v] + ys)
    ensures v !in Elems(ys)
  {
    forall k | 0 <= k < |ys| ensures ys[k] != v {
      assert ([v] + ys)[k + 1] == ys[k] && ([v] + ys)[0] == v;
    }
  }

  /** An element of a sequence without repeats is not among those before it. */
  lemma DistinctAt<T>(xs: seq<T>, i: nat)
    requires Distinct(xs) && i < |xs|
    ensures xs[i] !in Elems(xs[..i])
  {
    assert forall k :: 0 <= k < i ==> xs[..i][k] == xs[k];
  }

  lemma DistinctSuffix<T>(xs: seq<T>, ys: seq<T>)
    requires Distinct(xs + ys)
    ensures Distinct(ys)
  {
    forall i, j | 0 <= i < j < |ys| ensures ys[i] != ys[j] {
      assert (xs + ys)[|xs| + i] == ys[i] && (xs + ys)[|xs| + j] == ys[j];
    }
  }

  // ---- characters -------------------------------------------------------

  function UpperChar(c: char): char {
    if 'a' <= c <= 'z' then (c as int - 32) as char else c
  }

  function LowerChar(c: char): char {
    if 'A' <= c <= 'Z' then (c as int + 32) as char else c
  }

  /** Python `s.upper()` on ASCII letters. */
  function Upper(s: string): (r: string)
    ensures |r| == |s|
    ensures forall i :: 0 <= i < |s| ==> r[i] == UpperChar(s[i])
  {
    if s == [] then [] else [UpperChar(s[0])] + Upper(s[1..])
  }

  /** Python `s.lower()` on ASCII letters. */
  function Lower(s: string): (r: string)
    ensures |r| == |s|
  {
    if s == [] then [] else [LowerChar(s[0])] + Lower(s[1..])
  }

  /** `s.lower()` lower-cases each character on its own. */
  lemma LowerChars(s: string)
    ensures forall i :: 0 <= i < |s| ==> Lower(s)[i] == LowerChar(s[i])
  {
    if s != [] {
      LowerChars(s[1..]);
    }
  }

  predicate IsUpper(s: string) {
    forall i :: 0 <= i < |s| ==> !('a' <= s[i] <= 'z')
  }

  lemma UpperIsUpper(s: string)
    ensures IsUpper(Upper(s))
  {
  }

  lemma UpperOfUpper(s: string)
    requires IsUpper(s)
    ensures Upper(s) == s
  {
  }

  predicate IsDigit(c: char) { '0' <= c <= '9' }

  predicate IsAsciiLetter(c: char) { 'a' <= c <= 'z' || 'A' <= c <= 'Z' }

  /** Python's `str.isspace`: the characters of Unicode category Zs or
      bidirectional class WS, B or S, namely U+0009 to U+000D, U+001C to
      U+001F, the space, U+0085, U+00A0, U+1680, U+2000 to U+200A, U+2028,
      U+2029, U+202F, U+205F and U+3000. */
  predicate IsSpace(c: char) {
    ('\t' <= c <= '\r') || ('\U{001c}' <= c <= ' ') || c == '\U{0085}' || c == '\U{00a0}' ||
    c == '\U{1680}' || ('\U{2000}' <= c <= '\U{200a}') || c == '\U{2028}' || c == '\U{2029}' ||
    c == '\U{202f}' || c == '\U{205f}' || c == '\U{3000}'
  }

  /** Python `s.strip()` without arguments. */
  function Strip(s: string): (r: string)
    ensures r == [] || (!IsSpace(r[0]) && !IsSpace(r[|r| - 1]))
    ensures s == [] || (!IsSpace(s[0]) && !IsSpace(s[|s| - 1])) ==> r == s
  {
    StripRight(StripLeft(s))
  }

  function StripLeft(s: string): (r: string)
    ensures r == [] || !IsSpace(r[0])
    ensures s == [] || !IsSpace(s[0]) ==> r == s
    decreases |s|
  {
    if s != [] && IsSpace(s[0]) then StripLeft(s[1..]) else s
  }

  function StripRight(s: string): (r: string)
    ensures r == [] || !IsSpace(r[|r| - 1])
    ensures s == [] || !IsSpace(s[|s| - 1]) ==> r == s
    ensures |r| <= |s| && r == s[..|r|]
    decreases |s|
  {
    if s != [] && IsSpace(s[|s| - 1]) then StripRight(s[..|s| - 1]) else s
  }

  /** `s.strip()` is empty exactly when every character of `s` is
      whitespace. */
  lemma StripEmpty(s: string)
    ensures Strip(s) == [] <==> forall k :: 0 <= k < |s| ==> IsSpace(s[k])
  {
    var t := StripLeft(s);
    StripLeftDrops(s);
    if t != [] {
      StripRightKeepsHead(t);
    }
  }

  /** Stripping the start drops a run of whitespace and keeps the rest. */
  lemma {:induction false} StripLeftDrops(s: string)
    ensures var t := StripLeft(s);
      |t| <= |s| && t == s[|s| - |t|..] && forall k :: 0 <= k < |s| - |t| ==> IsSpace(s[k])
    decreases |s|
  {
    if s != [] && IsSpace(s[0]) {
      StripLeftDrops(s[1..]);
    }
  }

  /** Stripping the end keeps a text that starts with a non-space. */
  lemma {:induction false} StripRightKeepsHead(t: string)
    requires t != [] && !IsSpace(t[0])
    ensures StripRight(t) != []
    decreases |t|
  {
    if IsSpace(t[|t| - 1]) {
      StripRightKeepsHead(t[..|t| - 1]);
    }
  }

  // ---- integers ---------------------------------------------------------

  function DigitChar(d: nat): char
    requires d < 10
  {
    ('0' as int + d) as char
  }

  function DigitValue(c: char): nat
    requires IsDigit(c)
  {
    c as int - '0' as int
  }

  /** The decimal digits of `n`, without leading zeros. */
  function NatToString(n: nat): (r: string)
    ensures |r| >= 1
    ensures forall i :: 0 <= i < |r| ==> IsDigit(r[i])
    ensures |r| > 1 ==> r[0] != '0'
    decreases n
  {
    if n < 10 then [DigitChar(n)] else NatToString(n / 10) + [DigitChar(n % 10)]
  }

  /** Python `str(n)` for an integer. */
  function IntToString(n: int): string {
    if n < 0 then "-" + NatToString(-n) else NatToString(n)
  }

  predicate AllDigits(s: string) {
    forall i :: 0 <= i < |s| ==> IsDigit(s[i])
  }

  /** The value of a string of decimal digits. */
  function DigitsValue(s: string): nat
    requires AllDigits(s)
    decreases |s|
  {
    if s == [] then 0 else DigitsValue(s[..|s| - 1]) * 10 + DigitValue(s[|s| - 1])
  }

  lemma {:induction false} DigitsOfNat(n: nat)
    ensures DigitsValue(NatToString(n)) == n
    decreases n
  {
    if n >= 10 {
      DigitsOfNat(n / 10);
      var s := NatToString(n);
      assert s[..|s| - 1] == NatToString(n / 10);
    }
  }

  /** Python `int(s)` for a base-10 string: surrounding whitespace, an
      optional sign and at least one digit; anything else is a ValueError,
      modelled as None. Underscore digit separators are not modelled. */
  function ParseInt(s: string): (r: Option<int>)
  {
    var t := Strip(s);
    if |t| > 0 && (t[0] == '-' || t[0] == '+') then
      if |t| > 1 && AllDigits(t[1..]) then
        var d: int := DigitsValue(t[1..]);
        var v: int := if t[0] == '-' then 0 - d else d;
        Some(v)
      else None
    else if |t| > 0 && AllDigits(t) then Some(DigitsValue(t))
    else None
  }

  /** `int(str(n)) == n` for every integer. */
  lemma ParseIntToString(n: int)
    ensures ParseInt(IntToString(n)) == Some(n)
  {
    var m: nat := if n < 0 then -n else n;
    DigitsOfNat(m);
    if n < 0 {
      ParseIntNegative(NatToString(m));
    } else {
      ParseIntDigits(NatToString(m));
    }
  }

  /** An unsigned run of digits parses to the value it spells. */
  lemma ParseIntDigits(digits: string)
    requires |digits| >= 1 && AllDigits(digits)
    ensures ParseInt(digits) == Some(DigitsValue(digits))
  {
    DigitNotSpace(digits[0]);
    DigitNotSpace(digits[|digits| - 1]);
    StripKeeps(digits);
    assert digits[0] != '-' && digits[0] != '+';
  }

  /** A minus sign before a run of digits parses to its negation. */
  lemma ParseIntNegative(digits: string)
    requires |digits| >= 1 && AllDigits(digits)
    ensures ParseInt("-" + digits) == Some(0 - DigitsValue(digits) as int)
  {
    var s := "-" + digits;
    assert s[1..] == digits;
    DigitNotSpace(digits[|digits| - 1]);
    ParseIntSigned(s, digits);
  }

  /** A decimal digit is not whitespace. */
  lemma DigitNotSpace(c: char)
    requires IsDigit(c)
    ensures !IsSpace(c)
  {
  }

  lemma ParseIntSigned(t: string, digits: string)
    requires t == "-" + digits && |digits| >= 1 && AllDigits(digits) && t[1..] == digits
    requires !IsSpace(digits[|digits| - 1])
    ensures ParseInt(t) == Some(0 - DigitsValue(digits) as int)
  {
    assert t[0] == '-' && t[|t| - 1] == digits[|digits| - 1];
    StripKeeps(t);
  }

  /** A text that starts and ends with a non-space is its own strip. */
  lemma StripKeeps(t: string)
    requires t != [] && !IsSpace(t[0]) && !IsSpace(t[|t| - 1])
    ensures Strip(t) == t
  {
  }
}
