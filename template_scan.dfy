/** The `{variable:converter}` placeholder syntax shared by the two newer
    route compilers, and the way they look for it: Python's `re.search` with
    the pattern `(static)[^{]*` followed by `{ident:ident}`. The search tries
    every start position from left to right; at a given start the static run
    can only end at the first `{`, so a start succeeds exactly when the first
    `{` at or after it opens a well-formed placeholder. */
module TemplateScan {
  import opened Wrappers
  import opened Text

  predicate IsIdentStart(c: char) { IsAsciiLetter(c) || c == '_' }

  predicate IsIdentChar(c: char) { IsIdentStart(c) || IsDigit(c) }

  /** `[a-zA-Z_][a-zA-Z0-9_]*` in full. */
  predicate IsIdent(t: string) {
    |t| >= 1 && IsIdentStart(t[0]) && forall k :: 0 <= k < |t| ==> IsIdentChar(t[k])
  }

  /** The length of the run of identifier characters starting at `i`. */
  function IdentRun(s: string, i: nat): (n: nat)
    requires i <= |s|
    ensures i + n <= |s|
    ensures forall k :: i <= k < i + n ==> IsIdentChar(s[k])
    ensures i + n < |s| ==> !IsIdentChar(s[i + n])
    decreases |s| - i
  {
    if i < |s| && IsIdentChar(s[i]) then 1 + IdentRun(s, i + 1) else 0
  }

  /** The text of a placeholder. */
  function PlaceholderText(variable: string, converter: string): string {
    "{" + variable + ":" + converter + "}"
  }

  datatype Token = Token(variable: string, converter: string, end: nat)

  /** The placeholder opening at index `q`, if a well-formed one does. */
  function PlaceholderAt(s: string, q: nat): (r: Option<Token>)
    ensures r.Some? ==> q < r.value.end <= |s| && IsIdent(r.value.variable) && IsIdent(r.value.converter)
  {
    if q + 1 < |s| && s[q] == '{' && IsIdentStart(s[q + 1]) then
      var b := q + 1 + IdentRun(s, q + 1);
      if b + 1 < |s| && s[b] == ':' && IsIdentStart(s[b + 1]) then
        var e := b + 1 + IdentRun(s, b + 1);
        if e < |s| && s[e] == '}' then
          PlaceholderSlices(s, q, b, e);
          Some(Token(s[q + 1..b], s[b + 1..e], e + 1))
        else None
      else None
    else None
  }

  /** A placeholder read at `q` spans exactly its own text. */
  lemma PlaceholderAtSpan(s: string, q: nat)
    requires PlaceholderAt(s, q).Some?
    ensures var t := PlaceholderAt(s, q).value;
      s[q..t.end] == PlaceholderText(t.variable, t.converter)
  {
    var b := q + 1 + IdentRun(s, q + 1);
    var e := b + 1 + IdentRun(s, b + 1);
    PlaceholderSlices(s, q, b, e);
  }

  /** The placeholder `{` ident `:` ident `}` spanning `q` to `e`, with the
      `:` at `b`, read as its two names. */
  lemma PlaceholderSlices(s: string, q: nat, b: nat, e: nat)
    requires q + 1 < b && b + 1 < e < |s|
    requires s[q] == '{' && s[b] == ':' && s[e] == '}'
    requires IsIdentStart(s[q + 1]) && forall k :: q + 1 <= k < b ==> IsIdentChar(s[k])
    requires IsIdentStart(s[b + 1]) && forall k :: b + 1 <= k < e ==> IsIdentChar(s[k])
    ensures IsIdent(s[q + 1..b]) && IsIdent(s[b + 1..e])
    ensures s[q..e + 1] == PlaceholderText(s[q + 1..b], s[b + 1..e])
  {
    IdentSlice(s, q + 1, b);
    IdentSlice(s, b + 1, e);
    assert s[q..e + 1] == [s[q]] + s[q + 1..b] + [s[b]] + s[b + 1..e] + [s[e]];
  }

  lemma IdentSlice(s: string, i: nat, j: nat)
    requires i < j <= |s| && IsIdentStart(s[i]) && forall k :: i <= k < j ==> IsIdentChar(s[k])
    ensures IsIdent(s[i..j])
  {
    var t := s[i..j];
    assert forall k :: 0 <= k < |t| ==> t[k] == s[i + k];
  }

  /** Every well-formed placeholder is read back as itself. */
  lemma PlaceholderAtText(s: string, q: nat, variable: string, converter: string)
    requires IsIdent(variable) && IsIdent(converter)
    requires q + |PlaceholderText(variable, converter)| <= |s|
    requires s[q..q + |PlaceholderText(variable, converter)|] == PlaceholderText(variable, converter)
    ensures PlaceholderAt(s, q) == Some(Token(variable, converter, q + |PlaceholderText(variable, converter)|))
  {
    PlaceholderChars(s, q, variable, converter);
    PlaceholderFromChars(s, q, variable, converter);
  }

  /** The reading at `q`, from the placeholder's characters one by one. */
  lemma PlaceholderFromChars(s: string, q: nat, variable: string, converter: string)
    requires IsIdent(variable) && IsIdent(converter)
    requires q + |variable| + |converter| + 3 <= |s|
    requires s[q] == '{' && s[q + 1 + |variable|] == ':' && s[q + 2 + |variable| + |converter|] == '}'
    requires forall k :: 0 <= k < |variable| ==> s[q + 1 + k] == variable[k]
    requires forall k :: 0 <= k < |converter| ==> s[q + 2 + |variable| + k] == converter[k]
    ensures PlaceholderAt(s, q) == Some(Token(variable, converter, q + |variable| + |converter| + 3))
  {
    var b := q + 1 + |variable|;
    var e := b + 1 + |converter|;
    assert s[q + 1] == variable[0] && s[b + 1] == converter[0];
    IdentRunOver(s, q + 1, variable);
    IdentRunOver(s, b + 1, converter);
    SliceIs(s, q + 1, variable);
    SliceIs(s, b + 1, converter);
  }

  lemma SliceIs(s: string, i: nat, t: string)
    requires i + |t| <= |s| && forall k :: 0 <= k < |t| ==> s[i + k] == t[k]
    ensures s[i..i + |t|] == t
  {
  }

  /** The characters of a placeholder's text, one by one. */
  lemma PlaceholderChars(s: string, q: nat, variable: string, converter: string)
    requires q + |PlaceholderText(variable, converter)| <= |s|
    requires s[q..q + |PlaceholderText(variable, converter)|] == PlaceholderText(variable, converter)
    ensures |PlaceholderText(variable, converter)| == |variable| + |converter| + 3
    ensures s[q] == '{' && s[q + 1 + |variable|] == ':' && s[q + 2 + |variable| + |converter|] == '}'
    ensures forall k :: 0 <= k < |variable| ==> s[q + 1 + k] == variable[k]
    ensures forall k :: 0 <= k < |converter| ==> s[q + 2 + |variable| + k] == converter[k]
  {
    var p := PlaceholderText(variable, converter);
    assert p == ['{'] + variable + [':'] + converter + ['}'];
    assert forall k :: 0 <= k < |p| ==> s[q + k] == p[k] by {
      forall k | 0 <= k < |p| ensures s[q + k] == p[k] {
        assert s[q..q + |p|][k] == s[q + k];
      }
    }
    assert p[0] == '{';
    assert forall k :: 0 <= k < |variable| ==> p[1 + k] == variable[k];
    assert forall k :: 0 <= k < |converter| ==> p[2 + |variable| + k] == converter[k];
  }

  /** The identifier run over a known run of identifier characters. */
  lemma {:induction false} IdentRunOver(s: string, i: nat, t: string)
    requires i + |t| < |s| && !IsIdentChar(s[i + |t|])
    requires forall k :: 0 <= k < |t| ==> IsIdentChar(t[k]) && s[i + k] == t[k]
    ensures IdentRun(s, i) == |t|
    decreases |t|
  {
    if |t| > 0 {
      assert s[i] == t[0];
      var t' := t[1..];
      assert forall k :: 0 <= k < |t'| ==> t'[k] == t[k + 1] && s[i + 1 + k] == s[i + (k + 1)];
      IdentRunOver(s, i + 1, t');
    }
  }

  /** The first `{` at or after index `m`. */
  function FirstBrace(s: string, m: nat): (r: Option<nat>)
    requires m <= |s|
    ensures r.Some? ==> m <= r.value < |s| && s[r.value] == '{'
    ensures r.Some? ==> forall k :: m <= k < r.value ==> s[k] != '{'
    ensures r.None? ==> forall k :: m <= k < |s| ==> s[k] != '{'
    decreases |s| - m
  {
    if m == |s| then None else if s[m] == '{' then Some(m) else FirstBrace(s, m + 1)
  }

  /** One successful search: the match starts at `begin`, the static text
      runs to `brace`, the placeholder ends just before `end`. */
  datatype Found = Found(begin: nat, brace: nat, variable: string, converter: string, end: nat)

  /** Whether the pattern matches starting exactly at `m`. */
  function MatchAt(s: string, m: nat): (r: Option<Found>)
    requires m <= |s|
    ensures r.Some? ==> r.value.begin == m <= r.value.brace < r.value.end <= |s|
  {
    match FirstBrace(s, m)
    case None => None
    case Some(q) =>
      match PlaceholderAt(s, q)
      case None => None
      case Some(t) => Some(Found(m, q, t.variable, t.converter, t.end))
  }

  /** `pattern.search(s, start)`: the leftmost start at or after `start`
      where the pattern matches. */
  function Search(s: string, start: nat): (r: Option<Found>)
    requires start <= |s|
    ensures r.Some? ==> start <= r.value.begin <= r.value.brace < r.value.end <= |s|
    decreases |s| - start
  {
    if MatchAt(s, start).Some? then MatchAt(s, start)
    else if start == |s| then None
    else Search(s, start + 1)
  }

  /** What a successful search finds, stated without the search: the
      placeholder is the first well-formed one at or after `start`; the static
      text before it holds no `{`; and the text skipped between `start` and the
      match is either empty or ends with a `{` (the search drops it). */
  lemma {:induction false} SearchFound(s: string, start: nat)
    requires start <= |s| && Search(s, start).Some?
    ensures FoundFirst(s, start, Search(s, start).value)
    decreases |s| - start
  {
    var f := Search(s, start).value;
    if MatchAt(s, start).Some? {
      assert f == MatchAt(s, start).value;
      MatchAtFound(s, start);
    } else {
      assert f == Search(s, start + 1).value;
      SearchFound(s, start + 1);
      SearchStep(s, start);
      if f.begin == start + 1 {
        SearchBegins(s, start + 1);
      }
      SkipFound(s, start, f);
    }
  }

  /** A start that opens no placeholder keeps what the search from the next
      start found. */
  lemma SkipFound(s: string, start: nat, f: Found)
    requires start < |s| && PlaceholderAt(s, start).None?
    requires start + 1 <= f.begin <= f.brace < |s| && (f.begin == start + 1 ==> s[start] == '{')
    requires FoundFirst(s, start + 1, f)
    ensures FoundFirst(s, start, f)
  {
    SkipStart(s, start, f);
  }

  /** The match `f` of a search from `start`, stated without the search. */
  predicate FoundFirst(s: string, start: nat, f: Found)
    requires start <= f.begin <= f.brace < |s|
  {
    PlaceholderAt(s, f.brace) == Some(Token(f.variable, f.converter, f.end)) &&
    (forall q :: start <= q < f.brace ==> PlaceholderAt(s, q).None?) &&
    (forall k :: f.begin <= k < f.brace ==> s[k] != '{') &&
    (f.begin == start || s[f.begin - 1] == '{')
  }

  /** A start that opens no placeholder adds nothing to what the search
      from the next start found. */
  lemma SkipStart(s: string, start: nat, f: Found)
    requires start < |s| && PlaceholderAt(s, start).None?
    requires start + 1 <= f.begin <= f.brace < |s| && (f.begin == start + 1 ==> s[start] == '{')
    requires forall q :: start + 1 <= q < f.brace ==> PlaceholderAt(s, q).None?
    requires f.begin == start + 1 || s[f.begin - 1] == '{'
    ensures forall q :: start <= q < f.brace ==> PlaceholderAt(s, q).None?
    ensures s[f.begin - 1] == '{'
  {
  }

  /** A search that finds its match right at `start` matched there. */
  lemma SearchBegins(s: string, start: nat)
    requires start <= |s| && Search(s, start).Some? && Search(s, start).value.begin == start
    ensures MatchAt(s, start).Some?
  {
  }

  lemma MatchAtFound(s: string, m: nat)
    requires m <= |s| && MatchAt(s, m).Some?
    ensures var f := MatchAt(s, m).value;
      PlaceholderAt(s, f.brace) == Some(Token(f.variable, f.converter, f.end)) &&
      (forall q :: m <= q < f.brace ==> PlaceholderAt(s, q).None?) &&
      (forall k :: f.begin <= k < f.brace ==> s[k] != '{')
  {
  }

  /** A start where the pattern fails either is not a `{`, and then the next
      start finds the same brace, or is a `{` that opens no placeholder. */
  lemma SearchStep(s: string, m: nat)
    requires m < |s| && MatchAt(s, m).None?
    ensures PlaceholderAt(s, m).None?
    ensures MatchAt(s, m + 1).Some? ==> s[m] == '{'
  {
    if s[m] != '{' {
      assert FirstBrace(s, m) == FirstBrace(s, m + 1);
    } else {
      assert FirstBrace(s, m) == Some(m);
    }
  }

  /** A failed search means there is no well-formed placeholder at all from
      `start` on. */
  lemma {:induction false} SearchNone(s: string, start: nat)
    requires start <= |s| && Search(s, start).None?
    ensures forall q :: start <= q < |s| ==> PlaceholderAt(s, q).None?
    decreases |s| - start
  {
    if start < |s| {
      SearchNone(s, start + 1);
      if s[start] == '{' {
        assert FirstBrace(s, start) == Some(start);
      }
    }
  }
}
