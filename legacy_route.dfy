/** Routes of the oldest generation (`Vank`): templates such as
    `/items/<int:id>` or `/f/<path(x):rest>`, scanned with `re.match` at the
    current position, compiled into an anchored pattern whose literal text
    is NOT escaped, and turned back into URLs by `url_for`. */
module LegacyRoute {
  import opened Wrappers
  import opened Text
  import opened Patterns
  import opened TemplateScan
  import opened LegacyConverters
  import VankRoute

  // ---- scanning a template ----------------------------------------------------

  /** What the generator yields: a static text, or a placeholder's converter
      name, its arguments as `conv_args or None` (None without parentheses
      and for empty ones) and its variable. `parens` records whether the
      template wrote parentheses; it is not yielded, it keeps the text
      the part was read from. */
  datatype Part = Static(text: string) | Placeholder(converter: string, args: Option<string>, variable: string, parens: bool)

  /** The errors the generator raises, after the parts yielded so far. */
  datatype ScanError =
    | MissingConverter(variable: string)   // SyntaxError: `<var>` without a converter
    | RepeatedVariable(variable: string)   // LookupError: a variable used twice
    | StrayBracket(rest: string)           // SyntaxError: `<` or `>` in the trailing text

  datatype Scanned = Scanned(parts: seq<Part>, failure: Option<ScanError>)

  /** One match of the placeholder expression: the `<` at `open`, the
      converter and its arguments if given, the variable, and the index
      after `>`. */
  datatype Tag = Tag(open: nat, converter: Option<string>, args: Option<string>, variable: string, end: nat)

  /** The first `<` at or after `m`. */
  function FirstOpen(s: string, m: nat): (r: Option<nat>)
    requires m <= |s|
    ensures r.Some? ==> m <= r.value < |s| && s[r.value] == '<'
    ensures r.Some? ==> forall k :: m <= k < r.value ==> s[k] != '<'
    ensures r.None? ==> forall k :: m <= k < |s| ==> s[k] != '<'
    decreases |s| - m
  {
    if m == |s| then None else if s[m] == '<' then Some(m) else FirstOpen(s, m + 1)
  }

  /** `)` `:` variable `>` starts at `j`. */
  predicate ClosesAt(s: string, j: nat) {
    j + 2 < |s| && s[j] == ')' && s[j + 1] == ':' && IsIdentStart(s[j + 2]) &&
    j + 2 + IdentRun(s, j + 2) < |s| && s[j + 2 + IdentRun(s, j + 2)] == '>'
  }

  /** The lazy `(?P<conv_args>.*?)`: the first index from `j` on where the
      rest of the placeholder matches, without crossing a newline. */
  function LazyClose(s: string, j: nat): (r: Option<nat>)
    requires j <= |s|
    ensures r.Some? ==> j <= r.value && ClosesAt(s, r.value)
    decreases |s| - j
  {
    if ClosesAt(s, j) then Some(j)
    else if j < |s| && s[j] != '\n' then LazyClose(s, j + 1)
    else None
  }

  /** The lazy group takes the shortest text: no earlier index closes the
      placeholder, and the arguments hold no newline. */
  lemma {:induction false} LazyCloseFirst(s: string, j: nat, k: nat)
    requires j <= k <= |s| && LazyClose(s, j).Some? && k < LazyClose(s, j).value
    ensures s[k] != '\n' && !ClosesAt(s, k)
    decreases |s| - j
  {
    if k > j {
      LazyCloseFirst(s, j + 1, k);
    }
  }

  /** The text of a tag. */
  function TagText(converter: Option<string>, args: Option<string>, variable: string): string {
    "<" +
    (if converter.Some? then converter.value + (if args.Some? then "(" + args.value + ")" else "") + ":" else "") +
    variable + ">"
  }

  /** The placeholder expression at the `<` at index `q`. The optional
      converter part is tried first; the converter name cannot give back
      characters (it must be followed by `(` or `:`), and the variable
      cannot either (it must be followed by `>`). */
  function TagAt(s: string, q: nat): (r: Option<Tag>)
    requires q < |s| && s[q] == '<'
    ensures r.Some? ==> r.value.open == q && q < r.value.end <= |s|
  {
    var i := q + 1;
    if i < |s| && IsIdentStart(s[i]) then
      var b := i + IdentRun(s, i);
      if b < |s| && s[b] == '(' then ArgsTag(s, q, b)
      else if b < |s| && s[b] == ':' then ColonTag(s, q, b)
      else if b < |s| && s[b] == '>' then Some(Tag(q, None, None, s[i..b], b + 1))
      else None
    else None
  }

  /** `<conv(args):var>`, the converter name ending at the `(` at `b`. */
  function ArgsTag(s: string, q: nat, b: nat): (r: Option<Tag>)
    requires q < b < |s|
    ensures r.Some? ==> r.value.open == q && b < r.value.end <= |s|
  {
    match LazyClose(s, b + 1)
    case None => None
    case Some(j) =>
      var e := j + 2 + IdentRun(s, j + 2);
      Some(Tag(q, Some(s[q + 1..b]), Some(s[b + 1..j]), s[j + 2..e], e + 1))
  }

  /** `<conv:var>`, the converter name ending at the `:` at `b`. */
  function ColonTag(s: string, q: nat, b: nat): (r: Option<Tag>)
    requires q < b < |s|
    ensures r.Some? ==> r.value.open == q && b < r.value.end <= |s|
  {
    if b + 1 < |s| && IsIdentStart(s[b + 1]) && b + 1 + IdentRun(s, b + 1) < |s| &&
       s[b + 1 + IdentRun(s, b + 1)] == '>' then
      var e := b + 1 + IdentRun(s, b + 1);
      Some(Tag(q, Some(s[q + 1..b]), None, s[b + 1..e], e + 1))
    else None
  }

  /** The part yielded for a tag with a converter: empty arguments become
      None (`conv_args or None`). */
  function PartOf(t: Tag): (r: Part)
    requires t.converter.Some?
    ensures r.Placeholder? && r.converter == t.converter.value && r.variable == t.variable
    ensures r.args.None? <==> t.args.None? || t.args == Some("")
    ensures r.args.Some? ==> r.args == t.args
  {
    Placeholder(t.converter.value, if t.args == Some("") then None else t.args, t.variable, t.args.Some?)
  }

  /** A tag is the text it was read from, with identifier names. */
  lemma TagAtSpec(s: string, q: nat)
    requires q < |s| && s[q] == '<' && TagAt(s, q).Some?
    ensures var t := TagAt(s, q).value;
      IsIdent(t.variable) && (t.converter.Some? ==> IsIdent(t.converter.value)) &&
      s[q..t.end] == TagText(t.converter, t.args, t.variable)
  {
    var i := q + 1;
    var b := i + IdentRun(s, i);
    IdentAt(s, i);
    if s[b] == '(' {
      ArgsTagSpec(s, q, b);
      var t := ArgsTag(s, q, b).value;
      TagTextArgs(s[q + 1..b], t.args.value, t.variable);
    } else if s[b] == ':' {
      ColonTagSpec(s, q, b);
      var t := ColonTag(s, q, b).value;
      TagTextColon(s[q + 1..b], t.variable);
    } else {
      PlainTagText(s, q, b);
    }
  }

  lemma TagTextArgs(converter: string, args: string, variable: string)
    ensures TagText(Some(converter), Some(args), variable) == "<" + converter + "(" + args + "):" + variable + ">"
  {
  }

  lemma TagTextColon(converter: string, variable: string)
    ensures TagText(Some(converter), None, variable) == "<" + converter + ":" + variable + ">"
  {
  }

  lemma PlainTagText(s: string, q: nat, b: nat)
    requires q < b < |s| && s[q] == '<' && s[b] == '>'
    ensures s[q..b + 1] == TagText(None, None, s[q + 1..b])
  {
    assert s[q..b + 1] == [s[q]] + s[q + 1..b] + [s[b]];
  }

  lemma ArgsTagSpec(s: string, q: nat, b: nat)
    requires q < b < |s| && s[q] == '<' && s[b] == '(' && ArgsTag(s, q, b).Some?
    ensures var t := ArgsTag(s, q, b).value;
      IsIdent(t.variable) && s[q..t.end] == "<" + s[q + 1..b] + "(" + t.args.value + "):" + t.variable + ">"
  {
    var j := LazyClose(s, b + 1).value;
    var e := j + 2 + IdentRun(s, j + 2);
    assert ArgsTag(s, q, b).value == Tag(q, Some(s[q + 1..b]), Some(s[b + 1..j]), s[j + 2..e], e + 1);
    assert ClosesAt(s, j);
    IdentAt(s, j + 2);
    ArgsText(s, q, b, j, e);
  }

  lemma ArgsText(s: string, q: nat, b: nat, j: nat, e: nat)
    requires q < b < j && j + 2 <= e < |s|
    requires s[q] == '<' && s[b] == '(' && s[j] == ')' && s[j + 1] == ':' && s[e] == '>'
    ensures s[q..e + 1] == "<" + s[q + 1..b] + "(" + s[b + 1..j] + "):" + s[j + 2..e] + ">"
  {
    assert s[q..e + 1] == [s[q]] + s[q + 1..b] + [s[b]] + s[b + 1..j] + [s[j], s[j + 1]] + s[j + 2..e] + [s[e]];
  }

  lemma ColonTagSpec(s: string, q: nat, b: nat)
    requires q < b < |s| && s[q] == '<' && s[b] == ':' && ColonTag(s, q, b).Some?
    ensures var t := ColonTag(s, q, b).value;
      IsIdent(t.variable) && s[q..t.end] == "<" + s[q + 1..b] + ":" + t.variable + ">"
  {
    IdentAt(s, b + 1);
    ColonText(s, q, b, b + 1 + IdentRun(s, b + 1));
  }

  lemma ColonText(s: string, q: nat, b: nat, e: nat)
    requires q < b < e < |s|
    requires s[q] == '<' && s[b] == ':' && s[e] == '>'
    ensures s[q..e + 1] == "<" + s[q + 1..b] + ":" + s[b + 1..e] + ">"
  {
    assert s[q..e + 1] == [s[q]] + s[q + 1..b] + [s[b]] + s[b + 1..e] + [s[e]];
  }

  /** The identifier run at `i`, when it starts with an identifier start. */
  lemma IdentAt(s: string, i: nat)
    requires i < |s| && IsIdentStart(s[i])
    ensures IsIdent(s[i..i + IdentRun(s, i)])
  {
    var t := s[i..i + IdentRun(s, i)];
    assert forall k :: 0 <= k < |t| ==> t[k] == s[i + k];
  }

  /** What the generator yields from index `pos` on, with `seen` the
      variables met so far. */
  function PartsFrom(s: string, pos: nat, seen: set<string>): Scanned
    requires pos <= |s|
    decreases |s| - pos
  {
    if pos == |s| then Scanned([], None)
    else
      match FirstOpen(s, pos)
      case None => Trailing(s[pos..])
      case Some(q) =>
        match TagAt(s, q)
        case None => Trailing(s[pos..])
        case Some(t) =>
          var lead := Lead(s, pos, q);
          if t.converter.None? then Scanned(lead, Some(MissingConverter(t.variable)))
          else if t.variable in seen then Scanned(lead, Some(RepeatedVariable(t.variable)))
          else Prefixed(lead + [PartOf(t)], PartsFrom(s, t.end, seen + {t.variable}))
  }

  /** The text after the last placeholder: yielded unless it holds `<` or `>`. */
  function Trailing(rest: string): Scanned {
    if '<' in rest || '>' in rest then Scanned([], Some(StrayBracket(rest))) else Scanned([Static(rest)], None)
  }

  function Prefixed(ys: seq<Part>, later: Scanned): Scanned {
    Scanned(ys + later.parts, later.failure)
  }

  /** `__parse_rule`: the empty template yields one empty item. */
  function Scan(path: string): Scanned {
    if path == [] then Scanned([Static([])], None) else PartsFrom(path, 0, {})
  }

  /** `__parse_rule`, run to completion. */
  method ParseRule(path: string) returns (parts: seq<Part>, failure: Option<ScanError>)
    ensures Scanned(parts, failure) == Scan(path)
  {
    if path == [] {
      return [Static([])], None;
    }
    var seen: set<string> := {};
    var position := 0;
    parts := [];
    while position < |path|
      invariant position <= |path|
      invariant Scan(path) == Prefixed(parts, PartsFrom(path, position, seen))
      decreases |path| - position
    {
      var q := FirstOpen(path, position);
      if q.None? {
        break;
      }
      var t := TagAt(path, q.value);
      if t.None? {
        break;
      }
      var tag := t.value;
      var lead := if position < q.value then [Static(path[position..q.value])] else [];
      if tag.converter.None? {
        return parts + lead, Some(MissingConverter(tag.variable));
      }
      if tag.variable in seen {
        return parts + lead, Some(RepeatedVariable(tag.variable));
      }
      var ph := PartOf(tag);
      PrefixedStep(parts, lead + [ph], PartsFrom(path, tag.end, seen + {tag.variable}));
      parts := parts + (lead + [ph]);
      seen := seen + {tag.variable};
      position := tag.end;
    }
    failure := None;
    if position < |path| {
      var other := path[position..];
      if '<' in other || '>' in other {
        assert parts + [] == parts;
        failure := Some(StrayBracket(other));
      } else {
        parts := parts + [Static(other)];
      }
    } else {
      assert parts + [] == parts;
    }
  }

  lemma PrefixedStep(xs: seq<Part>, ys: seq<Part>, later: Scanned)
    ensures Prefixed(xs, Prefixed(ys, later)) == Prefixed(xs + ys, later)
  {
    assert xs + (ys + later.parts) == xs + ys + later.parts;
  }

  /** The template text a part was read from. */
  function SourceOf(p: Part): string {
    match p
    case Static(t) => t
    case Placeholder(c, a, v, w) => TagText(Some(c), if w then Some(if a.Some? then a.value else "") else None, v)
  }

  function Sources(ps: seq<Part>): string
    decreases |ps|
  {
    if ps == [] then [] else SourceOf(ps[0]) + Sources(ps[1..])
  }

  lemma {:induction false} SourcesAppend(xs: seq<Part>, ys: seq<Part>)
    ensures Sources(xs + ys) == Sources(xs) + Sources(ys)
    decreases |xs|
  {
    if xs == [] {
      assert xs + ys == ys;
    } else {
      assert (xs + ys)[1..] == xs[1..] + ys;
      SourcesAppend(xs[1..], ys);
    }
  }

  /** The variables of the placeholders, in order. */
  function Vars(ps: seq<Part>): seq<string>
    decreases |ps|
  {
    if ps == [] then []
    else (if ps[0].Placeholder? then [ps[0].variable] else []) + Vars(ps[1..])
  }

  lemma {:induction false} VarsAppend(xs: seq<Part>, ys: seq<Part>)
    ensures Vars(xs + ys) == Vars(xs) + Vars(ys)
    decreases |xs|
  {
    if xs == [] {
      assert xs + ys == ys;
    } else {
      var head := if xs[0].Placeholder? then [xs[0].variable] else [];
      assert (xs + ys)[0] == xs[0];
      assert (xs + ys)[1..] == xs[1..] + ys;
      VarsAppend(xs[1..], ys);
      assert Vars(xs + ys) == head + (Vars(xs[1..]) + Vars(ys));
      assert Vars(xs) == head + Vars(xs[1..]);
    }
  }

  /** A part as the scanner yields it: a static text holds no `<`; a
      placeholder has identifier converter and variable names, and never
      empty arguments. */
  predicate PartOk(p: Part) {
    match p
    case Static(t) => '<' !in t
    case Placeholder(c, a, v, _) => IsIdent(c) && IsIdent(v) && a != Some("")
  }

  /** The static text before a placeholder, as `PartsFrom` yields it. */
  function Lead(s: string, pos: nat, q: nat): seq<Part>
    requires pos <= q <= |s|
  {
    if pos < q then [Static(s[pos..q])] else []
  }

  lemma LeadFacts(s: string, pos: nat, q: nat)
    requires pos <= q <= |s| && forall k :: pos <= k < q ==> s[k] != '<'
    ensures Sources(Lead(s, pos, q)) == s[pos..q] && Vars(Lead(s, pos, q)) == []
    ensures forall k :: 0 <= k < |Lead(s, pos, q)| ==> PartOk(Lead(s, pos, q)[k])
  {
    if pos < q {
      var t := s[pos..q];
      assert Sources([Static(t)]) == t + Sources([]);
      assert Vars([Static(t)]) == [] + Vars([]);
      assert '<' !in t by {
        forall k | 0 <= k < |t| ensures t[k] != '<' {
          assert t[k] == s[pos + k];
        }
      }
    }
  }

  /** The scanner reads the template contiguously: when nothing is raised,
      what it yields, put back as text, is the template. */
  lemma {:induction false} PartsFromSources(s: string, pos: nat, seen: set<string>)
    requires pos <= |s|
    ensures PartsFrom(s, pos, seen).failure.None? ==> Sources(PartsFrom(s, pos, seen).parts) == s[pos..]
    decreases |s| - pos
  {
    var r := PartsFrom(s, pos, seen);
    if pos < |s| && r.failure.None? {
      var fo := FirstOpen(s, pos);
      if fo.None? || TagAt(s, fo.value).None? {
        TrailingFacts(s[pos..]);
      } else {
        var q := fo.value;
        var t := TagAt(s, q).value;
        var ph := PartOf(t);
        var later := PartsFrom(s, t.end, seen + {t.variable});
        assert r == Prefixed(Lead(s, pos, q) + [ph], later);
        TagAtSpec(s, q);
        LeadFacts(s, pos, q);
        PartsFromSources(s, t.end, seen + {t.variable});
        SourcesJoin(s, pos, q, t.end, Lead(s, pos, q), ph, later.parts);
      }
    }
  }

  /** The trailing text, when yielded, is one well-formed static part. */
  lemma TrailingFacts(rest: string)
    ensures Trailing(rest).failure.None? ==>
      Trailing(rest).parts == [Static(rest)] && Sources([Static(rest)]) == rest &&
      Vars([Static(rest)]) == [] && PartOk(Static(rest))
  {
    assert Sources([Static(rest)]) == rest + Sources([]);
    assert Vars([Static(rest)]) == [] + Vars([]);
  }

  lemma SourcesJoin(s: string, pos: nat, q: nat, e: nat, lead: seq<Part>, ph: Part, later: seq<Part>)
    requires pos <= q <= e <= |s|
    requires Sources(lead) == s[pos..q] && SourceOf(ph) == s[q..e] && Sources(later) == s[e..]
    ensures Sources(lead + [ph] + later) == s[pos..]
  {
    SourcesAppend(lead + [ph], later);
    SourcesAppend(lead, [ph]);
    assert Sources([ph]) == SourceOf(ph) + Sources([]);
    SliceThirds(s, pos, q, e);
  }

  /** Every yielded part is well formed, and the variables are new and
      distinct, so a repeated variable is always reported. */
  lemma {:induction false} PartsFromVars(s: string, pos: nat, seen: set<string>)
    requires pos <= |s|
    ensures var r := PartsFrom(s, pos, seen);
      (forall i :: 0 <= i < |r.parts| ==> PartOk(r.parts[i])) &&
      Distinct(Vars(r.parts)) && Elems(Vars(r.parts)) !! seen
    decreases |s| - pos
  {
    var r := PartsFrom(s, pos, seen);
    if pos < |s| {
      var fo := FirstOpen(s, pos);
      if fo.None? || TagAt(s, fo.value).None? {
        TrailingFacts(s[pos..]);
      } else {
        var q := fo.value;
        var t := TagAt(s, q).value;
        LeadFacts(s, pos, q);
        if t.converter.Some? && t.variable !in seen {
          var ph := PartOf(t);
          var later := PartsFrom(s, t.end, seen + {t.variable});
          assert r == Prefixed(Lead(s, pos, q) + [ph], later);
          TagAtSpec(s, q);
          PartsFromVars(s, t.end, seen + {t.variable});
          VarsJoin(seen, Lead(s, pos, q), ph, later.parts);
        }
      }
    }
  }

  lemma VarsJoin(seen: set<string>, lead: seq<Part>, ph: Part, later: seq<Part>)
    requires ph.Placeholder? && PartOk(ph) && ph.variable !in seen && Vars(lead) == []
    requires forall k :: 0 <= k < |lead| ==> PartOk(lead[k])
    requires forall k :: 0 <= k < |later| ==> PartOk(later[k])
    requires Distinct(Vars(later)) && Elems(Vars(later)) !! seen + {ph.variable}
    ensures var ps := lead + [ph] + later;
      (forall k :: 0 <= k < |ps| ==> PartOk(ps[k])) && Distinct(Vars(ps)) && Elems(Vars(ps)) !! seen
  {
    var ps := lead + [ph] + later;
    VarsAppend(lead + [ph], later);
    VarsAppend(lead, [ph]);
    assert Vars([ph]) == [ph.variable] + Vars([]);
    var vs := Vars(ps);
    assert vs == [ph.variable] + Vars(later);
    assert forall k :: 0 <= k < |ps| ==> PartOk(ps[k]) by {
      forall k | 0 <= k < |ps| ensures PartOk(ps[k]) {
        if k > |lead| {
          assert ps[k] == later[k - |lead| - 1];
        }
      }
    }
    assert Distinct(vs) by {
      forall i, j | 0 <= i < j < |vs| ensures vs[i] != vs[j] {
        assert vs[j] == Vars(later)[j - 1];
        if i > 0 {
          assert vs[i] == Vars(later)[i - 1];
        } else {
          assert vs[j] in Elems(Vars(later));
        }
      }
    }
    assert Elems(vs) == {ph.variable} + Elems(Vars(later)) by {
      ElemsCons([ph.variable], Vars(later));
    }
  }

  // ---- compiling a route ------------------------------------------------------

  datatype RouteError =
    | BadMethods                        // the method list is refused (the message reads `self.endpoint` before it is set)
    | ScanFailed(error: ScanError)
    | UnknownConverter(name: string)    // LookupError from `build_rule_regex`

  /** What `build_rule_regex` has built: the pieces of `regex_list` and
      `argument_converters` with its keys in insertion order. */
  datatype Built<!V> = Built(pieces: seq<Piece>, names: seq<string>, converters: map<string, Converter<V>>)

  /** The loop of `build_rule_regex` over the yielded parts: static text is
      appended unescaped (the empty item of the empty template adds
      nothing), a placeholder appends its converter's group. */
  function BuildFrom<V>(parts: seq<Part>, registry: map<string, Converter<V>>, acc: Built<V>): Result<Built<V>, RouteError>
    decreases |parts|
  {
    if parts == [] then Ok(acc)
    else
      match parts[0]
      case Static(t) =>
        if t == [] then BuildFrom(parts[1..], registry, acc)
        else BuildFrom(parts[1..], registry, acc.(pieces := acc.pieces + [RawLit(t)]))
      case Placeholder(c, _, v, _) =>
        if c !in registry then Err(UnknownConverter(c))
        else BuildFrom(parts[1..], registry, Built(acc.pieces + [Group(v, registry[c].pat)], acc.names + [v], acc.converters[v := registry[c]]))
  }

  /** A compiled route. */
  datatype Route<!V> = Route(
    path: string,
    methods: seq<string>,
    endpoint: string,
    pieces: seq<Piece>,
    argNames: seq<string>,
    argConverters: map<string, Converter<V>>)

  /** `BaseRoute.__init__`: the methods first, then the template; a
      converter lookup fails while the parts are consumed, before any error
      the generator raises after them. */
  function RouteOf<V>(path: string, methods: seq<string>, endpoint: string, registry: map<string, Converter<V>>): Result<Route<V>, RouteError> {
    match VankRoute.ParseMethods(methods)
    case Err(_) => Err(BadMethods)
    case Ok(ms) => Compile(path, ms, endpoint, Scan(path), registry)
  }

  /** The template part of `BaseRoute.__init__`, from what the scanner
      yielded. */
  function Compile<V>(path: string, ms: seq<string>, endpoint: string, scanned: Scanned, registry: map<string, Converter<V>>): Result<Route<V>, RouteError> {
    match BuildFrom(scanned.parts, registry, Built([], [], map[]))
    case Err(e) => Err(e)
    case Ok(b) =>
      match scanned.failure
      case Some(e) => Err(ScanFailed(e))
      case None => Ok(Route(path, ms, endpoint, b.pieces, b.names, b.converters))
  }

  /** `BaseRoute.__init__` with `build_rule_regex`'s loop. */
  method NewRoute<V>(path: string, methods: seq<string>, endpoint: string, registry: map<string, Converter<V>>)
    returns (r: Result<Route<V>, RouteError>)
    ensures r == RouteOf(path, methods, endpoint, registry)
  {
    var ms := VankRoute.ParseMethods(methods);
    if ms.Err? {
      return Err(BadMethods);
    }
    var parts, failure := ParseRule(path);
    var acc: Built<V> := Built([], [], map[]);
    var i := 0;
    while i < |parts|
      invariant i <= |parts|
      invariant BuildFrom(parts, registry, Built([], [], map[])) == BuildFrom(parts[i..], registry, acc)
    {
      assert parts[i..][1..] == parts[i + 1..];
      match parts[i] {
        case Static(t) =>
          if t != [] {
            acc := acc.(pieces := acc.pieces + [RawLit(t)]);
          }
        case Placeholder(c, _, v, _) =>
          if c !in registry {
            return Err(UnknownConverter(c));
          }
          acc := Built(acc.pieces + [Group(v, registry[c].pat)], acc.names + [v], acc.converters[v := registry[c]]);
      }
      i := i + 1;
    }
    assert parts[i..] == [];
    if failure.Some? {
      return Err(ScanFailed(failure.value));
    }
    return Ok(Route(path, ms.value, endpoint, acc.pieces, acc.names, acc.converters));
  }

  /** Every placeholder names a registered converter. */
  predicate Known<V>(parts: seq<Part>, registry: map<string, Converter<V>>) {
    forall i :: 0 <= i < |parts| && parts[i].Placeholder? ==> parts[i].converter in registry
  }

  /** No piece is escaped. */
  predicate NoLit(ps: seq<Piece>) {
    forall i :: 0 <= i < |ps| ==> !ps[i].Lit?
  }

  /** What a built route satisfies: each variable once, the groups exactly
      the variables, each group with its converter's expression, and all
      literal text raw. */
  predicate WellBuilt<V>(b: Built<V>) {
    Distinct(b.names) && b.converters.Keys == Elems(b.names) &&
    GroupNames(b.pieces) == b.converters.Keys && DistinctNames(b.pieces) && NoLit(b.pieces) &&
    forall i :: 0 <= i < |b.pieces| && b.pieces[i].Group? ==>
      b.pieces[i].name in b.converters && b.pieces[i].pat == b.converters[b.pieces[i].name].pat
  }

  /** Each placeholder's variable is bound to the converter it names. */
  ghost predicate Binds<V>(parts: seq<Part>, converters: map<string, Converter<V>>, registry: map<string, Converter<V>>) {
    forall i :: 0 <= i < |parts| && parts[i].Placeholder? ==>
      parts[i].variable in converters && parts[i].converter in registry &&
      converters[parts[i].variable] == registry[parts[i].converter]
  }

  predicate ValidRoute<V>(r: Route<V>) {
    WellBuilt(Built(r.pieces, r.argNames, r.argConverters))
  }

  lemma {:induction false} BuildFromOk<V>(parts: seq<Part>, registry: map<string, Converter<V>>, acc: Built<V>)
    requires WellBuilt(acc) && Distinct(acc.names + Vars(parts))
    ensures BuildFrom(parts, registry, acc).Ok? <==> Known(parts, registry)
    ensures BuildFrom(parts, registry, acc).Ok? ==>
      var b := BuildFrom(parts, registry, acc).value;
      WellBuilt(b) && b.names == acc.names + Vars(parts) &&
      (forall n :: n in acc.converters ==> b.converters[n] == acc.converters[n]) &&
      Binds(parts, b.converters, registry)
    decreases |parts|, 2
  {
    if parts == [] {
      assert acc.names + [] == acc.names;
    } else if parts[0].Static? {
      BuildFromOkStatic(parts, registry, acc);
    } else {
      BuildFromOkPlaceholder(parts, registry, acc);
    }
  }

  lemma {:induction false} BuildFromOkStatic<V>(parts: seq<Part>, registry: map<string, Converter<V>>, acc: Built<V>)
    requires WellBuilt(acc) && Distinct(acc.names + Vars(parts))
    requires parts != [] && parts[0].Static?
    ensures BuildFrom(parts, registry, acc).Ok? <==> Known(parts, registry)
    ensures BuildFrom(parts, registry, acc).Ok? ==>
      var b := BuildFrom(parts, registry, acc).value;
      WellBuilt(b) && b.names == acc.names + Vars(parts) &&
      (forall n :: n in acc.converters ==> b.converters[n] == acc.converters[n]) &&
      Binds(parts, b.converters, registry)
    decreases |parts|, 1
  {
    var tail := parts[1..];
    assert forall i :: 1 <= i < |parts| ==> parts[i] == tail[i - 1];
    assert Known(parts, registry) <==> Known(tail, registry);
    var t := parts[0].text;
    var acc' := if t == [] then acc else acc.(pieces := acc.pieces + [RawLit(t)]);
    if t != [] {
      AppendRaw(acc, t);
    }
    assert BuildFrom(parts, registry, acc) == BuildFrom(tail, registry, acc');
    assert Vars(parts) == Vars(tail);
    BuildFromOk(tail, registry, acc');
  }

  lemma {:induction false} BuildFromOkPlaceholder<V>(parts: seq<Part>, registry: map<string, Converter<V>>, acc: Built<V>)
    requires WellBuilt(acc) && Distinct(acc.names + Vars(parts))
    requires parts != [] && parts[0].Placeholder?
    ensures BuildFrom(parts, registry, acc).Ok? <==> Known(parts, registry)
    ensures BuildFrom(parts, registry, acc).Ok? ==>
      var b := BuildFrom(parts, registry, acc).value;
      WellBuilt(b) && b.names == acc.names + Vars(parts) &&
      (forall n :: n in acc.converters ==> b.converters[n] == acc.converters[n]) &&
      Binds(parts, b.converters, registry)
    decreases |parts|, 1
  {
    if parts[0].converter in registry {
      BuildFromOkRegistered(parts, registry, acc);
    } else {
      assert !Known(parts, registry) by {
        assert parts[0].Placeholder? && parts[0].converter !in registry;
      }
    }
  }

  lemma {:induction false} BuildFromOkRegistered<V>(parts: seq<Part>, registry: map<string, Converter<V>>, acc: Built<V>)
    requires WellBuilt(acc) && Distinct(acc.names + Vars(parts))
    requires parts != [] && parts[0].Placeholder? && parts[0].converter in registry
    ensures BuildFrom(parts, registry, acc).Ok? <==> Known(parts, registry)
    ensures BuildFrom(parts, registry, acc).Ok? ==>
      var b := BuildFrom(parts, registry, acc).value;
      WellBuilt(b) && b.names == acc.names + Vars(parts) &&
      (forall n :: n in acc.converters ==> b.converters[n] == acc.converters[n]) &&
      Binds(parts, b.converters, registry)
    decreases |parts|, 0
  {
    var tail := parts[1..];
    var c, v := parts[0].converter, parts[0].variable;
    assert Known(parts, registry) <==> Known(tail, registry) by {
      assert forall i :: 1 <= i < |parts| ==> parts[i] == tail[i - 1];
    }
    assert Vars(parts) == [v] + Vars(tail);
    FreshVariable(acc, v, Vars(tail));
    var acc' := Built(acc.pieces + [Group(v, registry[c].pat)], acc.names + [v], acc.converters[v := registry[c]]);
    AppendGroup(acc, v, registry[c]);
    assert BuildFrom(parts, registry, acc) == BuildFrom(tail, registry, acc');
    BuildFromOk(tail, registry, acc');
    if BuildFrom(tail, registry, acc').Ok? {
      ElemsCons(acc'.names, Vars(tail));
      RegisteredStep(parts, registry, acc, acc', BuildFrom(tail, registry, acc').value);
    }
  }

  /** What the rest of the build keeps of `acc'` it keeps of `acc`, and the
      first placeholder is bound too. */
  lemma RegisteredStep<V>(parts: seq<Part>, registry: map<string, Converter<V>>, acc: Built<V>, acc': Built<V>, b: Built<V>)
    requires parts != [] && parts[0].Placeholder? && parts[0].converter in registry
    requires parts[0].variable !in acc.converters
    requires acc'.names == acc.names + [parts[0].variable]
    requires acc'.converters == acc.converters[parts[0].variable := registry[parts[0].converter]]
    requires Vars(parts) == [parts[0].variable] + Vars(parts[1..])
    requires b.names == acc'.names + Vars(parts[1..])
    requires acc'.converters.Keys <= b.converters.Keys
    requires forall n :: n in acc'.converters ==> b.converters[n] == acc'.converters[n]
    requires Binds(parts[1..], b.converters, registry)
    ensures b.names == acc.names + Vars(parts)
    ensures acc.converters.Keys <= b.converters.Keys
    ensures forall n :: n in acc.converters ==> b.converters[n] == acc.converters[n]
    ensures Binds(parts, b.converters, registry)
  {
    assert acc.names + Vars(parts) == (acc.names + [parts[0].variable]) + Vars(parts[1..]);
    forall n | n in acc.converters
      ensures b.converters[n] == acc.converters[n]
    {
      assert n in acc'.converters;
    }
    BindsCons(parts, b.converters, registry);
  }

  lemma BindsCons<V>(parts: seq<Part>, converters: map<string, Converter<V>>, registry: map<string, Converter<V>>)
    requires parts != [] && parts[0].Placeholder? && Binds(parts[1..], converters, registry)
    requires parts[0].variable in converters && parts[0].converter in registry
    requires converters[parts[0].variable] == registry[parts[0].converter]
    ensures Binds(parts, converters, registry)
  {
    forall i | 0 <= i < |parts| && parts[i].Placeholder?
      ensures parts[i].variable in converters && parts[i].converter in registry &&
              converters[parts[i].variable] == registry[parts[i].converter]
    {
      if i > 0 {
        assert parts[i] == parts[1..][i - 1];
      }
    }
  }

  /** A placeholder's variable not yet bound leaves the rest distinct. */
  lemma FreshVariable<V>(acc: Built<V>, v: string, rest: seq<string>)
    requires WellBuilt(acc) && Distinct(acc.names + ([v] + rest))
    ensures Distinct((acc.names + [v]) + rest) && Distinct(acc.names + [v]) && v !in acc.converters
  {
    assert acc.names + ([v] + rest) == (acc.names + [v]) + rest;
    DistinctPrefix(acc.names + [v], rest);
    DistinctSplit(acc.names, [v]);
  }

  lemma AppendRaw<V>(acc: Built<V>, t: string)
    requires WellBuilt(acc)
    ensures WellBuilt(acc.(pieces := acc.pieces + [RawLit(t)]))
  {
    var ps := acc.pieces + [RawLit(t)];
    GroupNamesAppend(acc.pieces, [RawLit(t)]);
    assert GroupNames([RawLit(t)]) == {};
    assert forall i :: 0 <= i < |acc.pieces| ==> ps[i] == acc.pieces[i];
  }

  lemma AppendGroup<V>(acc: Built<V>, v: string, c: Converter<V>)
    requires WellBuilt(acc) && v !in acc.converters
    ensures WellBuilt(Built(acc.pieces + [Group(v, c.pat)], acc.names + [v], acc.converters[v := c]))
  {
    var g := Group(v, c.pat);
    var ps := acc.pieces + [g];
    GroupNamesAppend(acc.pieces, [g]);
    assert GroupNames([g]) == {v} + GroupNames([]);
    assert forall i :: 0 <= i < |acc.pieces| ==> ps[i] == acc.pieces[i];
    DistinctAppend(acc.names, v);
    assert DistinctNames(ps) by {
      forall i, j | 0 <= i < j < |ps| && ps[i].Group? && ps[j].Group? ensures ps[i].name != ps[j].name {
        if j == |ps| - 1 {
          assert ps[i].name in GroupNames(acc.pieces);
        }
      }
    }
  }

  /** A route compiles exactly when the method list is accepted, every
      converter is registered and the scanner raises nothing; it is then
      well formed, with its variables in template order, each bound to the
      converter its placeholder names, and with a placeholder-free template
      compiled into one raw literal. */
  lemma RouteOfSpec<V>(path: string, methods: seq<string>, endpoint: string, registry: map<string, Converter<V>>)
    ensures var scanned := Scan(path);
      var r := RouteOf(path, methods, endpoint, registry);
      (r.Ok? <==> VankRoute.ParseMethods(methods).Ok? && Known(scanned.parts, registry) && scanned.failure.None?) &&
      (r.Ok? ==> ValidRoute(r.value) && r.value.argNames == Vars(scanned.parts) &&
                 r.value.methods == VankRoute.ParseMethods(methods).value &&
                 Sources(scanned.parts) == path &&
                 Binds(scanned.parts, r.value.argConverters, registry))
  {
    RouteOfAccepts(path, methods, endpoint, registry);
    if RouteOf(path, methods, endpoint, registry).Ok? {
      RouteOfShape(path, methods, endpoint, registry);
    }
  }

  lemma RouteOfAccepts<V>(path: string, methods: seq<string>, endpoint: string, registry: map<string, Converter<V>>)
    ensures RouteOf(path, methods, endpoint, registry).Ok? <==>
            VankRoute.ParseMethods(methods).Ok? && Known(Scan(path).parts, registry) && Scan(path).failure.None?
  {
    ScanSpec(path);
    match VankRoute.ParseMethods(methods)
    case Err(_) =>
    case Ok(ms) =>
      CompileSpec(path, ms, endpoint, Scan(path), registry);
  }

  lemma RouteOfShape<V>(path: string, methods: seq<string>, endpoint: string, registry: map<string, Converter<V>>)
    requires RouteOf(path, methods, endpoint, registry).Ok?
    ensures var scanned := Scan(path);
      var r := RouteOf(path, methods, endpoint, registry).value;
      ValidRoute(r) && r.argNames == Vars(scanned.parts) && r.methods == VankRoute.ParseMethods(methods).value &&
      Sources(scanned.parts) == path &&
      Binds(scanned.parts, r.argConverters, registry)
  {
    var scanned := Scan(path);
    var ms := VankRoute.ParseMethods(methods).value;
    assert RouteOf(path, methods, endpoint, registry) == Compile(path, ms, endpoint, scanned, registry);
    ScanSpec(path);
    CompileSpec(path, ms, endpoint, scanned, registry);
  }

  lemma CompileSpec<V>(path: string, ms: seq<string>, endpoint: string, scanned: Scanned, registry: map<string, Converter<V>>)
    requires Distinct(Vars(scanned.parts))
    ensures var r := Compile(path, ms, endpoint, scanned, registry);
      (r.Ok? <==> Known(scanned.parts, registry) && scanned.failure.None?) &&
      (r.Ok? ==> ValidRoute(r.value) && r.value.argNames == Vars(scanned.parts) && r.value.methods == ms &&
                 r.value.path == path &&
                 Binds(scanned.parts, r.value.argConverters, registry))
  {
    var empty: Built<V> := Built([], [], map[]);
    assert WellBuilt(empty);
    assert [] + Vars(scanned.parts) == Vars(scanned.parts);
    BuildFromOk(scanned.parts, registry, empty);
  }

  /** `Scan` in one statement: the parts are well formed, the variables
      distinct, and the template is read back when nothing is raised. */
  lemma ScanSpec(path: string)
    ensures var scanned := Scan(path);
      (forall i :: 0 <= i < |scanned.parts| ==> PartOk(scanned.parts[i])) && Distinct(Vars(scanned.parts)) &&
      (scanned.failure.None? ==> Sources(scanned.parts) == path)
  {
    if path == [] {
      assert Vars([Static([])]) == [] + Vars([]);
      assert Sources([Static([])]) == [] + Sources([]);
    } else {
      PartsFromVars(path, 0, {});
      PartsFromSources(path, 0, {});
      assert path[0..] == path;
    }
  }

  /** Where the scanner stops and what it reports: a template without
      brackets is one static text; the empty template is the one empty
      item, compiled to `^$`. */
  lemma ScanPlain(path: string)
    requires path != [] && '<' !in path && '>' !in path
    ensures Scan(path) == Scanned([Static(path)], None)
  {
    assert path[0..] == path;
  }

  /** Empty parentheses yield no arguments (`conv_args or None`): `<c():x>`
      is yielded as `('c', None, 'x')`, and still reads back as its text. */
  lemma ScanEmptyArgs()
    ensures Scan("<c():x>") == Scanned([Placeholder("c", None, "x", true)], None)
    ensures Sources(Scan("<c():x>").parts) == "<c():x>"
  {
    var s := "<c():x>";
    assert IdentRun(s, 1) == 1;
    assert ClosesAt(s, 3);
    assert LazyClose(s, 3) == Some(3);
    assert IdentRun(s, 5) == 1;
    assert s[1..2] == "c" && s[3..3] == "" && s[5..6] == "x";
    assert ArgsTag(s, 0, 2) == Some(Tag(0, Some("c"), Some(""), "x", 7));
    assert TagAt(s, 0) == Some(Tag(0, Some("c"), Some(""), "x", 7));
    assert PartsFrom(s, 7, {"x"}) == Scanned([], None);
    assert Sources([Placeholder("c", None, "x", true)]) == "<c():x>" + Sources([]);
  }

  /** Literal text is not escaped: in a template without placeholders a `.`
      matches any character but a newline, e.g. `/a.b` matches `/axb`. */
  lemma DotMatchesAny<V>(path: string, methods: seq<string>, endpoint: string, registry: map<string, Converter<V>>, t: string)
    requires path != [] && '<' !in path && '>' !in path && VankRoute.ParseMethods(methods).Ok?
    requires RawLitMatches(path, t)
    ensures RouteOf(path, methods, endpoint, registry).Ok?
    ensures MatchFrom(RouteOf(path, methods, endpoint, registry).value.pieces, t, true) == Some(Hit(map[], |t|))
  {
    ScanPlain(path);
    PlainCompiles(path, VankRoute.ParseMethods(methods).value, endpoint, registry);
    RawLitWhole(path, t);
  }

  lemma PlainCompiles<V>(path: string, ms: seq<string>, endpoint: string, registry: map<string, Converter<V>>)
    requires path != []
    ensures Compile(path, ms, endpoint, Scanned([Static(path)], None), registry) == Ok(Route(path, ms, endpoint, [RawLit(path)], [], map[]))
  {
    var empty: Built<V> := Built([], [], map[]);
    assert [Static(path)][1..] == [];
    assert empty.(pieces := empty.pieces + [RawLit(path)]) == Built([RawLit(path)], [], map[]);
    assert BuildFrom([Static(path)], registry, empty) == BuildFrom([], registry, Built([RawLit(path)], [], map[]));
  }

  lemma RawLitWhole(x: string, t: string)
    requires RawLitMatches(x, t)
    ensures MatchFrom([RawLit(x)], t, true) == Some(Hit(map[], |t|))
  {
    assert t[..|x|] == t && t[|x|..] == [];
    assert [RawLit(x)][1..] == [];
  }

  lemma DotExample()
    ensures RawLitMatches("/a.b", "/axb") && !("/a.b" <= "/axb")
  {
    assert "/a.b"[2] != "/axb"[2];
  }

  /** The empty template compiles to `^$`: it matches the empty path (and,
      as Python's `$` does, a lone newline) and nothing else. */
  lemma EmptyTemplate<V>(methods: seq<string>, endpoint: string, registry: map<string, Converter<V>>, t: string)
    requires VankRoute.ParseMethods(methods).Ok?
    ensures Scan([]) == Scanned([Static([])], None)
    ensures RouteOf([], methods, endpoint, registry).Ok?
    ensures RouteOf([], methods, endpoint, registry).value.pieces == []
    ensures MatchFrom(RouteOf([], methods, endpoint, registry).value.pieces, t, true).Some? <==> t == [] || t == "\n"
  {
    assert [Static([])][1..] == [];
  }

  // ---- using a route ----------------------------------------------------------

  /** `check_method`: the request method upper-cased, among the route's. */
  predicate CheckMethod<V>(r: Route<V>, verb: string) {
    Upper(verb) in r.methods
  }

  /** `route_pattern.match(path)`. */
  function MatchPath<V>(r: Route<V>, path: string): Option<Hit> {
    MatchFrom(r.pieces, path, true)
  }

  /** `convert_arguments`: each argument through its converter; a name
      without a converter (KeyError) or a failed conversion raises, which is
      None here. */
  function ConvertArguments<V>(r: Route<V>, args: map<string, string>): (res: Option<map<string, V>>)
    ensures res.Some? <==> args.Keys <= r.argConverters.Keys &&
                           forall n :: n in args ==> r.argConverters[n].toPython(args[n]).Some?
    ensures res.Some? ==> res.value.Keys == args.Keys &&
                          forall n :: n in args ==> Some(res.value[n]) == r.argConverters[n].toPython(args[n])
  {
    if args.Keys <= r.argConverters.Keys && forall n :: n in args ==> r.argConverters[n].toPython(args[n]).Some? then
      Some(map n | n in args :: r.argConverters[n].toPython(args[n]).value)
    else None
  }

  /** After a match the arguments are exactly the route's variables, so only
      a converter's own failure can stop the conversion. */
  lemma MatchedArgumentsKnown<V>(r: Route<V>, path: string)
    requires ValidRoute(r) && MatchPath(r, path).Some?
    ensures MatchPath(r, path).value.groups.Keys == r.argConverters.Keys
    ensures var groups := MatchPath(r, path).value.groups;
      forall n :: n in groups ==> Accepts(r.argConverters[n].pat, groups[n])
  {
    var h := MatchPath(r, path).value;
    MatchSound(r.pieces, path, true);
    var t := path[..h.end];
    ConformsGroups(r.pieces, h.groups, t);
    forall n | n in h.groups ensures Accepts(r.argConverters[n].pat, h.groups[n]) {
      var i := GroupAt(r.pieces, n);
      assert r.pieces[i].pat == r.argConverters[n].pat;
    }
  }

  /** The index of the group named `n`. */
  lemma GroupAt(ps: seq<Piece>, n: string) returns (i: nat)
    requires n in GroupNames(ps)
    ensures i < |ps| && ps[i].Group? && ps[i].name == n
    decreases |ps|
  {
    if ps[0].Group? && ps[0].name == n {
      i := 0;
    } else {
      var j := GroupAt(ps[1..], n);
      i := j + 1;
    }
  }

  // ---- url_for ----------------------------------------------------------------

  /** UrlForNotFound, the exception the router's `except` clause expects;
      the AttributeError `converter.name` raises on a converter without a
      name; and the AttributeError raised wherever `exceptions.UrlForNotFound`
      is evaluated, because `Vank/core/exceptions.py` defines no such class. */
  datatype UrlError = UrlForNotFound | NoNameAttribute | NoUrlForNotFoundClass

  /** The replacements of `url_for`'s loop, in argument order: the value
      through `convert_to_url`, then `converter.name`, which raises
      AttributeError on a converter without one. */
  function Substitute<V>(url: string, args: VankRoute.Args<V>, convs: map<string, Converter<V>>): Result<string, UrlError>
    requires VankRoute.KeySet(args) <= convs.Keys
    decreases |args|
  {
    if args == [] then Ok(url)
    else
      var (k, v) := args[0];
      var c := convs[k];
      var value := c.toUrl(v);
      match c.name
      case None => Err(NoNameAttribute)
      case Some(name) => Substitute(Replace(url, "<" + name + ":" + k + ">", value), args[1..], convs)
  }

  /** `Route.url_for` as written: the endpoint must be the route's and the
      argument names exactly its variables; otherwise it raises
      `exceptions.UrlForNotFound`, whose evaluation raises AttributeError. */
  function UrlForAsWritten<V>(r: Route<V>, endpoint: string, args: VankRoute.Args<V>): Result<string, UrlError> {
    if endpoint != r.endpoint || VankRoute.KeySet(args) != r.argConverters.Keys then Err(NoUrlForNotFoundClass)
    else Substitute(r.path, args, r.argConverters)
  }

  /** `Route.url_for` with the UrlForNotFound class defined, as the router's
      `except` clause expects: the same guard and the same substitution. */
  function UrlFor<V>(r: Route<V>, endpoint: string, args: VankRoute.Args<V>): Result<string, UrlError> {
    if endpoint != r.endpoint || VankRoute.KeySet(args) != r.argConverters.Keys then Err(UrlForNotFound)
    else Substitute(r.path, args, r.argConverters)
  }

  /** With the shipped converters (none has `name`), `url_for` as written
      raises AttributeError for every route that has a placeholder: from
      `converter.name` when the arguments fit, from the undefined exception
      class when they do not. */
  lemma UrlForRaises<V>(r: Route<V>, endpoint: string, args: VankRoute.Args<V>)
    requires r.argConverters.Keys != {} && forall n :: n in r.argConverters ==> Nameless(r.argConverters[n])
    ensures UrlForAsWritten(r, endpoint, args) ==
              (if endpoint == r.endpoint && VankRoute.KeySet(args) == r.argConverters.Keys then Err(NoNameAttribute)
               else Err(NoUrlForNotFoundClass))
  {
    if endpoint == r.endpoint && VankRoute.KeySet(args) == r.argConverters.Keys {
      assert args != [];
      assert args[0].0 in VankRoute.KeySet(args);
    }
  }

  /** Each placeholder's value as URL text. */
  function Shown<V>(r: Route<V>, args: VankRoute.Args<V>): (m: map<string, string>)
    ensures m.Keys == r.argConverters.Keys * VankRoute.KeySet(args)
  {
    map n | n in r.argConverters && n in VankRoute.KeySet(args) :: r.argConverters[n].toUrl(VankRoute.Lookup(args, n))
  }

  /** `url_for` as evidently intended: the template with each placeholder
      replaced by its value's URL text, whatever the converter objects
      define. */
  function UrlForFixed<V>(r: Route<V>, endpoint: string, args: VankRoute.Args<V>): (res: Result<string, UrlError>)
    ensures res.Ok? <==> endpoint == r.endpoint && VankRoute.KeySet(args) == r.argConverters.Keys
  {
    if endpoint != r.endpoint || VankRoute.KeySet(args) != r.argConverters.Keys then Err(UrlForNotFound)
    else Ok(Render(r.pieces, Shown(r, args)))
  }

  /** The corrected `url_for` inverts matching: the URL it builds matches the
      route in full, capturing exactly each argument's URL text, whenever
      those texts are delimited in the pattern. */
  lemma UrlForFixedMatches<V>(r: Route<V>, args: VankRoute.Args<V>)
    requires ValidRoute(r) && VankRoute.KeySet(args) == r.argConverters.Keys
    requires Delimited(r.pieces, Shown(r, args), [], true)
    ensures UrlForFixed(r, r.endpoint, args).Ok?
    ensures var url := UrlForFixed(r, r.endpoint, args).value;
      MatchPath(r, url) == Some(Hit(Shown(r, args), |url|))
  {
    var vals := Shown(r, args);
    var url := Render(r.pieces, vals);
    RoundTrip(r.pieces, vals, [], true);
    assert url + [] == url;
    assert Restrict(vals, GroupNames(r.pieces)) == vals;
  }

  /** For a route without placeholders `url_for`, as written or not, gives
      the template itself. */
  lemma UrlForStatic<V>(r: Route<V>)
    requires r.argConverters.Keys == {}
    ensures UrlForAsWritten(r, r.endpoint, []) == Ok(r.path)
    ensures UrlFor(r, r.endpoint, []) == Ok(r.path)
  {
  }
}
