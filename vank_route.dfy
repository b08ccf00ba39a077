/** Routes of the `vank` generation: the `{variable:converter}` template
    scanner, the compiled route (`BaseRoute.setup`), method parsing, argument
    conversion and reverse URL construction (`Route.url_reflect`).

    Converters come from the settings, so the registry is a parameter: each
    converter has a `name` attribute, a pattern, and two conversion
    functions. `urllib.parse.quote` is a parameter too. */
module VankRoute {
  import opened Wrappers
  import opened Text
  import opened Patterns
  import opened TemplateScan

  /** The eight methods a route may allow. */
  const AllMethods: seq<string> := ["GET", "POST", "PUT", "PATCH", "DELETE", "HEAD", "OPTIONS", "TRACE"]

  // ---- scanning a template ------------------------------------------------

  /** One item yielded by `parse_route_rule`: `(None, text)` or
      `(converter, variable)`. */
  datatype RulePart = Static(text: string) | Dynamic(converter: string, variable: string)

  /** The items yielded before the generator stopped, and whether it stopped
      by raising SyntaxError on a stray brace. */
  datatype Scanned = Scanned(parts: seq<RulePart>, strayBrace: bool)

  /** What the generator yields from index `start` on. */
  function PartsFrom(rule: string, start: nat): Scanned
    requires start <= |rule|
    decreases |rule| - start
  {
    if start < |rule| then
      match Search(rule, start)
      case Some(f) =>
        var rest := PartsFrom(rule, f.end);
        Scanned(StaticIf(rule[f.begin..f.brace]) + [Dynamic(f.converter, f.variable)] + rest.parts, rest.strayBrace)
      case None => Trailing(rule[start..])
    else Scanned([], false)
  }

  /** A static item is yielded only for non-empty text. */
  function StaticIf(t: string): seq<RulePart> {
    if t == [] then [] else [Static(t)]
  }

  /** The text after the last placeholder: yielded, unless it holds a brace. */
  function Trailing(rest: string): Scanned {
    if '{' in rest || '}' in rest then Scanned([], true) else Scanned([Static(rest)], false)
  }

  /** `parse_route_rule`, run to completion. */
  method ParseRouteRule(rule: string) returns (parts: seq<RulePart>, strayBrace: bool)
    ensures Scanned(parts, strayBrace) == PartsFrom(rule, 0)
  {
    var start := 0;
    parts := [];
    while start < |rule|
      invariant start <= |rule|
      invariant PartsFrom(rule, 0) == Prefixed(parts, PartsFrom(rule, start))
      decreases |rule| - start
    {
      var res := Search(rule, start);
      if res.None? {
        break;
      }
      var f := res.value;
      var text := rule[f.begin..f.brace];
      PartsFromStep(rule, start, f, parts);
      ghost var next := parts + StaticIf(text) + [Dynamic(f.converter, f.variable)];
      if f.begin < f.brace {
        parts := parts + [Static(text)];
      } else {
        assert parts + StaticIf(text) == parts;
      }
      parts := parts + [Dynamic(f.converter, f.variable)];
      assert parts == next;
      start := f.end;
    }
    strayBrace := false;
    if start < |rule| {
      var rest := rule[start..];
      if '{' in rest || '}' in rest {
        strayBrace := true;
      } else {
        parts := parts + [Static(rest)];
      }
    }
    PartsFromEnd(rule, start, parts);
  }

  /** The yielded items `ys` followed by what the generator yields next. */
  function Prefixed(ys: seq<RulePart>, later: Scanned): Scanned {
    Scanned(ys + later.parts, later.strayBrace)
  }

  lemma PartsFromStep(rule: string, start: nat, f: Found, ys: seq<RulePart>)
    requires start < |rule| && Search(rule, start) == Some(f)
    ensures Prefixed(ys, PartsFrom(rule, start)) ==
      Prefixed(ys + StaticIf(rule[f.begin..f.brace]) + [Dynamic(f.converter, f.variable)], PartsFrom(rule, f.end))
  {
    var later := PartsFrom(rule, f.end);
    assert PartsFrom(rule, start).parts == StaticIf(rule[f.begin..f.brace]) + [Dynamic(f.converter, f.variable)] + later.parts;
    assert ys + (StaticIf(rule[f.begin..f.brace]) + [Dynamic(f.converter, f.variable)] + later.parts)
        == ys + StaticIf(rule[f.begin..f.brace]) + [Dynamic(f.converter, f.variable)] + later.parts;
  }

  lemma PartsFromEnd(rule: string, start: nat, ys: seq<RulePart>)
    requires start <= |rule| && (start < |rule| ==> Search(rule, start).None?)
    ensures Prefixed(ys, PartsFrom(rule, start)) ==
      if start < |rule| then
        (if '{' in rule[start..] || '}' in rule[start..] then Scanned(ys, true) else Scanned(ys + [Static(rule[start..])], false))
      else Scanned(ys, false)
  {
    assert ys + [] == ys;
  }

  /** The scanner yields no empty static text, and every dynamic item names
      an identifier variable and converter. */
  lemma {:induction false} PartsWellFormed(rule: string, start: nat)
    requires start <= |rule|
    ensures forall i :: 0 <= i < |PartsFrom(rule, start).parts| ==>
      match PartsFrom(rule, start).parts[i]
      case Static(t) => t != []
      case Dynamic(c, v) => IsIdent(c) && IsIdent(v)
    decreases |rule| - start
  {
    if start < |rule| {
      match Search(rule, start)
      case Some(f) =>
        SearchFound(rule, start);
        PartsWellFormed(rule, f.end);
      case None =>
    }
  }

  /** Text before a `{` that opens no placeholder is dropped: when such a
      brace lies between the scan position and the next placeholder, the
      static item yielded before that placeholder starts after the last
      such brace, and everything from the scan position up to it is lost. */
  lemma DropsTextBeforeBrace(rule: string, start: nat, k: nat)
    requires start < |rule| && Search(rule, start).Some?
    requires start <= k < Search(rule, start).value.brace && rule[k] == '{'
    ensures var f := Search(rule, start).value;
      PlaceholderAt(rule, k).None? && k < f.begin && rule[f.begin - 1] == '{' &&
      (forall j :: f.begin <= j < f.brace ==> rule[j] != '{') &&
      PartsFrom(rule, start).parts ==
        StaticIf(rule[f.begin..f.brace]) + [Dynamic(f.converter, f.variable)] + PartsFrom(rule, f.end).parts
  {
    SearchFound(rule, start);
  }

  /** `/a{b}/{x:int}` scans as the static `b}/` and the placeholder `x`:
      the `/a{` before the stray brace is lost. */
  lemma DropsTextExample(s: string)
    requires s == "/a{b}/{x:int}"
    ensures PartsFrom(s, 0) == Scanned([Static("b}/"), Dynamic("int", "x")], false)
  {
    ExampleSearch();
    PartsFromFound(s, 0, Found(3, 6, "x", "int", 13));
    ExampleStatic();
  }

  lemma ExampleStatic()
    ensures StaticIf("/a{b}/{x:int}"[3..6]) + [Dynamic("int", "x")] == [Static("b}/"), Dynamic("int", "x")]
  {
    var text := "/a{b}/{x:int}"[3..6];
    assert text == "b}/";
    assert StaticIf(text) == [Static(text)];
  }

  lemma PartsFromFound(rule: string, start: nat, f: Found)
    requires start < |rule| && Search(rule, start) == Some(f) && f.end == |rule|
    ensures PartsFrom(rule, start) == Scanned(StaticIf(rule[f.begin..f.brace]) + [Dynamic(f.converter, f.variable)], false)
  {
    var ys := StaticIf(rule[f.begin..f.brace]) + [Dynamic(f.converter, f.variable)];
    assert ys + [] == ys;
  }

  lemma ExampleSearch()
    ensures Search("/a{b}/{x:int}", 0) == Some(Found(3, 6, "x", "int", 13))
  {
    var s := "/a{b}/{x:int}";
    ExampleBraces();
    ExamplePlaceholders();
    assert MatchAt(s, 0).None?;
    assert MatchAt(s, 1).None?;
    assert MatchAt(s, 2).None?;
    assert MatchAt(s, 3) == Some(Found(3, 6, "x", "int", 13));
  }

  lemma ExampleBraces()
    ensures FirstBrace("/a{b}/{x:int}", 0) == Some(2)
    ensures FirstBrace("/a{b}/{x:int}", 1) == Some(2)
    ensures FirstBrace("/a{b}/{x:int}", 2) == Some(2)
    ensures FirstBrace("/a{b}/{x:int}", 3) == Some(6)
  {
    var s := "/a{b}/{x:int}";
    assert s[0] == '/' && s[1] == 'a' && s[2] == '{' && s[3] == 'b' && s[4] == '}' && s[5] == '/' && s[6] == '{';
  }

  lemma ExamplePlaceholders()
    ensures PlaceholderAt("/a{b}/{x:int}", 2).None?
    ensures PlaceholderAt("/a{b}/{x:int}", 6) == Some(Token("x", "int", 13))
  {
    var s := "/a{b}/{x:int}";
    assert s[3] == 'b' && s[4] == '}';
    assert IdentRun(s, 4) == 0;
    assert IdentRun(s, 3) == 1;
    PlaceholderAtText(s, 6, "x", "int");
    assert s[6..13] == PlaceholderText("x", "int");
  }

  // ---- compiling a route ----------------------------------------------------

  /** A converter object: its `name` attribute, its `regex`, and its two
      conversion methods. */
  datatype Converter<!V> = Converter(name: string, pat: Pattern, toPython: string -> V, toUrl: V -> string)

  datatype RouteError =
    | BadMethods                     // the method list is refused (its message reads `self.endpoint` before it is set)
    | DuplicateVariable(variable: string)
    | UnknownConverter(converter: string)
    | StrayBrace                     // SyntaxError from the trailing text

  /** The state `setup` builds: the regex pieces, and the argument converters
      in insertion order. */
  datatype Built<!V> = Built(pieces: seq<Piece>, names: seq<string>, converters: map<string, Converter<V>>)

  /** What `setup` does with the items from `parts` on, given what it has
      built so far. */
  function BuildFrom<V>(parts: seq<RulePart>, registry: map<string, Converter<V>>, acc: Built<V>): Result<Built<V>, RouteError>
    decreases |parts|
  {
    if parts == [] then Ok(acc)
    else
      match parts[0]
      case Static(t) =>
        if t == [] then Err(UnknownConverter([]))  // `(None, "")` falls through to the converter lookup
        else BuildFrom(parts[1..], registry, acc.(pieces := acc.pieces + [Lit(t)]))
      case Dynamic(c, v) =>
        if v in acc.converters then Err(DuplicateVariable(v))
        else if c !in registry then Err(UnknownConverter(c))
        else BuildFrom(parts[1..], registry,
                       Built(acc.pieces + [Group(v, registry[c].pat)], acc.names + [v], acc.converters[v := registry[c]]))
  }

  /** `setup`'s loop over the scanned items. */
  method Setup<V>(parts: seq<RulePart>, registry: map<string, Converter<V>>) returns (r: Result<Built<V>, RouteError>)
    ensures r == BuildFrom(parts, registry, Built([], [], map[]))
  {
    var acc: Built<V> := Built([], [], map[]);
    var i := 0;
    while i < |parts|
      invariant i <= |parts|
      invariant BuildFrom(parts, registry, Built([], [], map[])) == BuildFrom(parts[i..], registry, acc)
    {
      assert parts[i..][1..] == parts[i + 1..];
      match parts[i] {
        case Static(t) =>
          if t == [] {
            return Err(UnknownConverter([]));
          }
          acc := acc.(pieces := acc.pieces + [Lit(t)]);
        case Dynamic(c, v) =>
          if v in acc.converters {
            return Err(DuplicateVariable(v));
          }
          if c !in registry {
            return Err(UnknownConverter(c));
          }
          acc := Built(acc.pieces + [Group(v, registry[c].pat)], acc.names + [v], acc.converters[v := registry[c]]);
      }
      i := i + 1;
    }
    assert parts[i..] == [];
    return Ok(acc);
  }

  function Variables(parts: seq<RulePart>): seq<string> {
    if parts == [] then []
    else (if parts[0].Dynamic? then [parts[0].variable] else []) + Variables(parts[1..])
  }

  /** The static texts are non-empty and every converter is registered. */
  predicate PartsOk<V>(parts: seq<RulePart>, registry: map<string, Converter<V>>) {
    parts == [] ||
    ((match parts[0]
      case Static(t) => t != []
      case Dynamic(c, _) => c in registry) &&
     PartsOk(parts[1..], registry))
  }

  /** The piece each item becomes: an escaped literal or a named group with
      the converter's pattern. */
  function PiecesOf<V>(parts: seq<RulePart>, registry: map<string, Converter<V>>): seq<Piece>
    requires PartsOk(parts, registry)
  {
    if parts == [] then []
    else
      (match parts[0]
       case Static(t) => [Lit(t)]
       case Dynamic(c, v) => [Group(v, registry[c].pat)])
      + PiecesOf(parts[1..], registry)
  }

  /** Each variable with its converter. */
  function ConvertersOf<V>(parts: seq<RulePart>, registry: map<string, Converter<V>>): map<string, Converter<V>>
    requires PartsOk(parts, registry)
  {
    if parts == [] then map[]
    else
      var rest := ConvertersOf(parts[1..], registry);
      match parts[0]
      case Static(_) => rest
      case Dynamic(c, v) => map[v := registry[c]] + rest
  }

  /** `setup` succeeds exactly when the static texts are non-empty, every
      converter is registered and no variable repeats; it then appends each
      item's piece in order and records each variable, in order, with its
      converter. */
  lemma {:induction false} BuildFromOk<V>(parts: seq<RulePart>, registry: map<string, Converter<V>>, acc: Built<V>)
    requires Distinct(acc.names) && acc.converters.Keys == Elems(acc.names)
    ensures BuildFrom(parts, registry, acc).Ok? <==> PartsOk(parts, registry) && Distinct(acc.names + Variables(parts))
    ensures BuildFrom(parts, registry, acc).Ok? ==>
      BuildFrom(parts, registry, acc).value ==
        Built(acc.pieces + PiecesOf(parts, registry), acc.names + Variables(parts), acc.converters + ConvertersOf(parts, registry))
    decreases |parts|, 2
  {
    if parts == [] {
      assert acc.names + [] == acc.names && acc.pieces + [] == acc.pieces;
      assert acc.converters + map[] == acc.converters;
    } else if parts[0].Static? {
      BuildFromStatic(parts, registry, acc);
    } else {
      BuildFromDynamic(parts, registry, acc);
    }
  }

  lemma BuildFromStatic<V>(parts: seq<RulePart>, registry: map<string, Converter<V>>, acc: Built<V>)
    requires Distinct(acc.names) && acc.converters.Keys == Elems(acc.names)
    requires parts != [] && parts[0].Static?
    ensures BuildFrom(parts, registry, acc).Ok? <==> PartsOk(parts, registry) && Distinct(acc.names + Variables(parts))
    ensures BuildFrom(parts, registry, acc).Ok? ==>
      BuildFrom(parts, registry, acc).value ==
        Built(acc.pieces + PiecesOf(parts, registry), acc.names + Variables(parts), acc.converters + ConvertersOf(parts, registry))
    decreases |parts|, 1
  {
    var t := parts[0].text;
    if t == [] {
      assert !PartsOk(parts, registry);
    } else {
      var tail := parts[1..];
      var acc' := acc.(pieces := acc.pieces + [Lit(t)]);
      assert BuildFrom(parts, registry, acc) == BuildFrom(tail, registry, acc');
      assert Variables(parts) == Variables(tail);
      assert PartsOk(parts, registry) == PartsOk(tail, registry);
      BuildFromOk(tail, registry, acc');
      if PartsOk(tail, registry) && Distinct(acc.names + Variables(tail)) {
        var r := BuildFrom(tail, registry, acc').value;
        assert PiecesOf(parts, registry) == [Lit(t)] + PiecesOf(tail, registry);
        assert ConvertersOf(parts, registry) == ConvertersOf(tail, registry);
        Regroup(r.pieces, acc.pieces, [Lit(t)], PiecesOf(tail, registry));
        assert r == Built(acc.pieces + PiecesOf(parts, registry), acc.names + Variables(parts),
                          acc.converters + ConvertersOf(parts, registry));
      }
    }
  }

  lemma BuildFromDynamic<V>(parts: seq<RulePart>, registry: map<string, Converter<V>>, acc: Built<V>)
    requires Distinct(acc.names) && acc.converters.Keys == Elems(acc.names)
    requires parts != [] && parts[0].Dynamic?
    ensures BuildFrom(parts, registry, acc).Ok? <==> PartsOk(parts, registry) && Distinct(acc.names + Variables(parts))
    ensures BuildFrom(parts, registry, acc).Ok? ==>
      BuildFrom(parts, registry, acc).value ==
        Built(acc.pieces + PiecesOf(parts, registry), acc.names + Variables(parts), acc.converters + ConvertersOf(parts, registry))
    decreases |parts|, 1
  {
    var c, v := parts[0].converter, parts[0].variable;
    var names := acc.names + [v];
    assert Variables(parts) == [v] + Variables(parts[1..]);
    assert acc.names + Variables(parts) == names + Variables(parts[1..]);
    if v in acc.converters {
      DistinctAppendIn(acc.names, v, Variables(parts[1..]));
    } else if c in registry {
      BuildFromRegistered(parts, registry, acc);
    }
  }

  lemma BuildFromRegistered<V>(parts: seq<RulePart>, registry: map<string, Converter<V>>, acc: Built<V>)
    requires Distinct(acc.names) && acc.converters.Keys == Elems(acc.names)
    requires parts != [] && parts[0].Dynamic? && parts[0].converter in registry && parts[0].variable !in acc.converters
    requires acc.names + Variables(parts) == acc.names + [parts[0].variable] + Variables(parts[1..])
    ensures BuildFrom(parts, registry, acc).Ok? <==> PartsOk(parts, registry) && Distinct(acc.names + Variables(parts))
    ensures BuildFrom(parts, registry, acc).Ok? ==>
      BuildFrom(parts, registry, acc).value ==
        Built(acc.pieces + PiecesOf(parts, registry), acc.names + Variables(parts), acc.converters + ConvertersOf(parts, registry))
    decreases |parts|, 0
  {
    var c, v := parts[0].converter, parts[0].variable;
    DistinctAppend(acc.names, v);
    var tail := parts[1..];
    var acc' := Built(acc.pieces + [Group(v, registry[c].pat)], acc.names + [v], acc.converters[v := registry[c]]);
    assert BuildFrom(parts, registry, acc) == BuildFrom(tail, registry, acc');
    assert PartsOk(parts, registry) == PartsOk(tail, registry);
    BuildFromOk(tail, registry, acc');
    if PartsOk(tail, registry) {
      assert PiecesOf(parts, registry) == [Group(v, registry[c].pat)] + PiecesOf(tail, registry);
      assert ConvertersOf(parts, registry) == map[v := registry[c]] + ConvertersOf(tail, registry);
      Regroup(acc'.pieces + PiecesOf(tail, registry), acc.pieces, [Group(v, registry[c].pat)], PiecesOf(tail, registry));
      MapRegroup(acc.converters, v, registry[c], ConvertersOf(tail, registry));
    }
  }

  lemma Regroup<T>(s: seq<T>, x: seq<T>, y: seq<T>, z: seq<T>)
    requires s == (x + y) + z
    ensures s == x + (y + z)
  {
  }

  lemma MapRegroup<K, W>(m: map<K, W>, k: K, w: W, rest: map<K, W>)
    ensures m[k := w] + rest == m + (map[k := w] + rest)
  {
  }

  /** A compiled route. */
  datatype Route<!V> = Route(
    path: string,
    methods: seq<string>,
    endpoint: string,
    pieces: seq<Piece>,
    argNames: seq<string>,
    argConverters: map<string, Converter<V>>)

  /** What every compiled route satisfies. */
  predicate ValidRoute<V>(r: Route<V>) {
    Distinct(r.argNames) && r.argConverters.Keys == Elems(r.argNames)
  }

  /** ... and whose pattern captures exactly its placeholders, once each. */
  predicate CompiledRoute<V>(r: Route<V>) {
    ValidRoute(r) && GroupNames(r.pieces) == r.argConverters.Keys && DistinctNames(r.pieces)
  }

  /** `__parse_methods`. */
  function ParseMethods(methods: seq<string>): (r: Result<seq<string>, RouteError>)
    ensures methods == [] ==> r == Ok(AllMethods)
    ensures methods != [] ==>
      (r.Ok? <==> (set m | m in methods :: Upper(m)) < Elems(AllMethods)) &&
      (r.Ok? ==> r.value == seq(|methods|, i requires 0 <= i < |methods| => Upper(methods[i])))
    ensures r.Ok? ==> forall m :: m in r.value ==> m in AllMethods
  {
    if methods == [] then Ok(AllMethods)
    else
      var up := seq(|methods|, i requires 0 <= i < |methods| => Upper(methods[i]));
      assert Elems(up) == (set m | m in methods :: Upper(m)) by {
        forall m | m in methods ensures Upper(m) in up {
          var i :| 0 <= i < |methods| && methods[i] == m;
          assert up[i] == Upper(m);
        }
        forall x | x in up ensures x in (set m | m in methods :: Upper(m)) {
          var i :| 0 <= i < |up| && up[i] == x;
          assert methods[i] in methods;
        }
      }
      if Elems(up) < Elems(AllMethods) then
        SubsetMembers(up, AllMethods);
        Ok(up)
      else Err(BadMethods)
  }

  lemma SubsetMembers(xs: seq<string>, ys: seq<string>)
    requires Elems(xs) <= Elems(ys)
    ensures forall m :: m in xs ==> m in ys
  {
    forall m | m in xs ensures m in ys {
      assert m in Elems(xs);
    }
  }

  /** Listing all eight methods is refused: the check is a strict subset. */
  lemma AllEightRefused()
    ensures ParseMethods(AllMethods) == Err(BadMethods)
  {
    var up := (set m | m in AllMethods :: Upper(m));
    forall m | m in AllMethods ensures Upper(m) == m {
      UpperOfUpper(m);
    }
    assert up == Elems(AllMethods);
  }

  /** The route built from a template, or the first error: the method list is
      parsed first, then the items are compiled as the scanner yields them,
      and a stray brace in the trailing text is raised last. */
  function RouteOf<V>(path: string, methods: seq<string>, endpoint: string, registry: map<string, Converter<V>>): Result<Route<V>, RouteError> {
    match ParseMethods(methods)
    case Err(e) => Err(e)
    case Ok(ms) =>
      var scanned := PartsFrom(path, 0);
      match BuildFrom(scanned.parts, registry, Built([], [], map[]))
      case Err(e) => Err(e)
      case Ok(b) =>
        if scanned.strayBrace then Err(StrayBrace)
        else Ok(Route(path, ms, endpoint, b.pieces, b.names, b.converters))
  }

  /** `BaseRoute.__init__`. */
  method NewRoute<V>(path: string, methods: seq<string>, endpoint: string, registry: map<string, Converter<V>>)
    returns (r: Result<Route<V>, RouteError>)
    ensures r == RouteOf(path, methods, endpoint, registry)
  {
    var ms := ParseMethods(methods);
    if ms.Err? {
      return Err(ms.error);
    }
    var parts, stray := ParseRouteRule(path);
    var built := Setup(parts, registry);
    if built.Err? {
      return Err(built.error);
    }
    if stray {
      return Err(StrayBrace);
    }
    var b := built.value;
    return Ok(Route(path, ms.value, endpoint, b.pieces, b.names, b.converters));
  }

  /** A compiled route: its argument converters are its placeholders, in
      order and without repeats; its pattern's groups are the placeholders,
      each with its converter's pattern, and every static piece is an escaped
      literal. */
  lemma RouteOfValid<V>(path: string, methods: seq<string>, endpoint: string, registry: map<string, Converter<V>>)
    requires RouteOf(path, methods, endpoint, registry).Ok?
    ensures var r := RouteOf(path, methods, endpoint, registry).value;
      var parts := PartsFrom(path, 0).parts;
      CompiledRoute(r) && PartsOk(parts, registry) &&
      r.argNames == Variables(parts) &&
      r.pieces == PiecesOf(parts, registry) &&
      r.argConverters == ConvertersOf(parts, registry) &&
      GroupNames(r.pieces) == r.argConverters.Keys &&
      NoRawLit(r.pieces)
  {
    var parts := PartsFrom(path, 0).parts;
    var empty: Built<V> := Built([], [], map[]);
    BuildFromOk(parts, registry, empty);
    var b := BuildFrom(parts, registry, empty).value;
    assert [] + Variables(parts) == Variables(parts);
    assert [] + PiecesOf(parts, registry) == PiecesOf(parts, registry);
    assert map[] + ConvertersOf(parts, registry) == ConvertersOf(parts, registry);
    assert b.names == Variables(parts) && b.pieces == PiecesOf(parts, registry);
    PiecesOfShape(parts, registry);
    PiecesOfDistinct(parts, registry);
  }

  /** Distinct placeholder names give distinct group names. */
  lemma {:induction false} PiecesOfDistinct<V>(parts: seq<RulePart>, registry: map<string, Converter<V>>)
    requires PartsOk(parts, registry) && Distinct(Variables(parts))
    ensures DistinctNames(PiecesOf(parts, registry))
    decreases |parts|
  {
    if parts != [] {
      var tail := parts[1..];
      var head := if parts[0].Dynamic? then [parts[0].variable] else [];
      assert Variables(parts) == head + Variables(tail);
      DistinctSuffix(head, Variables(tail));
      PiecesOfDistinct(tail, registry);
      PiecesOfShape(tail, registry);
      var ps := PiecesOf(parts, registry);
      assert ps == [ps[0]] + PiecesOf(tail, registry);
      if parts[0].Dynamic? {
        DistinctHead(parts[0].variable, Variables(tail));
      }
      DistinctNamesCons(ps[0], PiecesOf(tail, registry));
    }
  }

  lemma PiecesOfShape<V>(parts: seq<RulePart>, registry: map<string, Converter<V>>)
    requires PartsOk(parts, registry)
    ensures GroupNames(PiecesOf(parts, registry)) == Elems(Variables(parts)) == ConvertersOf(parts, registry).Keys
    ensures NoRawLit(PiecesOf(parts, registry))
  {
    PiecesOfNames(parts, registry);
    ConvertersOfKeys(parts, registry);
    PiecesOfNoRawLit(parts, registry);
  }

  /** The group names of the pattern are the variables. */
  lemma {:induction false} PiecesOfNames<V>(parts: seq<RulePart>, registry: map<string, Converter<V>>)
    requires PartsOk(parts, registry)
    ensures GroupNames(PiecesOf(parts, registry)) == Elems(Variables(parts))
    decreases |parts|
  {
    if parts != [] {
      PiecesOfNames(parts[1..], registry);
      var ps := PiecesOf(parts, registry);
      assert ps[1..] == PiecesOf(parts[1..], registry);
      ElemsCons(if parts[0].Dynamic? then [parts[0].variable] else [], Variables(parts[1..]));
    }
  }

  /** The converter table is keyed by the variables. */
  lemma {:induction false} ConvertersOfKeys<V>(parts: seq<RulePart>, registry: map<string, Converter<V>>)
    requires PartsOk(parts, registry)
    ensures ConvertersOf(parts, registry).Keys == Elems(Variables(parts))
    decreases |parts|
  {
    if parts != [] {
      ConvertersOfKeys(parts[1..], registry);
      ElemsCons(if parts[0].Dynamic? then [parts[0].variable] else [], Variables(parts[1..]));
    }
  }

  /** Every literal of the pattern is escaped. */
  lemma {:induction false} PiecesOfNoRawLit<V>(parts: seq<RulePart>, registry: map<string, Converter<V>>)
    requires PartsOk(parts, registry)
    ensures NoRawLit(PiecesOf(parts, registry))
    decreases |parts|
  {
    if parts != [] {
      PiecesOfNoRawLit(parts[1..], registry);
      var ps := PiecesOf(parts, registry);
      var rest := PiecesOf(parts[1..], registry);
      forall i | 0 <= i < |ps| ensures !ps[i].RawLit? {
        if i > 0 { assert ps[i] == rest[i - 1]; }
      }
    }
  }

  // ---- using a route --------------------------------------------------------

  /** `check_method`: case-insensitive membership. */
  predicate CheckMethod<V>(r: Route<V>, verb: string) {
    Upper(verb) in r.methods
  }

  lemma CheckMethodIgnoresCase<V>(r: Route<V>, verb: string)
    ensures CheckMethod(r, verb) == CheckMethod(r, Upper(verb))
  {
    UpperIsUpper(verb);
    UpperOfUpper(Upper(verb));
  }

  /** `route_pattern.match(path)`: anchored at both ends. */
  function MatchPath<V>(r: Route<V>, path: string): Option<Hit> {
    MatchFrom(r.pieces, path, true)
  }

  /** `convert_arguments`: each captured value goes through its converter;
      a name without one is a KeyError (for one of the names returned). */
  function ConvertArguments<V>(r: Route<V>, args: map<string, string>): (res: Result<map<string, V>, set<string>>)
    ensures res.Ok? <==> args.Keys <= r.argConverters.Keys
    ensures res.Ok? ==> res.value.Keys == args.Keys
    ensures res.Ok? ==> forall n :: n in args ==> res.value[n] == r.argConverters[n].toPython(args[n])
    ensures res.Err? ==> res.error == args.Keys - r.argConverters.Keys && res.error != {}
  {
    if args.Keys <= r.argConverters.Keys then
      Ok(map n | n in args :: r.argConverters[n].toPython(args[n]))
    else
      assert args.Keys - r.argConverters.Keys != {} by {
        var n :| n in args.Keys && n !in r.argConverters.Keys;
        assert n in args.Keys - r.argConverters.Keys;
      }
      Err(args.Keys - r.argConverters.Keys)
  }

  /** On a compiled route the conversion after a match never raises: the
      pattern captures exactly the placeholders. */
  lemma MatchedArgumentsConvert<V>(r: Route<V>, path: string)
    requires CompiledRoute(r) && MatchPath(r, path).Some?
    ensures MatchPath(r, path).value.groups.Keys == r.argConverters.Keys
    ensures ConvertArguments(r, MatchPath(r, path).value.groups).Ok?
  {
    MatchSound(r.pieces, path, true);
  }

  // ---- reverse URL ----------------------------------------------------------

  /** Keyword arguments in call order. */
  type Args<V> = seq<(string, V)>

  function KeySet<V>(args: Args<V>): set<string> {
    if args == [] then {} else {args[0].0} + KeySet(args[1..])
  }

  function Lookup<V>(args: Args<V>, n: string): V
    requires n in KeySet(args)
  {
    if args[0].0 == n then args[0].1 else Lookup(args[1..], n)
  }

  /** `arguments.pop(n)`: the arguments without the one named `n`. */
  function Pop<V>(args: Args<V>, n: string): (r: Args<V>)
    ensures KeySet(r) == KeySet(args) - {n}
  {
    if args == [] then []
    else if args[0].0 == n then Pop(args[1..], n)
    else [args[0]] + Pop(args[1..], n)
  }

  /** The arguments whose names are not in `names`, in order. */
  function Without<V>(args: Args<V>, names: set<string>): (r: Args<V>)
    ensures KeySet(r) == KeySet(args) - names
  {
    if args == [] then []
    else if args[0].0 in names then Without(args[1..], names)
    else
      var w := Without(args[1..], names);
      assert ([args[0]] + w)[1..] == w;
      [args[0]] + w
  }

  lemma WithoutNone<V>(args: Args<V>)
    ensures Without(args, {}) == args
  {
    if args != [] {
      WithoutNone(args[1..]);
      assert [args[0]] + args[1..] == args;
    }
  }

  /** Each placeholder replaced, one converter at a time in insertion order,
      by the converter's text for its value. */
  function Substituted<V>(url: string, names: seq<string>, convs: map<string, Converter<V>>, args: Args<V>): string
    requires forall n :: n in names ==> n in convs && n in KeySet(args)
    decreases |names|
  {
    if names == [] then url
    else
      var n := names[0];
      var raw := PlaceholderText(n, convs[n].name);
      Substituted(Replace(url, raw, convs[n].toUrl(Lookup(args, n))), names[1..], convs, args)
  }

  /** `k=v` pairs joined with `&`. */
  function Query<V>(args: Args<V>, show: V -> string): string {
    Join(seq(|args|, i requires 0 <= i < |args| => args[i].0 + "=" + show(args[i].1)), "&")
  }

  /** The URL `url_reflect` builds, before quoting. */
  function ReflectText<V>(r: Route<V>, args: Args<V>, show: V -> string): string
    requires ValidRoute(r) && r.argConverters.Keys <= KeySet(args)
  {
    var url := Substituted(r.path, r.argNames, r.argConverters, args);
    var q := Query(Without(args, r.argConverters.Keys), show);
    if q == [] then url else url + "?" + q
  }

  /** `Route.url_reflect`: the endpoint must be this route's and the
      arguments must cover every placeholder. */
  function Reflect<V>(r: Route<V>, endpoint: string, args: Args<V>, show: V -> string, quote: string -> string): (res: Option<string>)
    requires ValidRoute(r)
    ensures res.Some? <==> endpoint == r.endpoint && r.argConverters.Keys <= KeySet(args)
  {
    if endpoint == r.endpoint && r.argConverters.Keys <= KeySet(args) then
      Some(quote(ReflectText(r, args, show)))
    else None
  }

  /** Without placeholders and extra arguments the URL is the template. */
  lemma ReflectStatic<V>(r: Route<V>, show: V -> string, quote: string -> string)
    requires ValidRoute(r) && r.argNames == []
    ensures Reflect(r, r.endpoint, [], show, quote) == Some(quote(r.path))
  {
    assert Query<V>([], show) == [];
  }

  /** Extra arguments become the query string, in call order. */
  lemma ReflectQuery<V>(r: Route<V>, args: Args<V>, show: V -> string)
    requires ValidRoute(r) && r.argConverters.Keys <= KeySet(args)
    requires Without(args, r.argConverters.Keys) != []
    ensures ReflectText(r, args, show) ==
      Substituted(r.path, r.argNames, r.argConverters, args) + "?" + Query(Without(args, r.argConverters.Keys), show)
  {
    QueryNonEmpty(Without(args, r.argConverters.Keys), show);
  }

  lemma QueryNonEmpty<V>(args: Args<V>, show: V -> string)
    requires args != []
    ensures Query(args, show) != []
  {
    var items := seq(|args|, i requires 0 <= i < |args| => args[i].0 + "=" + show(args[i].1));
    if |items| == 1 {
      assert Join(items, "&") == items[0];
    } else {
      assert Join(items, "&") == items[0] + "&" + Join(items[1..], "&");
    }
  }

  /** The `url_reflect` loop: pops each placeholder's argument and rewrites
      the URL, then appends what is left as the query. */
  method UrlReflect<V>(r: Route<V>, endpoint: string, args: Args<V>, show: V -> string, quote: string -> string)
    returns (res: Option<string>)
    requires ValidRoute(r)
    ensures res == Reflect(r, endpoint, args, show, quote)
  {
    if !(endpoint == r.endpoint && r.argConverters.Keys <= KeySet(args)) {
      return None;
    }
    var url := r.path;
    var rest := args;
    var i := 0;
    WithoutNone(args);
    assert r.argNames[..0] == [];
    assert Elems(r.argNames[..0]) == {};
    while i < |r.argNames|
      invariant i <= |r.argNames|
      invariant Substituted(r.path, r.argNames, r.argConverters, args)
             == Substituted(url, r.argNames[i..], r.argConverters, args)
      invariant rest == Without(args, Elems(r.argNames[..i]))
    {
      var n := r.argNames[i];
      ReflectStep(r, args, i);
      var value := r.argConverters[n].toUrl(Lookup(rest, n));
      url := Replace(url, PlaceholderText(n, r.argConverters[n].name), value);
      rest := Pop(rest, n);
      i := i + 1;
    }
    assert r.argNames[..i] == r.argNames;
    var q := Query(rest, show);
    if q != [] {
      url := url + "?" + q;
    }
    return Some(quote(url));
  }

  /** One turn of the `url_reflect` loop: the next placeholder's argument is
      still there with its original value, one substitution moves the
      remaining names on by one, and popping it removes one more name. */
  lemma ReflectStep<V>(r: Route<V>, args: Args<V>, i: nat)
    requires ValidRoute(r) && r.argConverters.Keys <= KeySet(args) && i < |r.argNames|
    ensures var n, gone := r.argNames[i], Elems(r.argNames[..i]);
      n in KeySet(Without(args, gone)) && Lookup(Without(args, gone), n) == Lookup(args, n) &&
      Pop(Without(args, gone), n) == Without(args, Elems(r.argNames[..i + 1])) &&
      forall url :: Substituted(url, r.argNames[i..], r.argConverters, args) ==
        Substituted(Replace(url, PlaceholderText(n, r.argConverters[n].name), r.argConverters[n].toUrl(Lookup(args, n))),
                    r.argNames[i + 1..], r.argConverters, args)
  {
    var n, gone := r.argNames[i], Elems(r.argNames[..i]);
    DistinctAt(r.argNames, i);
    LookupWithout(args, gone, n);
    PopWithout(args, gone, n);
    assert r.argNames[i..][1..] == r.argNames[i + 1..];
    assert r.argNames[..i + 1] == r.argNames[..i] + [n];
    ElemsAppend(r.argNames[..i], n);
  }

  /** An argument not yet popped is still found with its original value. */
  lemma LookupWithout<V>(args: Args<V>, gone: set<string>, n: string)
    requires n in KeySet(args) && n !in gone
    ensures n in KeySet(Without(args, gone)) && Lookup(Without(args, gone), n) == Lookup(args, n)
  {
    if args[0].0 != n {
      LookupWithout(args[1..], gone, n);
      if args[0].0 !in gone {
        var w := Without(args[1..], gone);
        assert Without(args, gone) == [args[0]] + w;
        assert ([args[0]] + w)[1..] == w;
      }
    } else {
      assert Without(args, gone)[0] == args[0];
    }
  }

  lemma {:induction false} PopWithout<V>(args: Args<V>, gone: set<string>, n: string)
    ensures Pop(Without(args, gone), n) == Without(args, gone + {n})
  {
    if args != [] {
      PopWithout(args[1..], gone, n);
      var w := Without(args[1..], gone);
      if args[0].0 !in gone {
        assert Without(args, gone) == [args[0]] + w;
        assert ([args[0]] + w)[1..] == w;
        if args[0].0 != n {
          var w' := Without(args[1..], gone + {n});
          assert Without(args, gone + {n}) == [args[0]] + w';
        }
      }
    }
  }
}
