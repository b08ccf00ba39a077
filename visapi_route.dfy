/** Routes of the `visapi` generation: the `{variable:convertor}` scanner
    (`get_rule_part`), the compiled pattern (`Route.build`), the conversion
    of captures (`Route.convert`) and the three `get_callback` variants of
    HTTP, WebSocket and group routes.

    A group route holds the routes of the group router it was mounted from,
    so `Router.__call__` over a list of routes is defined here too
    (`CallAll`): a group route's lookup is a lookup in its members. */
module VisapiRoute {
  import opened Wrappers
  import opened Text
  import opened Patterns
  import opened TemplateScan
  import opened Callables
  import opened VisapiConvertor

  // ---- scanning a rule ------------------------------------------------------

  /** One triple yielded by `get_rule_part`: `(static, var, convertor)` for a
      placeholder, `(rest, None, None)` for the text after the last one. */
  datatype RuleItem = Placed(text: string, variable: string, convertor: string) | Rest(text: string)

  /** The items yielded before the generator stopped, and whether it stopped
      by raising SyntaxError on a stray brace. */
  datatype Scanned = Scanned(items: seq<RuleItem>, strayBrace: bool)

  /** What the generator yields from index `start` on. */
  function ItemsFrom(rule: string, start: nat): Scanned
    requires start <= |rule|
    decreases |rule| - start
  {
    if start < |rule| then
      match Search(rule, start)
      case Some(f) =>
        var rest := ItemsFrom(rule, f.end);
        Scanned([Placed(rule[f.begin..f.brace], f.variable, f.converter)] + rest.items, rest.strayBrace)
      case None => Trailing(rule[start..])
    else Scanned([], false)
  }

  /** The text after the last placeholder: yielded, unless it holds a brace. */
  function Trailing(rest: string): Scanned {
    if '{' in rest || '}' in rest then Scanned([], true) else Scanned([Rest(rest)], false)
  }

  /** `get_rule_part`, run to completion. */
  method GetRuleParts(rule: string) returns (items: seq<RuleItem>, strayBrace: bool)
    ensures Scanned(items, strayBrace) == ItemsFrom(rule, 0)
  {
    var start := 0;
    items := [];
    while start < |rule|
      invariant start <= |rule|
      invariant ItemsFrom(rule, 0) == Prefixed(items, ItemsFrom(rule, start))
      decreases |rule| - start
    {
      var res := Search(rule, start);
      if res.None? {
        break;
      }
      var f := res.value;
      ItemsFromStep(rule, start, f, items);
      items := items + [Placed(rule[f.begin..f.brace], f.variable, f.converter)];
      start := f.end;
    }
    strayBrace := false;
    if start < |rule| {
      var rest := rule[start..];
      if '{' in rest || '}' in rest {
        strayBrace := true;
      } else {
        items := items + [Rest(rest)];
      }
    }
    ItemsFromEnd(rule, start, items);
  }

  /** The yielded items `ys` followed by what the generator yields next. */
  function Prefixed(ys: seq<RuleItem>, later: Scanned): Scanned {
    Scanned(ys + later.items, later.strayBrace)
  }

  lemma ItemsFromStep(rule: string, start: nat, f: Found, ys: seq<RuleItem>)
    requires start < |rule| && Search(rule, start) == Some(f)
    ensures Prefixed(ys, ItemsFrom(rule, start)) ==
      Prefixed(ys + [Placed(rule[f.begin..f.brace], f.variable, f.converter)], ItemsFrom(rule, f.end))
  {
    var later := ItemsFrom(rule, f.end);
    var item := Placed(rule[f.begin..f.brace], f.variable, f.converter);
    assert ItemsFrom(rule, start).items == [item] + later.items;
    assert ys + ([item] + later.items) == ys + [item] + later.items;
  }

  lemma ItemsFromEnd(rule: string, start: nat, ys: seq<RuleItem>)
    requires start <= |rule| && (start < |rule| ==> Search(rule, start).None?)
    ensures Prefixed(ys, ItemsFrom(rule, start)) ==
      if start < |rule| then
        (if '{' in rule[start..] || '}' in rule[start..] then Scanned(ys, true) else Scanned(ys + [Rest(rule[start..])], false))
      else Scanned(ys, false)
  {
    assert ys + [] == ys;
  }

  /** Unlike the `vank` scanner, an empty static text is still yielded; each
      placeholder names identifiers; its static text holds no `{`; and only
      the last item can be the trailing text, which holds no brace. */
  lemma {:induction false} ItemsWellFormed(rule: string, start: nat)
    requires start <= |rule|
    ensures var items := ItemsFrom(rule, start).items;
      forall i :: 0 <= i < |items| ==> ItemOk(items[i], i == |items| - 1)
    decreases |rule| - start
  {
    if start < |rule| {
      match Search(rule, start)
      case Some(f) =>
        PlacedOk(rule, start);
        ItemsWellFormed(rule, f.end);
        assert var items := ItemsFrom(rule, f.end).items;
          forall i :: 0 <= i < |items| ==> ItemOk(items[i], i == |items| - 1);
        var later := ItemsFrom(rule, f.end).items;
        var items := ItemsFrom(rule, start).items;
        assert items == [Placed(rule[f.begin..f.brace], f.variable, f.converter)] + later;
        forall i | 0 <= i < |items| ensures ItemOk(items[i], i == |items| - 1) {
          if i > 0 {
            assert items[i] == later[i - 1];
            assert ItemOk(later[i - 1], i - 1 == |later| - 1);
          }
        }
      case None =>
        var rest := rule[start..];
        assert ItemsFrom(rule, start) == Trailing(rest);
    }
  }

  predicate ItemOk(item: RuleItem, last: bool) {
    match item
    case Placed(t, v, c) => IsIdent(v) && IsIdent(c) && '{' !in t
    case Rest(t) => last && t != [] && '{' !in t && '}' !in t
  }

  lemma PlacedOk(rule: string, start: nat)
    requires start < |rule| && Search(rule, start).Some?
    ensures var f := Search(rule, start).value;
      ItemOk(Placed(rule[f.begin..f.brace], f.variable, f.converter), false)
  {
    var f := Search(rule, start).value;
    SearchIdents(rule, start);
    NoBraceSlice(rule, f.begin, f.brace);
  }

  /** The placeholder found names identifiers, and the text before it
      holds no `{`. */
  lemma SearchIdents(rule: string, start: nat)
    requires start < |rule| && Search(rule, start).Some?
    ensures var f := Search(rule, start).value;
      IsIdent(f.variable) && IsIdent(f.converter) && f.begin <= f.brace <= |rule| &&
      forall k :: f.begin <= k < f.brace ==> rule[k] != '{'
  {
    var f := Search(rule, start).value;
    SearchFound(rule, start);
    var token := PlaceholderAt(rule, f.brace);
    assert token == Some(Token(f.variable, f.converter, f.end));
  }

  lemma NoBraceSlice(rule: string, b: nat, e: nat)
    requires b <= e <= |rule| && forall k :: b <= k < e ==> rule[k] != '{'
    ensures '{' !in rule[b..e]
  {
    var t := rule[b..e];
    forall k | 0 <= k < |t|
      ensures t[k] != '{'
    {
      assert t[k] == rule[b + k];
    }
  }

  /** A rule without braces is yielded as one trailing text. */
  lemma NoBraceRule(rule: string)
    requires rule != [] && '{' !in rule && '}' !in rule
    ensures ItemsFrom(rule, 0) == Scanned([Rest(rule)], false)
  {
    if Search(rule, 0).Some? {
      SearchFound(rule, 0);
    }
    assert rule[0..] == rule;
  }

  // ---- convertors -----------------------------------------------------------

  /** The registry `convertors`. */
  datatype Conv = IntConv | StrConv | FloatConv

  function ConvertorNamed(name: string): Option<Conv> {
    if name == "int" then Some(IntConv)
    else if name == "str" then Some(StrConv)
    else if name == "float" then Some(FloatConv)
    else None
  }

  function PatternOf(c: Conv): Pattern {
    match c
    case IntConv => IntRegex
    case StrConv => StrRegex
    case FloatConv => FloatRegex
  }

  /** A keyword argument handed to the view: a text as captured, or a
      converted number. */
  datatype Value = Text(text: string) | IntValue(n: int) | FloatValue(f: Float)

  /** `convertor.to_python(value)`. */
  function ToPython(c: Conv, s: string): Result<Value, ConvertError> {
    match c
    case IntConv => (match IntToPython(s) case Ok(n) => Ok(IntValue(n)) case Err(e) => Err(e))
    case StrConv => Ok(Text(s))
    case FloatConv => (match FloatToPython(s) case Ok(f) => Ok(FloatValue(f)) case Err(e) => Err(e))
  }

  /** Whatever a convertor's expression captures, its `to_python` accepts. */
  lemma AcceptedConverts(c: Conv, s: string)
    requires Accepts(PatternOf(c), s)
    ensures ToPython(c, s).Ok?
    ensures c.StrConv? ==> ToPython(c, s) == Ok(Text(s))
    ensures c.IntConv? ==> ToPython(c, s) == Ok(IntValue(IntToPython(s).value))
  {
    match c
    case IntConv => IntAcceptedConverts(s);
    case StrConv =>
    case FloatConv => FloatAcceptedConverts(s);
  }

  // ---- compiling a rule -----------------------------------------------------

  /** What `build` leaves behind: the pattern pieces after the `^`, and
      `self.dynamic` (its keys in insertion order, and each one's
      convertor). */
  datatype Compiled = Compiled(pieces: seq<Piece>, order: seq<string>, dynamic: map<string, Conv>)

  datatype BuildError =
    | EmptyMethods                     // AssertionError: no HTTP methods
    | DuplicateVariable(variable: string)
    | UnknownConvertor(name: string)
    | StrayBrace                       // SyntaxError from the trailing text

  const Empty: Compiled := Compiled([], [], map[])

  /** `build`'s loop: every static text is escaped and appended, then the
      placeholder's group, unless its variable repeats or its convertor is
      not registered. */
  function BuildFrom(items: seq<RuleItem>, acc: Compiled): Result<Compiled, BuildError>
    decreases |items|
  {
    if items == [] then Ok(acc)
    else
      match items[0]
      case Rest(t) => BuildFrom(items[1..], acc.(pieces := acc.pieces + [Lit(t)]))
      case Placed(t, v, c) =>
        if v in acc.dynamic then Err(DuplicateVariable(v))
        else
          match ConvertorNamed(c)
          case None => Err(UnknownConvertor(c))
          case Some(k) =>
            BuildFrom(items[1..], Compiled(acc.pieces + [Lit(t), Group(v, PatternOf(k))], acc.order + [v], acc.dynamic[v := k]))
  }

  /** `build`: the generator's SyntaxError on a stray brace surfaces only
      after every placeholder has been processed. */
  function BuildOf(rule: string): Result<Compiled, BuildError> {
    var scanned := ItemsFrom(rule, 0);
    match BuildFrom(scanned.items, Empty)
    case Err(e) => Err(e)
    case Ok(c) => if scanned.strayBrace then Err(StrayBrace) else Ok(c)
  }

  method Build(rule: string) returns (r: Result<Compiled, BuildError>)
    ensures r == BuildOf(rule)
  {
    var items, strayBrace := GetRuleParts(rule);
    var acc := Empty;
    var i := 0;
    while i < |items|
      invariant i <= |items|
      invariant BuildFrom(items, Empty) == BuildFrom(items[i..], acc)
    {
      assert items[i..][1..] == items[i + 1..];
      match items[i] {
        case Rest(t) =>
          acc := acc.(pieces := acc.pieces + [Lit(t)]);
        case Placed(t, v, c) =>
          if v in acc.dynamic {
            return Err(DuplicateVariable(v));
          }
          var k := ConvertorNamed(c);
          if k.None? {
            return Err(UnknownConvertor(c));
          }
          acc := Compiled(acc.pieces + [Lit(t), Group(v, PatternOf(k.value))], acc.order + [v], acc.dynamic[v := k.value]);
      }
      i := i + 1;
    }
    assert items[i..] == [];
    if strayBrace {
      return Err(StrayBrace);
    }
    return Ok(acc);
  }

  /** The placeholder variables, in order. */
  function Variables(items: seq<RuleItem>): seq<string> {
    if items == [] then []
    else (if items[0].Placed? then [items[0].variable] else []) + Variables(items[1..])
  }

  /** Every placeholder names a registered convertor. */
  predicate Known(items: seq<RuleItem>) {
    forall i :: 0 <= i < |items| && items[i].Placed? ==> ConvertorNamed(items[i].convertor).Some?
  }

  /** What a compiled rule satisfies: each variable once, the groups are
      exactly the variables, every static text is escaped, and every group
      carries its convertor's expression. */
  predicate WellBuilt(c: Compiled) {
    Distinct(c.order) && c.dynamic.Keys == Elems(c.order) &&
    GroupNames(c.pieces) == c.dynamic.Keys && DistinctNames(c.pieces) && NoRawLit(c.pieces) &&
    forall i :: 0 <= i < |c.pieces| && c.pieces[i].Group? ==>
      c.pieces[i].name in c.dynamic && c.pieces[i].pat == PatternOf(c.dynamic[c.pieces[i].name])
  }

  /** `build` succeeds exactly when every convertor is registered and no
      variable repeats, and what it builds is well formed, with the
      variables in template order. */
  lemma BuildOfSpec(rule: string)
    ensures var scanned := ItemsFrom(rule, 0);
      BuildOf(rule).Ok? <==> !scanned.strayBrace && Known(scanned.items) && Distinct(Variables(scanned.items))
    ensures BuildOf(rule).Ok? ==>
      WellBuilt(BuildOf(rule).value) && BuildOf(rule).value.order == Variables(ItemsFrom(rule, 0).items)
  {
    var items := ItemsFrom(rule, 0).items;
    assert Distinct<string>([]) && Elems<string>([]) == {};
    BuildFromOk(items, Empty);
    assert [] + Variables(items) == Variables(items);
  }

  lemma {:induction false} BuildFromOk(items: seq<RuleItem>, acc: Compiled)
    requires WellBuilt(acc)
    ensures BuildFrom(items, acc).Ok? <==> Known(items) && Distinct(acc.order + Variables(items))
    ensures BuildFrom(items, acc).Ok? ==>
      WellBuilt(BuildFrom(items, acc).value) && BuildFrom(items, acc).value.order == acc.order + Variables(items)
    decreases |items|, 1
  {
    if items == [] {
      assert acc.order + [] == acc.order;
    } else if items[0].Rest? {
      BuildFromRest(items, acc);
    } else {
      BuildFromPlaced(items, acc);
    }
  }

  lemma BuildFromRest(items: seq<RuleItem>, acc: Compiled)
    requires WellBuilt(acc) && items != [] && items[0].Rest?
    ensures BuildFrom(items, acc).Ok? <==> Known(items) && Distinct(acc.order + Variables(items))
    ensures BuildFrom(items, acc).Ok? ==>
      WellBuilt(BuildFrom(items, acc).value) && BuildFrom(items, acc).value.order == acc.order + Variables(items)
    decreases |items|, 0
  {
    var tail := items[1..];
    var acc' := acc.(pieces := acc.pieces + [Lit(items[0].text)]);
    assert BuildFrom(items, acc) == BuildFrom(tail, acc');
    assert Variables(items) == Variables(tail);
    assert Known(items) <==> Known(tail) by {
      assert forall i :: 1 <= i < |items| ==> items[i] == tail[i - 1];
    }
    AppendLit(acc, items[0].text);
    BuildFromOk(tail, acc');
  }

  lemma BuildFromPlaced(items: seq<RuleItem>, acc: Compiled)
    requires WellBuilt(acc) && items != [] && items[0].Placed?
    ensures BuildFrom(items, acc).Ok? <==> Known(items) && Distinct(acc.order + Variables(items))
    ensures BuildFrom(items, acc).Ok? ==>
      WellBuilt(BuildFrom(items, acc).value) && BuildFrom(items, acc).value.order == acc.order + Variables(items)
    decreases |items|, 0
  {
    var tail := items[1..];
    var v := items[0].variable;
    assert Variables(items) == [v] + Variables(tail);
    assert acc.order + Variables(items) == acc.order + [v] + Variables(tail);
    assert Known(items) <==> ConvertorNamed(items[0].convertor).Some? && Known(tail) by {
      assert forall i :: 1 <= i < |items| ==> items[i] == tail[i - 1];
    }
    if v in acc.dynamic {
      DistinctAppendIn(acc.order, v, Variables(tail));
    } else if ConvertorNamed(items[0].convertor).Some? {
      var k := ConvertorNamed(items[0].convertor).value;
      AppendGroup(acc, items[0].text, v, k);
      BuildFromOk(tail, Compiled(acc.pieces + [Lit(items[0].text), Group(v, PatternOf(k))], acc.order + [v], acc.dynamic[v := k]));
    }
  }

  /** An escaped static text keeps a compiled rule well formed. */
  lemma AppendLit(acc: Compiled, t: string)
    requires WellBuilt(acc)
    ensures WellBuilt(acc.(pieces := acc.pieces + [Lit(t)]))
  {
    var ps := acc.pieces + [Lit(t)];
    GroupNamesAppend(acc.pieces, [Lit(t)]);
    assert GroupNames([Lit(t)]) == {};
    assert forall i :: 0 <= i < |acc.pieces| ==> ps[i] == acc.pieces[i];
  }

  /** So does a static text followed by the group of a new variable. */
  lemma AppendGroup(acc: Compiled, t: string, v: string, k: Conv)
    requires WellBuilt(acc) && v !in acc.dynamic
    ensures WellBuilt(Compiled(acc.pieces + [Lit(t), Group(v, PatternOf(k))], acc.order + [v], acc.dynamic[v := k]))
  {
    var ps := acc.pieces + [Lit(t), Group(v, PatternOf(k))];
    GroupNamesAppend(acc.pieces, [Lit(t), Group(v, PatternOf(k))]);
    assert GroupNames([Lit(t), Group(v, PatternOf(k))]) == {v} by {
      var g := Group(v, PatternOf(k));
      assert [Lit(t), g][1..] == [g];
      assert GroupNames([Lit(t), g]) == GroupNames([g]);
      assert [g][1..] == [];
      assert GroupNames([g]) == {v} + GroupNames([]);
    }
    assert forall i :: 0 <= i < |acc.pieces| ==> ps[i] == acc.pieces[i];
    DistinctAppend(acc.order, v);
    assert DistinctNames(ps) by {
      forall i, j | 0 <= i < j < |ps| && ps[i].Group? && ps[j].Group? ensures ps[i].name != ps[j].name {
        if j == |ps| - 1 {
          assert ps[i].name in GroupNames(acc.pieces);
        }
      }
    }
  }

  // ---- converting captures --------------------------------------------------

  /** Every value as the text it was captured as. */
  function Texts(d: map<string, string>): (r: map<string, Value>)
    ensures r.Keys == d.Keys
  {
    map n | n in d :: Text(d[n])
  }

  datatype CallError =
    | MethodNotAllowed(verb: string, allowed: seq<string>)
    | NotFound(path: string)
    | MissingKey(key: string)           // KeyError: a variable with no captured value
    | BadValue(key: string)             // ValueError from `to_python`

  /** `convert`: each of the route's own variables, in insertion order,
      replaced by its convertor's value. */
  function ConvertAll(order: seq<string>, convs: map<string, Conv>, d: map<string, string>, out: map<string, Value>)
    : (r: Result<map<string, Value>, CallError>)
    ensures r.Err? ==> r.error.MissingKey? || r.error.BadValue?
  {
    if order == [] then Ok(out)
    else
      var key := order[0];
      if key !in d || key !in convs then Err(MissingKey(key))
      else
        match ToPython(convs[key], d[key])
        case Err(_) => Err(BadValue(key))
        case Ok(v) => ConvertAll(order[1..], convs, d, out[key := v])
  }

  method Convert(c: Compiled, d: map<string, string>) returns (r: Result<map<string, Value>, CallError>)
    ensures r == ConvertAll(c.order, c.dynamic, d, Texts(d))
  {
    var out := Texts(d);
    var i := 0;
    while i < |c.order|
      invariant i <= |c.order|
      invariant ConvertAll(c.order, c.dynamic, d, Texts(d)) == ConvertAll(c.order[i..], c.dynamic, d, out)
    {
      var key := c.order[i];
      assert c.order[i..][0] == key && c.order[i..][1..] == c.order[i + 1..];
      if key !in d || key !in c.dynamic {
        return Err(MissingKey(key));
      }
      var v := ToPython(c.dynamic[key], d[key]);
      if v.Err? {
        return Err(BadValue(key));
      }
      out := out[key := v.value];
      i := i + 1;
    }
    assert c.order[i..] == [];
    return Ok(out);
  }

  /** When every variable has a value its convertor's expression accepts,
      conversion succeeds: the variables hold their converted values and
      every other key keeps what it had. */
  lemma {:induction false} ConvertAllOk(order: seq<string>, convs: map<string, Conv>, d: map<string, string>, out: map<string, Value>)
    requires forall n :: n in order ==> n in convs && n in d && Accepts(PatternOf(convs[n]), d[n])
    ensures ConvertAll(order, convs, d, out).Ok?
    ensures var r := ConvertAll(order, convs, d, out).value;
      r.Keys == out.Keys + Elems(order) &&
      (forall n :: n in order ==> ToPython(convs[n], d[n]) == Ok(r[n])) &&
      (forall n :: n in r && n !in order ==> r[n] == out[n])
    decreases |order|
  {
    if order != [] {
      var key := order[0];
      AcceptedConverts(convs[key], d[key]);
      var out' := out[key := ToPython(convs[key], d[key]).value];
      ConvertAllOk(order[1..], convs, d, out');
      assert forall n :: n in order <==> n == key || n in order[1..];
      ElemsCons([key], order[1..]);
    }
  }

  // ---- routes ---------------------------------------------------------------

  datatype Kind =
    | Http(methods: seq<string>, callback: Callback)
    | WebSocket(callback: Callback)
    | Mounted(members: seq<Route>)        // a group route: the mounted group router's routes

  /** A compiled route; `name` is what the route object stores. */
  datatype Route = Route(kind: Kind, rule: string, name: Option<string>, compiled: Compiled)

  /** The class attribute `protocol`. */
  function Protocol(k: Kind): Option<string> {
    match k
    case Http(_, _) => Some("http")
    case WebSocket(_) => Some("websocket")
    case Mounted(_) => None
  }

  /** The pattern ends with `$` unless `partial_route`, which only a group
      route sets. */
  predicate Anchored(k: Kind) { !k.Mounted? }

  /** `HTTPRoute(rule_path, methods, callback, name)`: the methods are
      upper-cased and must not be empty, then the rule is built. */
  function NewHttp(rule: string, methods: seq<string>, callback: Callback, name: Option<string>): Result<Route, BuildError> {
    var up := seq(|methods|, i requires 0 <= i < |methods| => Upper(methods[i]));
    if up == [] then Err(EmptyMethods)
    else
      match BuildOf(rule)
      case Err(e) => Err(e)
      case Ok(c) => Ok(Route(Http(up, callback), rule, name, c))
  }

  function NewWebSocket(rule: string, callback: Callback, name: Option<string>): Result<Route, BuildError> {
    match BuildOf(rule)
    case Err(e) => Err(e)
    case Ok(c) => Ok(Route(WebSocket(callback), rule, name, c))
  }

  /** `GroupRoute(group.prefix, group, group.name)`. */
  function NewGroup(prefix: string, members: seq<Route>, name: Option<string>): Result<Route, BuildError> {
    match BuildOf(prefix)
    case Err(e) => Err(e)
    case Ok(c) => Ok(Route(Mounted(members), prefix, name, c))
  }

  /** Every route, and every route inside a group, is well formed. */
  predicate ValidRoute(r: Route)
    decreases r
  {
    WellBuilt(r.compiled) && (r.kind.Mounted? ==> AllValid(r.kind.members))
  }

  predicate AllValid(rs: seq<Route>)
    decreases rs
  {
    forall i :: 0 <= i < |rs| ==> ValidRoute(rs[i])
  }

  /** Every route the constructors return is valid, HTTP methods are upper
      case and non-empty, and nothing else is accepted. */
  lemma NewRouteValid(rule: string, methods: seq<string>, callback: Callback, name: Option<string>, members: seq<Route>)
    requires AllValid(members)
    ensures NewHttp(rule, methods, callback, name).Ok? <==> methods != [] && BuildOf(rule).Ok?
    ensures NewHttp(rule, methods, callback, name).Ok? ==>
      var r := NewHttp(rule, methods, callback, name).value;
      ValidRoute(r) && |r.kind.methods| == |methods| > 0 &&
      forall i :: 0 <= i < |methods| ==> r.kind.methods[i] == Upper(methods[i])
    ensures NewWebSocket(rule, callback, name).Ok? <==> BuildOf(rule).Ok?
    ensures NewWebSocket(rule, callback, name).Ok? ==> ValidRoute(NewWebSocket(rule, callback, name).value)
    ensures NewGroup(rule, members, name).Ok? ==> ValidRoute(NewGroup(rule, members, name).value)
    ensures NewHttp(rule, [], callback, name) == Err(EmptyMethods)
  {
    BuildOfSpec(rule);
  }

  // ---- looking a path up ----------------------------------------------------

  /** The keyword arguments a router passes down: `protocol`,
      `path_match_end`, `method` and `dynamic`, each possibly absent. */
  datatype Extra = Extra(protocol: Option<string>, pathMatchEnd: Option<nat>, verb: Option<string>, dynamic: Option<map<string, string>>)

  /** The wrapper `get_callback` returns: the view and the keyword arguments
      it will be called with. */
  datatype Handler = Handler(callback: Callback, args: map<string, Value>)

  /** `None`, a handler, or an exception. */
  datatype Outcome = Miss | Handled(handler: Handler) | Raised(error: CallError)

  /** `path[path_match_end:]`, which is empty past the end. */
  function Suffix(path: string, extra: Extra): (r: string)
    ensures |r| <= |path| && r == path[|path| - |r|..]
    ensures extra.pathMatchEnd.GetOr(0) <= |path| ==> |r| == |path| - extra.pathMatchEnd.GetOr(0)
    ensures extra.pathMatchEnd.GetOr(0) > |path| ==> r == []
  {
    var e := extra.pathMatchEnd.GetOr(0);
    if e <= |path| then path[e..] else []
  }

  /** A protocol was passed and it is not the route's. */
  predicate OtherProtocol(k: Kind, extra: Extra) {
    extra.protocol.Some? && Some(extra.protocol.value) != Protocol(k)
  }

  /** The group's captures, overridden by the route's own, converted. */
  function Finish(c: Compiled, callback: Callback, extra: Extra, groups: map<string, string>): Outcome {
    var merged := extra.dynamic.GetOr(map[]) + groups;
    match ConvertAll(c.order, c.dynamic, merged, Texts(merged))
    case Err(e) => Raised(e)
    case Ok(args) => Handled(Handler(callback, args))
  }

  /** `get_callback` of the three route classes. */
  function GetCallback(r: Route, path: string, extra: Extra): Outcome
    decreases r
  {
    match r.kind
    case Http(methods, callback) =>
      if OtherProtocol(r.kind, extra) then Miss
      else
        (match MatchFrom(r.compiled.pieces, Suffix(path, extra), true)
         case None => Miss
         case Some(h) =>
           var verb := Upper(extra.verb.GetOr("GET"));
           if verb !in methods then Raised(MethodNotAllowed(verb, methods))
           else Finish(r.compiled, callback, extra, h.groups))
    case WebSocket(callback) =>
      if OtherProtocol(r.kind, extra) then Miss
      else
        (match MatchFrom(r.compiled.pieces, Suffix(path, extra), true)
         case None => Miss
         case Some(h) => Finish(r.compiled, callback, extra, h.groups))
    case Mounted(members) =>
      match MatchFrom(r.compiled.pieces, path, false)
      case None => Miss
      case Some(h) =>
        var inner := CallAll(members, path, Forwarded(extra, h));
        if inner.Raised? && inner.error.NotFound? then Miss else inner
  }

  /** What a group route passes to its router: the end of its prefix match
      and its captures, replacing any it was given. */
  function Forwarded(extra: Extra, h: Hit): Extra {
    extra.(pathMatchEnd := Some(h.end), dynamic := Some(h.groups))
  }

  /** `Router.__call__` over a route list: the first route that does not
      return None decides; NotFound when none does. */
  function CallAll(routes: seq<Route>, path: string, extra: Extra): Outcome
    decreases routes
  {
    if routes == [] then Raised(NotFound(path))
    else
      var o := GetCallback(routes[0], path, extra);
      if o.Miss? then CallAll(routes[1..], path, extra) else o
  }

  // ---- what a lookup promises -------------------------------------------------

  /** An HTTP route: None for another protocol or a path suffix its pattern
      does not match; MethodNotAllowed with its own methods when the
      upper-cased method (GET by default) is not one of them; otherwise a
      handler for its view whose arguments are the group's captures
      overridden by the route's own, with only the route's own converted. */
  lemma HttpCallback(r: Route, path: string, extra: Extra)
    requires ValidRoute(r) && r.kind.Http?
    ensures var o := GetCallback(r, path, extra);
      var m := MatchFrom(r.compiled.pieces, Suffix(path, extra), true);
      var verb := Upper(extra.verb.GetOr("GET"));
      (o.Miss? <==> OtherProtocol(r.kind, extra) || m.None?) &&
      (o.Raised? <==> !OtherProtocol(r.kind, extra) && m.Some? && verb !in r.kind.methods) &&
      (o.Raised? ==> o.error == MethodNotAllowed(verb, r.kind.methods)) &&
      (o.Handled? ==> o.handler.callback == r.kind.callback && Delivered(r.compiled, extra, m.value.groups, o.handler.args))
  {
    var m := MatchFrom(r.compiled.pieces, Suffix(path, extra), true);
    if !OtherProtocol(r.kind, extra) && m.Some? {
      FinishFound(r.compiled, r.kind.callback, extra, Suffix(path, extra), true);
    }
  }

  /** The arguments handed to the view: every captured key and every key the
      group passed; the route's own variables converted from their own
      captures, every other key the group's text. */
  predicate Delivered(c: Compiled, extra: Extra, groups: map<string, string>, args: map<string, Value>) {
    var outer := extra.dynamic.GetOr(map[]);
    args.Keys == outer.Keys + c.dynamic.Keys &&
    forall n :: n in args ==>
      if n in c.dynamic then n in groups && ToPython(c.dynamic[n], groups[n]) == Ok(args[n])
      else n in outer && args[n] == Text(outer[n])
  }

  lemma FinishFound(c: Compiled, callback: Callback, extra: Extra, s: string, anchored: bool)
    requires WellBuilt(c) && MatchFrom(c.pieces, s, anchored).Some?
    ensures var g := MatchFrom(c.pieces, s, anchored).value.groups;
      var o := Finish(c, callback, extra, g);
      o.Handled? && o.handler.callback == callback && Delivered(c, extra, g, o.handler.args)
  {
    var h := MatchFrom(c.pieces, s, anchored).value;
    MatchSound(c.pieces, s, anchored);
    ConformsGroups(c.pieces, h.groups, s[..h.end]);
    var merged := extra.dynamic.GetOr(map[]) + h.groups;
    forall n | n in c.order
      ensures n in c.dynamic && n in merged && Accepts(PatternOf(c.dynamic[n]), merged[n]) && merged[n] == h.groups[n]
    {
      assert n in Elems(c.order);
      NamesAt(c.pieces);
      var i :| 0 <= i < |c.pieces| && c.pieces[i].Group? && c.pieces[i].name == n;
    }
    ConvertAllOk(c.order, c.dynamic, merged, Texts(merged));
    assert Elems(c.order) == c.dynamic.Keys;
  }

  /** A WebSocket route behaves the same way but never looks at the method. */
  lemma WebSocketCallback(r: Route, path: string, extra: Extra, verb: Option<string>)
    requires ValidRoute(r) && r.kind.WebSocket?
    ensures var o := GetCallback(r, path, extra);
      var m := MatchFrom(r.compiled.pieces, Suffix(path, extra), true);
      (o.Miss? <==> OtherProtocol(r.kind, extra) || m.None?) &&
      (o.Handled? <==> !OtherProtocol(r.kind, extra) && m.Some?) &&
      (o.Handled? ==> o.handler.callback == r.kind.callback && Delivered(r.compiled, extra, m.value.groups, o.handler.args))
    ensures GetCallback(r, path, extra.(verb := verb)) == GetCallback(r, path, extra)
  {
    var m := MatchFrom(r.compiled.pieces, Suffix(path, extra), true);
    if !OtherProtocol(r.kind, extra) && m.Some? {
      FinishFound(r.compiled, r.kind.callback, extra, Suffix(path, extra), true);
    }
  }

  /** A group route matches its prefix against the start of the whole path,
      never against what is left after an enclosing group's prefix: what it
      was given as `path_match_end` and `dynamic` is ignored, so a group
      mounted inside a group only answers paths that begin with its own
      prefix. It answers None when the prefix does not match or its router
      raised NotFound, and passes anything else through. */
  lemma GroupCallback(r: Route, path: string, extra: Extra, end: Option<nat>, dynamic: Option<map<string, string>>)
    requires ValidRoute(r) && r.kind.Mounted?
    ensures var o := GetCallback(r, path, extra);
      var m := MatchFrom(r.compiled.pieces, path, false);
      (m.None? ==> o.Miss?) &&
      (m.Some? ==>
        var inner := CallAll(r.kind.members, path, Forwarded(extra, m.value));
        o == if inner.Raised? && inner.error.NotFound? then Miss else inner)
    ensures GetCallback(r, path, extra.(pathMatchEnd := end, dynamic := dynamic)) == GetCallback(r, path, extra)
  {
  }

  /** A router's lookup: the first route that does not answer None decides,
      and NotFound with the path is raised exactly when every route answers
      None. */
  lemma CallAllFirst(routes: seq<Route>, path: string, extra: Extra, i: nat)
    requires i < |routes| && !GetCallback(routes[i], path, extra).Miss?
    requires forall j :: 0 <= j < i ==> GetCallback(routes[j], path, extra).Miss?
    ensures CallAll(routes, path, extra) == GetCallback(routes[i], path, extra)
  {
    if i > 0 {
      assert forall j :: 0 <= j < i - 1 ==> routes[1..][j] == routes[j + 1];
      CallAllFirst(routes[1..], path, extra, i - 1);
    }
  }

  /** No route answers NotFound itself: a group swallows its router's
      NotFound, so a router raises NotFound exactly when every route answers
      None. */
  lemma NeverNotFound(r: Route, path: string, extra: Extra)
    ensures !(GetCallback(r, path, extra).Raised? && GetCallback(r, path, extra).error.NotFound?)
  {
    if !r.kind.Mounted? {
      var merged := extra.dynamic.GetOr(map[]);
      match MatchFrom(r.compiled.pieces, Suffix(path, extra), true)
      case None =>
      case Some(h) =>
        var m := merged + h.groups;
        var c := ConvertAll(r.compiled.order, r.compiled.dynamic, m, Texts(m));
    }
  }

  lemma {:induction false} CallAllMiss(routes: seq<Route>, path: string, extra: Extra)
    ensures CallAll(routes, path, extra).Raised? && CallAll(routes, path, extra).error.NotFound? <==>
      forall j :: 0 <= j < |routes| ==> GetCallback(routes[j], path, extra).Miss?
    decreases |routes|
  {
    if routes != [] {
      NeverNotFound(routes[0], path, extra);
      CallAllMiss(routes[1..], path, extra);
      assert forall j :: 0 <= j < |routes| - 1 ==> routes[1..][j] == routes[j + 1];
    }
  }
}
