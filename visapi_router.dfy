/** The `visapi` router: registration of HTTP and WebSocket routes with
    their path namespace (one entry per protocol and rule) and name set,
    mounting of group routers, and the lookup `__call__`.

    A router's state is given by `Table`; the class `Router` updates it in
    place and each of its methods is tied to a function on `Table`, about
    which the lemmas below are stated. */
module VisapiRouter {
  import opened Wrappers
  import opened Text
  import opened Callables
  import opened VisapiRoute

  datatype Table = Table(nameSet: set<string>, pathNamespace: set<string>, routes: seq<Route>)

  datatype RouterError =
    | BadRule                  // AssertionError: the rule does not start with `/`
    | PathTaken                // ValueError: protocol and rule already registered
    | CompileError(error: BuildError)
    | MissingParameters        // ValueError: the view cannot take the placeholders
    | NotCoroutine             // ValueError: a WebSocket view must be a coroutine function

  /** The path namespace entry `f"{protocol}:{rule_path}"`. */
  function Namespace(protocol: string, rule: string): string {
    protocol + ":" + rule
  }

  predicate StartsWithSlash(rule: string) { |rule| > 0 && rule[0] == '/' }

  /** `name or callback.__name__`. */
  function DisplayName(name: Option<string>, callback: Callback): string {
    if name.Some? && name.value != [] then name.value else callback.name
  }

  /** `_validate_route_param`: the rule must start with `/` and its entry
      must be new; the entry and the name are then recorded. A repeated name
      is not an error. */
  function Reserve(s: Table, rule: string, protocol: string, name: string): Result<Table, RouterError> {
    if !StartsWithSlash(rule) then Err(BadRule)
    else if Namespace(protocol, rule) in s.pathNamespace then Err(PathTaken)
    else Ok(s.(pathNamespace := s.pathNamespace + {Namespace(protocol, rule)}, nameSet := s.nameSet + {name}))
  }

  /** `_validate_parameter`: the view takes every placeholder by name, or
      takes `**kwargs`. */
  predicate ParametersOk(callback: Callback, c: Compiled) {
    AcceptsArguments(callback, c.dynamic.Keys) || AcceptsVarKeyword(callback)
  }

  /** The route is recorded only after the namespace entry and the name. */
  function Append(s: Table, callback: Callback, built: Result<Route, BuildError>): (Table, Option<RouterError>) {
    match built
    case Err(e) => (s, Some(CompileError(e)))
    case Ok(r) =>
      if !ParametersOk(callback, r.compiled) then (s, Some(MissingParameters))
      else (s.(routes := s.routes + [r]), None)
  }

  /** `route(rule_path, methods, name)(callback)`: the route object receives
      the raw `name`, the name set the display name. */
  function AddHttp(s: Table, rule: string, methods: seq<string>, name: Option<string>, callback: Callback)
    : (Table, Option<RouterError>)
  {
    match Reserve(s, rule, "http", DisplayName(name, callback))
    case Err(e) => (s, Some(e))
    case Ok(s1) => Append(s1, callback, NewHttp(rule, methods, callback, name))
  }

  /** `websocket(rule_path, name)(callback)`: the coroutine check comes
      first. */
  function AddWebSocket(s: Table, rule: string, name: Option<string>, callback: Callback)
    : (Table, Option<RouterError>)
  {
    if !callback.isCoroutine then (s, Some(NotCoroutine))
    else
      match Reserve(s, rule, "websocket", DisplayName(name, callback))
      case Err(e) => (s, Some(e))
      case Ok(s1) => Append(s1, callback, NewWebSocket(rule, callback, name))
  }

  /** The namespace entry of an HTTP or WebSocket route. */
  function EntryOf(r: Route): string
    requires !r.kind.Mounted?
  {
    Namespace(Protocol(r.kind).value, r.rule)
  }

  /** What every router keeps: its routes are valid; every HTTP and
      WebSocket route has a rule starting with `/` whose entry is recorded;
      and no two of them share an entry. */
  predicate Registered(s: Table) {
    AllValid(s.routes) &&
    (forall i :: 0 <= i < |s.routes| && !s.routes[i].kind.Mounted? ==>
      StartsWithSlash(s.routes[i].rule) && EntryOf(s.routes[i]) in s.pathNamespace) &&
    (forall i, j :: 0 <= i < j < |s.routes| && !s.routes[i].kind.Mounted? && !s.routes[j].kind.Mounted? ==>
      EntryOf(s.routes[i]) != EntryOf(s.routes[j]))
  }

  /** Registering an HTTP route succeeds exactly when the rule starts with
      `/`, its entry is new, the route compiles and the view takes its
      placeholders; it then appends the route. A bad rule or a taken path
      changes nothing; any later failure still leaves the entry and the name
      recorded. The invariant is kept. */
  lemma AddHttpSpec(s: Table, rule: string, methods: seq<string>, name: Option<string>, callback: Callback)
    requires Registered(s)
    ensures var (s', err) := AddHttp(s, rule, methods, name, callback);
      var entry := Namespace("http", rule);
      var built := NewHttp(rule, methods, callback, name);
      Registered(s') &&
      (err.None? <==> StartsWithSlash(rule) && entry !in s.pathNamespace && built.Ok? && ParametersOk(callback, built.value.compiled)) &&
      (err.None? ==> s'.routes == s.routes + [built.value]) &&
      (err.Some? ==> s'.routes == s.routes) &&
      (!StartsWithSlash(rule) ==> err == Some(BadRule) && s' == s) &&
      (StartsWithSlash(rule) && entry in s.pathNamespace ==> err == Some(PathTaken) && s' == s) &&
      (StartsWithSlash(rule) && entry !in s.pathNamespace ==>
        s'.pathNamespace == s.pathNamespace + {entry} && s'.nameSet == s.nameSet + {DisplayName(name, callback)})
  {
    var built := NewHttp(rule, methods, callback, name);
    NewRouteValid(rule, methods, callback, name, []);
    if StartsWithSlash(rule) && Namespace("http", rule) !in s.pathNamespace && built.Ok? {
      AppendKeeps(Reserve(s, rule, "http", DisplayName(name, callback)).value, built.value);
    }
  }

  lemma AddWebSocketSpec(s: Table, rule: string, name: Option<string>, callback: Callback)
    requires Registered(s)
    ensures var (s', err) := AddWebSocket(s, rule, name, callback);
      var entry := Namespace("websocket", rule);
      var built := NewWebSocket(rule, callback, name);
      Registered(s') &&
      (err.None? <==> callback.isCoroutine && StartsWithSlash(rule) && entry !in s.pathNamespace && built.Ok? &&
                      ParametersOk(callback, built.value.compiled)) &&
      (err.None? ==> s'.routes == s.routes + [built.value]) &&
      (err.Some? ==> s'.routes == s.routes) &&
      (!callback.isCoroutine ==> err == Some(NotCoroutine) && s' == s) &&
      (callback.isCoroutine && StartsWithSlash(rule) && entry !in s.pathNamespace ==>
        s'.pathNamespace == s.pathNamespace + {entry} && s'.nameSet == s.nameSet + {DisplayName(name, callback)})
  {
    var built := NewWebSocket(rule, callback, name);
    NewRouteValid(rule, ["GET"], callback, name, []);
    if callback.isCoroutine && StartsWithSlash(rule) && Namespace("websocket", rule) !in s.pathNamespace && built.Ok? {
      AppendKeeps(Reserve(s, rule, "websocket", DisplayName(name, callback)).value, built.value);
    }
  }

  /** Appending a valid route whose entry was just recorded keeps the
      invariant. */
  lemma AppendKeeps(s: Table, r: Route)
    requires !r.kind.Mounted? && Registered(s)
    requires ValidRoute(r) && StartsWithSlash(r.rule) && EntryOf(r) in s.pathNamespace
    requires forall i :: 0 <= i < |s.routes| && !s.routes[i].kind.Mounted? ==> EntryOf(s.routes[i]) != EntryOf(r)
    ensures Registered(s.(routes := s.routes + [r]))
  {
    var rs := s.routes + [r];
    assert forall i :: 0 <= i < |s.routes| ==> rs[i] == s.routes[i];
  }

  /** The name set never decides anything: a repeated name is accepted. */
  lemma NamesNeverRefused(s: Table, names: set<string>, rule: string, methods: seq<string>, name: Option<string>, callback: Callback)
    ensures AddHttp(s, rule, methods, name, callback).1 == AddHttp(s.(nameSet := names), rule, methods, name, callback).1
    ensures AddHttp(s, rule, methods, name, callback).0.routes == AddHttp(s.(nameSet := names), rule, methods, name, callback).0.routes
    ensures AddWebSocket(s, rule, name, callback).1 == AddWebSocket(s.(nameSet := names), rule, name, callback).1
  {
  }

  /** The same rule can be registered once for each protocol. */
  lemma ProtocolsApart(s: Table, rule: string, methods: seq<string>, name: Option<string>, callback: Callback)
    requires Namespace("websocket", rule) !in s.pathNamespace
    ensures Namespace("websocket", rule) !in AddHttp(s, rule, methods, name, callback).0.pathNamespace
  {
    assert Namespace("http", rule)[0] == 'h' && Namespace("websocket", rule)[0] == 'w';
  }

  /** Once a rule has passed the path checks, registering it again for the
      same protocol is refused, even when the first registration failed
      later on. */
  lemma PathStaysReserved(s: Table, rule: string, methods: seq<string>, name: Option<string>, callback: Callback,
                          methods2: seq<string>, name2: Option<string>, callback2: Callback)
    requires StartsWithSlash(rule) && Namespace("http", rule) !in s.pathNamespace
    ensures var s' := AddHttp(s, rule, methods, name, callback).0;
      AddHttp(s', rule, methods2, name2, callback2) == (s', Some(PathTaken))
  {
  }

  /** `GroupRouter.__init__`: the prefix defaults to the empty text and must
      not end with `/`. */
  function GroupPrefix(prefix: Option<string>): (r: Option<string>)
    ensures r.Some? <==> prefix.None? || prefix.value == [] || prefix.value[|prefix.value| - 1] != '/'
    ensures r.Some? ==> r.value == prefix.GetOr([])
  {
    var p := if prefix.Some? then prefix.value else [];
    if |p| > 0 && p[|p| - 1] == '/' then None else Some(p)
  }

  /** `mount_group`: the group's routes behind its prefix, with no check. */
  function Mount(s: Table, prefix: string, members: seq<Route>, groupName: string): (Table, Option<RouterError>) {
    match NewGroup(prefix, members, Some(groupName))
    case Err(e) => (s, Some(CompileError(e)))
    case Ok(r) => (s.(routes := s.routes + [r]), None)
  }

  lemma MountSpec(s: Table, prefix: string, members: seq<Route>, groupName: string)
    requires Registered(s) && AllValid(members)
    ensures var (s', err) := Mount(s, prefix, members, groupName);
      Registered(s') && s'.pathNamespace == s.pathNamespace && s'.nameSet == s.nameSet &&
      (err.None? <==> BuildOf(prefix).Ok?) &&
      (err.None? ==> s'.routes == s.routes + [Route(Mounted(members), prefix, Some(groupName), BuildOf(prefix).value)]) &&
      (err.Some? ==> s' == s)
  {
    NewRouteValid(prefix, ["GET"], Callback(0, [], [], false, false, false), Some(groupName), members);
    if BuildOf(prefix).Ok? {
      var rs := s.routes + [NewGroup(prefix, members, Some(groupName)).value];
      assert forall i :: 0 <= i < |s.routes| ==> rs[i] == s.routes[i];
    }
  }

  class Router {
    var nameSet: set<string>
    var pathNamespace: set<string>
    var routes: seq<Route>
    /** `GroupRouter.name` and `GroupRouter.prefix`; a plain router has no
        name and the empty prefix. */
    const groupName: Option<string>
    const prefix: string

    function State(): Table
      reads this
    {
      Table(nameSet, pathNamespace, routes)
    }

    predicate Valid()
      reads this
    {
      Registered(State())
    }

    constructor ()
      ensures Valid() && State() == Table({}, {}, [])
      ensures groupName.None? && prefix == []
    {
      nameSet, pathNamespace, routes := {}, {}, [];
      groupName, prefix := None, [];
    }

    /** `GroupRouter(name, prefix)`. */
    constructor Group(name: string, prefix: Option<string>)
      requires GroupPrefix(prefix).Some?
      ensures Valid() && State() == Table({}, {}, [])
      ensures groupName == Some(name) && this.prefix == GroupPrefix(prefix).value
    {
      nameSet, pathNamespace, routes := {}, {}, [];
      groupName := Some(name);
      this.prefix := GroupPrefix(prefix).value;
    }

    method AddRoute(rule: string, methods: seq<string>, name: Option<string>, callback: Callback)
      returns (err: Option<RouterError>)
      requires Valid()
      modifies this
      ensures Valid()
      ensures (State(), err) == AddHttp(old(State()), rule, methods, name, callback)
    {
      AddHttpSpec(State(), rule, methods, name, callback);
      var (s, e) := AddHttp(State(), rule, methods, name, callback);
      nameSet, pathNamespace, routes := s.nameSet, s.pathNamespace, s.routes;
      err := e;
    }

    method Get(rule: string, name: Option<string>, callback: Callback) returns (err: Option<RouterError>)
      requires Valid()
      modifies this
      ensures Valid()
      ensures (State(), err) == AddHttp(old(State()), rule, ["GET"], name, callback)
    {
      err := AddRoute(rule, ["GET"], name, callback);
    }

    method Post(rule: string, name: Option<string>, callback: Callback) returns (err: Option<RouterError>)
      requires Valid()
      modifies this
      ensures Valid()
      ensures (State(), err) == AddHttp(old(State()), rule, ["POST"], name, callback)
    {
      err := AddRoute(rule, ["POST"], name, callback);
    }

    method Delete(rule: string, name: Option<string>, callback: Callback) returns (err: Option<RouterError>)
      requires Valid()
      modifies this
      ensures Valid()
      ensures (State(), err) == AddHttp(old(State()), rule, ["DELETE"], name, callback)
    {
      err := AddRoute(rule, ["DELETE"], name, callback);
    }

    method Put(rule: string, name: Option<string>, callback: Callback) returns (err: Option<RouterError>)
      requires Valid()
      modifies this
      ensures Valid()
      ensures (State(), err) == AddHttp(old(State()), rule, ["PUT"], name, callback)
    {
      err := AddRoute(rule, ["PUT"], name, callback);
    }

    method AddWebSocketRoute(rule: string, name: Option<string>, callback: Callback) returns (err: Option<RouterError>)
      requires Valid()
      modifies this
      ensures Valid()
      ensures (State(), err) == AddWebSocket(old(State()), rule, name, callback)
    {
      AddWebSocketSpec(State(), rule, name, callback);
      var (s, e) := AddWebSocket(State(), rule, name, callback);
      nameSet, pathNamespace, routes := s.nameSet, s.pathNamespace, s.routes;
      err := e;
    }

    /** `mount_group(group)`: the group's routes as they are now. */
    method MountGroup(group: Router) returns (err: Option<RouterError>)
      requires Valid() && group.Valid() && group.groupName.Some?
      modifies this
      ensures Valid()
      ensures (State(), err) == Mount(old(State()), group.prefix, old(group.routes), group.groupName.value)
    {
      MountSpec(State(), group.prefix, group.routes, group.groupName.value);
      var (s, e) := Mount(State(), group.prefix, group.routes, group.groupName.value);
      nameSet, pathNamespace, routes := s.nameSet, s.pathNamespace, s.routes;
      err := e;
    }

    /** `__call__`: the first route that does not answer None decides;
        NotFound when every route answers None. */
    method Call(path: string, extra: Extra) returns (o: Outcome)
      requires Valid()
      ensures o == CallAll(routes, path, extra)
      ensures o.Raised? && o.error.NotFound? <==> forall j :: 0 <= j < |routes| ==> GetCallback(routes[j], path, extra).Miss?
    {
      CallAllMiss(routes, path, extra);
      var i := 0;
      while i < |routes|
        invariant i <= |routes|
        invariant CallAll(routes, path, extra) == CallAll(routes[i..], path, extra)
      {
        assert routes[i..][0] == routes[i] && routes[i..][1..] == routes[i + 1..];
        var r := GetCallback(routes[i], path, extra);
        if !r.Miss? {
          return r;
        }
        i := i + 1;
      }
      return Raised(NotFound(path));
    }
  }
}
