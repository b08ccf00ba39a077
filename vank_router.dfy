/** The router of the `vank` generation: an ordered list of compiled routes,
    the set of registered templates, and the view registered for each
    endpoint. The request path and method are parameters of `Match`. */
module VankRouter {
  import opened Wrappers
  import opened Text
  import opened Patterns
  import opened Callables
  import opened VankRoute

  /** The ValueError `add_route` raises, by the check that failed. */
  datatype AddError = PathTaken(path: string) | EndpointTaken(endpoint: string) | MissingParameters(endpoint: string)

  /** MethodNotAllowedException (with the route's methods), NotFoundException,
      and the KeyError `convert_arguments` raises for a capture without a
      converter. */
  datatype MatchError = MethodNotAllowed(allow: seq<string>) | NotFound(path: string) | UnknownArguments(names: set<string>)

  /** The router's three fields as a value. */
  datatype Table<!V> = Table(routes: seq<Route<V>>, paths: set<string>, views: map<string, Callback>)

  /** What every router keeps: each route is compiled and its endpoint has a
      view, and no two routes share an endpoint. */
  predicate Consistent<V>(t: Table<V>) {
    (forall i :: 0 <= i < |t.routes| ==> CompiledRoute(t.routes[i]) && t.routes[i].endpoint in t.views) &&
    (forall i, j :: 0 <= i < j < |t.routes| ==> t.routes[i].endpoint != t.routes[j].endpoint)
  }

  /** The view accepts every placeholder as a parameter, or takes `**kwargs`. */
  predicate ViewFits<V>(route: Route<V>, view: Callback) {
    AcceptsArguments(view, route.argConverters.Keys) || AcceptsVarKeyword(view)
  }

  /** `add_route`: the template, then the endpoint, then the view's
      parameters are checked, and only then is anything recorded. */
  function Add<V>(t: Table<V>, path: string, route: Route<V>, view: Callback): Result<Table<V>, AddError> {
    if path in t.paths then Err(PathTaken(path))
    else if route.endpoint in t.views then Err(EndpointTaken(route.endpoint))
    else if !ViewFits(route, view) then Err(MissingParameters(route.endpoint))
    else Ok(Table(t.routes + [route], t.paths + {path}, t.views[route.endpoint := view]))
  }

  /** Registration succeeds exactly when the template and the endpoint are new
      and the view fits; it then appends the route, records the template and
      binds the endpoint, and keeps the router consistent. An endpoint already
      bound is refused even for the same view. */
  lemma AddSpec<V>(t: Table<V>, path: string, route: Route<V>, view: Callback)
    requires Consistent(t) && CompiledRoute(route)
    ensures Add(t, path, route, view).Ok? <==> path !in t.paths && route.endpoint !in t.views && ViewFits(route, view)
    ensures Add(t, path, route, view).Ok? ==>
      var u := Add(t, path, route, view).value;
      u.routes == t.routes + [route] && u.paths == t.paths + {path} &&
      u.views.Keys == t.views.Keys + {route.endpoint} && u.views[route.endpoint] == view &&
      (forall e :: e in t.views ==> u.views[e] == t.views[e]) &&
      Consistent(u)
  {
    if Add(t, path, route, view).Ok? {
      var u := Add(t, path, route, view).value;
      forall i, j | 0 <= i < j < |u.routes| ensures u.routes[i].endpoint != u.routes[j].endpoint {
        if j == |t.routes| {
          assert u.routes[i] == t.routes[i];
        } else {
          assert u.routes[i] == t.routes[i] && u.routes[j] == t.routes[j];
        }
      }
    }
  }

  // ---- matching -------------------------------------------------------------

  /** The first route, at or after `from`, whose pattern matches `path`. */
  function FirstMatch<V>(routes: seq<Route<V>>, path: string, from: nat): (r: Option<nat>)
    requires from <= |routes|
    ensures r.Some? ==> from <= r.value < |routes| && MatchPath(routes[r.value], path).Some?
    ensures r.Some? ==> forall j :: from <= j < r.value ==> MatchPath(routes[j], path).None?
    ensures r.None? ==> forall j :: from <= j < |routes| ==> MatchPath(routes[j], path).None?
    decreases |routes| - from
  {
    if from == |routes| then None
    else if MatchPath(routes[from], path).Some? then Some(from)
    else FirstMatch(routes, path, from + 1)
  }

  /** What `match` does with the route that matched: check the method, then
      convert the captures and look up the endpoint's view. */
  function Dispatch<V>(r: Route<V>, views: map<string, Callback>, path: string, verb: string): Result<(Option<Callback>, map<string, V>), MatchError>
    requires MatchPath(r, path).Some?
  {
    if !CheckMethod(r, verb) then Err(MethodNotAllowed(r.methods))
    else
      match ConvertArguments(r, MatchPath(r, path).value.groups)
      case Err(names) => Err(UnknownArguments(names))
      case Ok(args) => Ok((if r.endpoint in views then Some(views[r.endpoint]) else None, args))
  }

  /** `Router.match`. */
  function MatchIn<V>(t: Table<V>, path: string, verb: string): Result<(Option<Callback>, map<string, V>), MatchError> {
    match FirstMatch(t.routes, path, 0)
    case None => Err(NotFound(path))
    case Some(i) => Dispatch(t.routes[i], t.views, path, verb)
  }

  /** The first matching route decides: a method it does not allow is refused
      with its own method list, and later routes are never tried. */
  lemma MatchFirstWins<V>(t: Table<V>, path: string, verb: string, i: nat)
    requires i < |t.routes| && MatchPath(t.routes[i], path).Some?
    requires forall j :: 0 <= j < i ==> MatchPath(t.routes[j], path).None?
    ensures MatchIn(t, path, verb) == Dispatch(t.routes[i], t.views, path, verb)
    ensures !CheckMethod(t.routes[i], verb) ==> MatchIn(t, path, verb) == Err(MethodNotAllowed(t.routes[i].methods))
  {
    var k := FirstMatch(t.routes, path, 0);
    assert k.Some?;
    assert k.value == i by {
      if k.value < i {
      } else if k.value > i {
      }
    }
  }

  /** No route matches exactly when the result is NotFound. */
  lemma MatchNotFound<V>(t: Table<V>, path: string, verb: string)
    requires Consistent(t)
    ensures MatchIn(t, path, verb) == Err(NotFound(path)) <==>
      forall j :: 0 <= j < |t.routes| ==> MatchPath(t.routes[j], path).None?
  {
    match FirstMatch(t.routes, path, 0)
    case None =>
    case Some(i) =>
      MatchedArgumentsConvert(t.routes[i], path);
  }

  /** In a consistent router a match either refuses the method or returns the
      endpoint's view with every placeholder converted; the KeyError branch
      is unreachable. */
  lemma MatchFound<V>(t: Table<V>, path: string, verb: string, i: nat)
    requires Consistent(t) && FirstMatch(t.routes, path, 0) == Some(i)
    ensures var r := t.routes[i];
      !CheckMethod(r, verb) ==> MatchIn(t, path, verb) == Err(MethodNotAllowed(r.methods))
    ensures var r := t.routes[i];
      var groups := MatchPath(r, path).value.groups;
      CheckMethod(r, verb) ==>
        MatchIn(t, path, verb).Ok? &&
        MatchIn(t, path, verb).value.0 == Some(t.views[r.endpoint]) &&
        MatchIn(t, path, verb).value.1.Keys == r.argConverters.Keys == groups.Keys &&
        forall n :: n in groups ==> MatchIn(t, path, verb).value.1[n] == r.argConverters[n].toPython(groups[n])
  {
    MatchedArgumentsConvert(t.routes[i], path);
  }

  /** Routes registered later never change the result for a path an earlier
      route already matches. */
  lemma MatchIgnoresLater<V>(t: Table<V>, more: seq<Route<V>>, path: string, verb: string)
    requires exists j :: 0 <= j < |t.routes| && MatchPath(t.routes[j], path).Some?
    ensures MatchIn(t.(routes := t.routes + more), path, verb) == MatchIn(t, path, verb)
  {
    var i := FirstMatch(t.routes, path, 0).value;
    var u := t.(routes := t.routes + more);
    assert u.routes[i] == t.routes[i];
    forall j | 0 <= j < i ensures MatchPath(u.routes[j], path).None? {
      assert u.routes[j] == t.routes[j];
    }
    MatchFirstWins(u, path, verb, i);
  }

  // ---- reverse lookup -------------------------------------------------------

  predicate AllValid<V>(routes: seq<Route<V>>) {
    forall i :: 0 <= i < |routes| ==> ValidRoute(routes[i])
  }

  /** The first route, at or after `from`, that can build a URL. */
  function FirstReflect<V>(routes: seq<Route<V>>, endpoint: string, args: Args<V>, show: V -> string, quote: string -> string, from: nat): (r: Option<nat>)
    requires from <= |routes| && AllValid(routes)
    ensures r.Some? ==> from <= r.value < |routes| && Reflect(routes[r.value], endpoint, args, show, quote).Some?
    ensures r.Some? ==> forall j :: from <= j < r.value ==> Reflect(routes[j], endpoint, args, show, quote).None?
    ensures r.None? ==> forall j :: from <= j < |routes| ==> Reflect(routes[j], endpoint, args, show, quote).None?
    decreases |routes| - from
  {
    if from == |routes| then None
    else if Reflect(routes[from], endpoint, args, show, quote).Some? then Some(from)
    else FirstReflect(routes, endpoint, args, show, quote, from + 1)
  }

  /** `Router.url_reflect`: the first route's URL, or None for
      ReflectNotFound. */
  function ReflectIn<V>(t: Table<V>, endpoint: string, args: Args<V>, show: V -> string, quote: string -> string): Option<string>
    requires AllValid(t.routes)
  {
    match FirstReflect(t.routes, endpoint, args, show, quote, 0)
    case None => None
    case Some(i) => Reflect(t.routes[i], endpoint, args, show, quote)
  }

  lemma ConsistentAllValid<V>(t: Table<V>)
    requires Consistent(t)
    ensures AllValid(t.routes)
  {
  }

  /** Endpoints are unique, so reverse lookup is decided by the one route
      registered under the endpoint; an unknown endpoint gives
      ReflectNotFound. */
  lemma ReflectByEndpoint<V>(t: Table<V>, endpoint: string, args: Args<V>, show: V -> string, quote: string -> string)
    requires Consistent(t)
    ensures AllValid(t.routes)
    ensures forall i :: 0 <= i < |t.routes| && t.routes[i].endpoint == endpoint ==>
      ReflectIn(t, endpoint, args, show, quote) == Reflect(t.routes[i], endpoint, args, show, quote)
    ensures (forall i :: 0 <= i < |t.routes| ==> t.routes[i].endpoint != endpoint) ==>
      ReflectIn(t, endpoint, args, show, quote).None?
  {
    forall i | 0 <= i < |t.routes| && t.routes[i].endpoint == endpoint
      ensures ReflectIn(t, endpoint, args, show, quote) == Reflect(t.routes[i], endpoint, args, show, quote)
    {
      match FirstReflect(t.routes, endpoint, args, show, quote, 0)
      case None =>
      case Some(k) =>
    }
  }

  // ---- merging --------------------------------------------------------------

  predicate ViewsCover<V>(routes: seq<Route<V>>, views: map<string, Callback>) {
    forall i :: 0 <= i < |routes| ==> routes[i].endpoint in views
  }

  /** `include_router`: each sub-route, in order, through `add_route` with
      its own template and view; the first failure stops the loop. */
  function IncludeAll<V>(t: Table<V>, subRoutes: seq<Route<V>>, subViews: map<string, Callback>): (Table<V>, Option<AddError>)
    requires ViewsCover(subRoutes, subViews)
    decreases |subRoutes|
  {
    if subRoutes == [] then (t, None)
    else
      var r := subRoutes[0];
      match Add(t, r.path, r, subViews[r.endpoint])
      case Err(e) => (t, Some(e))
      case Ok(u) => IncludeAll(u, subRoutes[1..], subViews)
  }

  /** The routes added before a failure stay registered: the result is the
      old route list followed by a prefix of the sub-routes, all of them
      when nothing failed, and the router stays consistent. */
  lemma {:induction false} IncludeAllSpec<V>(t: Table<V>, subRoutes: seq<Route<V>>, subViews: map<string, Callback>)
    requires Consistent(t) && ViewsCover(subRoutes, subViews)
    requires forall i :: 0 <= i < |subRoutes| ==> CompiledRoute(subRoutes[i])
    ensures var (u, e) := IncludeAll(t, subRoutes, subViews);
      Consistent(u) && GrownBy(t, u, e, subRoutes)
    decreases |subRoutes|
  {
    if subRoutes != [] {
      var r := subRoutes[0];
      AddSpec(t, r.path, r, subViews[r.endpoint]);
      match Add(t, r.path, r, subViews[r.endpoint])
      case Err(e) =>
        assert t.routes + subRoutes[..0] == t.routes;
      case Ok(u) =>
        var rest := subRoutes[1..];
        assert IncludeAll(t, subRoutes, subViews) == IncludeAll(u, rest, subViews);
        IncludeAllSpec(u, rest, subViews);
        var (w, e) := IncludeAll(u, rest, subViews);
        assert subRoutes == [r] + rest;
        GrownStep(t, r, u, rest, w, e);
    }
  }

  /** `u` holds the routes of `t` followed by all of `subRoutes` when no
      error was raised, and by a prefix of them otherwise. */
  ghost predicate GrownBy<V>(t: Table<V>, u: Table<V>, e: Option<AddError>, subRoutes: seq<Route<V>>) {
    (e.None? ==> u.routes == t.routes + subRoutes) &&
    (e.Some? ==> exists k :: 0 <= k < |subRoutes| && u.routes == t.routes + subRoutes[..k])
  }

  /** Growth by one route, then by `rest`, is growth by both. */
  lemma GrownStep<V>(t: Table<V>, r: Route<V>, u: Table<V>, rest: seq<Route<V>>, w: Table<V>, e: Option<AddError>)
    requires u.routes == t.routes + [r] && GrownBy(u, w, e, rest)
    ensures GrownBy(t, w, e, [r] + rest)
  {
    if e.None? {
      assert t.routes + [r] + rest == t.routes + ([r] + rest);
    } else {
      var k :| 0 <= k < |rest| && w.routes == u.routes + rest[..k];
      assert t.routes + [r] + rest[..k] == t.routes + ([r] + rest)[..k + 1];
    }
  }

  lemma IncludeStep<V>(t: Table<V>, subRoutes: seq<Route<V>>, subViews: map<string, Callback>, i: nat)
    requires i < |subRoutes| && ViewsCover(subRoutes, subViews)
    ensures var a := Add(t, subRoutes[i].path, subRoutes[i], subViews[subRoutes[i].endpoint]);
      IncludeAll(t, subRoutes[i..], subViews) ==
        if a.Err? then (t, Some(a.error)) else IncludeAll(a.value, subRoutes[i + 1..], subViews)
  {
    assert subRoutes[i..][0] == subRoutes[i] && subRoutes[i..][1..] == subRoutes[i + 1..];
  }

  // ---- the router object ----------------------------------------------------

  class Router<V> {
    var routes: seq<Route<V>>
    var paths: set<string>
    var views: map<string, Callback>

    function State(): Table<V>
      reads this
    {
      Table(routes, paths, views)
    }

    predicate Valid()
      reads this
    {
      Consistent(State())
    }

    constructor()
      ensures Valid() && State() == Table([], {}, map[])
    {
      routes := [];
      paths := {};
      views := map[];
    }

    /** `add_route`: on failure nothing changes; on success the route list,
        the template set and the endpoint map each grow by this route. */
    method AddRoute(path: string, route: Route<V>, view: Callback) returns (err: Option<AddError>)
      requires Valid() && CompiledRoute(route)
      modifies this
      ensures Valid()
      ensures match Add(old(State()), path, route, view)
        case Ok(u) => err.None? && State() == u
        case Err(e) => err == Some(e) && State() == old(State())
    {
      AddSpec(State(), path, route, view);
      if path in paths {
        return Some(PathTaken(path));
      }
      if route.endpoint in views {
        return Some(EndpointTaken(route.endpoint));
      }
      if !ViewFits(route, view) {
        return Some(MissingParameters(route.endpoint));
      }
      paths := paths + {path};
      routes := routes + [route];
      views := views[route.endpoint := view];
      return None;
    }

    /** `match`: scans the routes in registration order. */
    method Match(path: string, verb: string) returns (res: Result<(Option<Callback>, map<string, V>), MatchError>)
      ensures res == MatchIn(State(), path, verb)
    {
      var i := 0;
      while i < |routes|
        invariant i <= |routes|
        invariant FirstMatch(routes, path, 0) == FirstMatch(routes, path, i)
      {
        var hit := MatchPath(routes[i], path);
        if hit.Some? {
          var r := routes[i];
          if !CheckMethod(r, verb) {
            return Err(MethodNotAllowed(r.methods));
          }
          var converted := ConvertArguments(r, hit.value.groups);
          if converted.Err? {
            return Err(UnknownArguments(converted.error));
          }
          var view := if r.endpoint in views then Some(views[r.endpoint]) else None;
          return Ok((view, converted.value));
        }
        i := i + 1;
      }
      return Err(NotFound(path));
    }

    /** `include_router`: the sub-router's routes and views are read at the
        start. */
    method IncludeRouter(sub: Router<V>) returns (err: Option<AddError>)
      requires Valid() && sub.Valid()
      modifies this
      ensures Valid()
      ensures (State(), err) == IncludeAll(old(State()), old(sub.routes), old(sub.views))
    {
      var subRoutes := sub.routes;
      var subViews := sub.views;
      ghost var start := State();
      assert ViewsCover(subRoutes, subViews) && forall k :: 0 <= k < |subRoutes| ==> CompiledRoute(subRoutes[k]);
      var i := 0;
      err := None;
      while i < |subRoutes|
        invariant i <= |subRoutes| && Valid() && err.None?
        invariant IncludeAll(start, subRoutes, subViews) == IncludeAll(State(), subRoutes[i..], subViews)
      {
        var r := subRoutes[i];
        IncludeStep(State(), subRoutes, subViews, i);
        err := AddRoute(r.path, r, subViews[r.endpoint]);
        if err.Some? {
          return;
        }
        i := i + 1;
      }
      assert subRoutes[i..] == [];
    }

    /** `url_reflect`: tries each route in registration order. */
    method UrlReflectAll(endpoint: string, args: Args<V>, show: V -> string, quote: string -> string) returns (res: Option<string>)
      requires Valid()
      ensures AllValid(routes) && res == ReflectIn(State(), endpoint, args, show, quote)
    {
      ConsistentAllValid(State());
      var i := 0;
      while i < |routes|
        invariant i <= |routes|
        invariant FirstReflect(routes, endpoint, args, show, quote, 0) == FirstReflect(routes, endpoint, args, show, quote, i)
      {
        var url := UrlReflect(routes[i], endpoint, args, show, quote);
        if url.Some? {
          return url;
        }
        i := i + 1;
      }
      return None;
    }
  }
}
