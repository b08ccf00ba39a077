/** The router of the oldest generation (`Vank`): an ordered list of
    compiled routes, the set of registered templates, and the view
    registered for each endpoint. Unlike the later routers it records the
    template and the route before it checks the endpoint. */
module LegacyRouter {
  import opened Wrappers
  import opened Callables
  import opened LegacyConverters
  import opened LegacyRoute
  import VankRoute

  /** LookupError for a template already registered; ValueError for an
      endpoint already bound to another view. */
  datatype AddError = PathTaken(path: string) | EndpointTaken(endpoint: string)

  /** MethodNotAllowedException (with the route's methods), NotFoundException,
      a converter that raised while the captures were converted, and the
      TypeError Python raises when an exception class without its own
      constructor is given a keyword argument. */
  datatype MatchError = MethodNotAllowed(allow: seq<string>) | NotFound(path: string) | ConversionFailed | KeywordRejected

  /** The router's three fields as a value. */
  datatype Table<!V> = Table(routes: seq<Route<V>>, paths: set<string>, views: map<string, Callback>)

  /** What every router keeps: each route is compiled and its endpoint has a
      view. */
  predicate Consistent<V>(t: Table<V>) {
    forall i :: 0 <= i < |t.routes| ==> ValidRoute(t.routes[i]) && t.routes[i].endpoint in t.views
  }

  /** `add_route`: a taken template raises before anything changes; then the
      template and the route are recorded, and only then is the endpoint
      checked, so an endpoint bound to another view raises with the route
      already appended. Callbacks compare by identity. */
  function Add<V>(t: Table<V>, path: string, route: Route<V>, view: Callback): (Table<V>, Option<AddError>) {
    if path in t.paths then (t, Some(PathTaken(path)))
    else
      var u := Table(t.routes + [route], t.paths + {path}, t.views);
      if route.endpoint in t.views && t.views[route.endpoint] != view then (u, Some(EndpointTaken(route.endpoint)))
      else (u.(views := t.views[route.endpoint := view]), None)
  }

  /** Registration succeeds exactly when the template is new and the
      endpoint is free or bound to this very view. A taken template changes
      nothing; an endpoint conflict leaves the template and the route
      recorded and the views unchanged; a success also binds the endpoint.
      The router stays consistent in every case. */
  lemma AddSpec<V>(t: Table<V>, path: string, route: Route<V>, view: Callback)
    requires Consistent(t) && ValidRoute(route)
    ensures var (u, e) := Add(t, path, route, view);
      (e.None? <==> path !in t.paths && (route.endpoint in t.views ==> t.views[route.endpoint] == view)) &&
      (path in t.paths ==> u == t && e == Some(PathTaken(path))) &&
      (path !in t.paths ==> u.routes == t.routes + [route] && u.paths == t.paths + {path}) &&
      (e.Some? && path !in t.paths ==> e == Some(EndpointTaken(route.endpoint)) && u.views == t.views) &&
      (e.None? ==> u.views == t.views[route.endpoint := view]) &&
      Consistent(u)
  {
    var (u, e) := Add(t, path, route, view);
    if path !in t.paths {
      forall i | 0 <= i < |u.routes| ensures ValidRoute(u.routes[i]) && u.routes[i].endpoint in u.views {
        if i < |t.routes| {
          assert u.routes[i] == t.routes[i];
        }
      }
    }
  }

  /** Registering a second template for an endpoint with the same view
      succeeds and leaves the endpoint map as it was. */
  lemma SameViewAccepted<V>(t: Table<V>, path: string, route: Route<V>)
    requires route.endpoint in t.views && path !in t.paths
    ensures Add(t, path, route, t.views[route.endpoint]).1.None?
    ensures Add(t, path, route, t.views[route.endpoint]).0.views == t.views
  {
  }

  // ---- matching -------------------------------------------------------------

  /** The first route, at or after `from`, whose pattern matches `path`. */
  function FirstMatch<V>(routes: seq<Route<V>>, path: string, from: nat): (r: Option<nat>)
    requires from <= |routes|
    ensures r.Some? ==> from <= r.value < |routes| && MatchPath(routes[r.value], path).Some?
    ensures r.Some? ==> forall j :: from <= j < r.value ==> MatchPath(routes[j], path).None?
    ensures r.None? ==> forall j :: from <= j < |routes| ==> MatchPath(routes[j], path).None?
    decreases |routes| - from
  {
    if from == |routes| then None
    else if MatchPath(routes[from], path).Some? then Some(from)
    else FirstMatch(routes, path, from + 1)
  }

  /** What `match` does with the route that matched: check the method, then
      convert the captures and look up the endpoint's view (`dict.get`). */
  function Dispatch<V>(r: Route<V>, views: map<string, Callback>, path: string, verb: string): Result<(Option<Callback>, map<string, V>), MatchError>
    requires MatchPath(r, path).Some?
  {
    if !CheckMethod(r, verb) then Err(MethodNotAllowed(r.methods))
    else
      match ConvertArguments(r, MatchPath(r, path).value.groups)
      case None => Err(ConversionFailed)
      case Some(args) => Ok((if r.endpoint in views then Some(views[r.endpoint]) else None, args))
  }

  /** The method check as written: the exception class defines no
      constructor of its own, so passing `allow=` makes Python raise
      TypeError before any MethodNotAllowedException exists. */
  function DispatchAsWritten<V>(r: Route<V>, views: map<string, Callback>, path: string, verb: string): Result<(Option<Callback>, map<string, V>), MatchError>
    requires MatchPath(r, path).Some?
  {
    if !CheckMethod(r, verb) then Err(KeywordRejected)
    else Dispatch(r, views, path, verb)
  }

  /** As written, a method the route refuses never reaches the caller as
      MethodNotAllowedException, so no allow list is ever reported; the
      intended dispatch reports the route's methods. Both agree on every
      allowed method. */
  lemma MethodMismatchRaisesTypeError<V>(r: Route<V>, views: map<string, Callback>, path: string, verb: string)
    requires MatchPath(r, path).Some?
    ensures !CheckMethod(r, verb) ==> DispatchAsWritten(r, views, path, verb) == Err(KeywordRejected)
    ensures !CheckMethod(r, verb) ==> Dispatch(r, views, path, verb) == Err(MethodNotAllowed(r.methods))
    ensures CheckMethod(r, verb) ==> DispatchAsWritten(r, views, path, verb) == Dispatch(r, views, path, verb)
    ensures !DispatchAsWritten(r, views, path, verb).Err? || !DispatchAsWritten(r, views, path, verb).error.MethodNotAllowed?
  {
  }

  /** `Router.match`. */
  function MatchIn<V>(t: Table<V>, path: string, verb: string): Result<(Option<Callback>, map<string, V>), MatchError> {
    match FirstMatch(t.routes, path, 0)
    case None => Err(NotFound(path))
    case Some(i) => Dispatch(t.routes[i], t.views, path, verb)
  }

  /** The first matching route decides: a method it does not allow is refused
      with its own method list, and later routes are never tried. */
  lemma MatchFirstWins<V>(t: Table<V>, path: string, verb: string, i: nat)
    requires i < |t.routes| && MatchPath(t.routes[i], path).Some?
    requires forall j :: 0 <= j < i ==> MatchPath(t.routes[j], path).None?
    ensures MatchIn(t, path, verb) == Dispatch(t.routes[i], t.views, path, verb)
    ensures !CheckMethod(t.routes[i], verb) ==> MatchIn(t, path, verb) == Err(MethodNotAllowed(t.routes[i].methods))
  {
    var k := FirstMatch(t.routes, path, 0);
    assert k.Some?;
    assert k.value == i by {
      if k.value < i {
      } else if k.value > i {
      }
    }
  }

  /** NotFound exactly when no route matches. */
  lemma MatchNotFound<V>(t: Table<V>, path: string, verb: string)
    ensures MatchIn(t, path, verb) == Err(NotFound(path)) <==>
      forall j :: 0 <= j < |t.routes| ==> MatchPath(t.routes[j], path).None?
  {
    match FirstMatch(t.routes, path, 0)
    case None =>
    case Some(i) =>
  }

  /** In a consistent router an allowed match returns the endpoint's view and
      one value per placeholder, each its converter's reading of the capture,
      unless a converter raises. */
  lemma MatchFound<V>(t: Table<V>, path: string, verb: string, i: nat)
    requires Consistent(t) && FirstMatch(t.routes, path, 0) == Some(i) && CheckMethod(t.routes[i], verb)
    ensures var r := t.routes[i];
      var groups := MatchPath(r, path).value.groups;
      MatchIn(t, path, verb).Ok? <==> forall n :: n in groups ==> n in r.argConverters && r.argConverters[n].toPython(groups[n]).Some?
    ensures var r := t.routes[i];
      var groups := MatchPath(r, path).value.groups;
      MatchIn(t, path, verb).Ok? ==>
        MatchIn(t, path, verb).value.0 == Some(t.views[r.endpoint]) &&
        MatchIn(t, path, verb).value.1.Keys == r.argConverters.Keys &&
        forall n :: n in groups ==> n in r.argConverters && Some(MatchIn(t, path, verb).value.1[n]) == r.argConverters[n].toPython(groups[n])
  {
    MatchedArgumentsKnown(t.routes[i], path);
  }

  // ---- merging --------------------------------------------------------------

  predicate ViewsCover<V>(routes: seq<Route<V>>, views: map<string, Callback>) {
    forall i :: 0 <= i < |routes| ==> routes[i].endpoint in views
  }

  /** `include_router`: each sub-route, in order, through `add_route` with
      the template it was built from and its view; the first error stops the
      loop and keeps what that call already recorded. */
  function IncludeAll<V>(t: Table<V>, subRoutes: seq<Route<V>>, subViews: map<string, Callback>): (Table<V>, Option<AddError>)
    requires ViewsCover(subRoutes, subViews)
    decreases |subRoutes|
  {
    if subRoutes == [] then (t, None)
    else
      var r := subRoutes[0];
      var (u, e) := Add(t, r.path, r, subViews[r.endpoint]);
      if e.Some? then (u, e) else IncludeAll(u, subRoutes[1..], subViews)
  }

  /** The result is the old route list followed by a prefix of the
      sub-routes (all of them when nothing failed; up to and including the
      failing one on an endpoint conflict), and the router stays consistent. */
  lemma {:induction false} IncludeAllSpec<V>(t: Table<V>, subRoutes: seq<Route<V>>, subViews: map<string, Callback>)
    requires Consistent(t) && ViewsCover(subRoutes, subViews)
    requires forall i :: 0 <= i < |subRoutes| ==> ValidRoute(subRoutes[i])
    ensures var (u, e) := IncludeAll(t, subRoutes, subViews);
      Consistent(u) && GrownBy(t, u, e, subRoutes)
    decreases |subRoutes|
  {
    if subRoutes != [] {
      var r := subRoutes[0];
      AddSpec(t, r.path, r, subViews[r.endpoint]);
      var (u, e) := Add(t, r.path, r, subViews[r.endpoint]);
      if e.Some? {
        if r.path in t.paths {
          assert t.routes + subRoutes[..0] == t.routes;
        } else {
          assert t.routes + subRoutes[..1] == t.routes + [r];
        }
      } else {
        var rest := subRoutes[1..];
        assert IncludeAll(t, subRoutes, subViews) == IncludeAll(u, rest, subViews);
        IncludeAllSpec(u, rest, subViews);
        var (w, e') := IncludeAll(u, rest, subViews);
        assert subRoutes == [r] + rest;
        GrownStep(t, r, u, rest, w, e');
      }
    }
  }

  /** `u` holds the routes of `t` followed by all of `subRoutes` when no
      error was raised, and by a prefix of them otherwise. */
  ghost predicate GrownBy<V>(t: Table<V>, u: Table<V>, e: Option<AddError>, subRoutes: seq<Route<V>>) {
    (e.None? ==> u.routes == t.routes + subRoutes) &&
    (e.Some? ==> exists k :: 0 <= k <= |subRoutes| && u.routes == t.routes + subRoutes[..k])
  }

  /** Growth by one route, then by `rest`, is growth by both. */
  lemma GrownStep<V>(t: Table<V>, r: Route<V>, u: Table<V>, rest: seq<Route<V>>, w: Table<V>, e: Option<AddError>)
    requires u.routes == t.routes + [r] && GrownBy(u, w, e, rest)
    ensures GrownBy(t, w, e, [r] + rest)
  {
    if e.None? {
      assert t.routes + [r] + rest == t.routes + ([r] + rest);
    } else {
      var k :| 0 <= k <= |rest| && w.routes == u.routes + rest[..k];
      assert t.routes + [r] + rest[..k] == t.routes + ([r] + rest)[..k + 1];
    }
  }

  lemma IncludeStep<V>(t: Table<V>, subRoutes: seq<Route<V>>, subViews: map<string, Callback>, i: nat)
    requires i < |subRoutes| && ViewsCover(subRoutes, subViews)
    ensures var (u, e) := Add(t, subRoutes[i].path, subRoutes[i], subViews[subRoutes[i].endpoint]);
      IncludeAll(t, subRoutes[i..], subViews) == if e.Some? then (u, e) else IncludeAll(u, subRoutes[i + 1..], subViews)
  {
    assert subRoutes[i..][0] == subRoutes[i] && subRoutes[i..][1..] == subRoutes[i + 1..];
  }

  // ---- reverse lookup -------------------------------------------------------

  /** `Router.url_for` as written. The `except exceptions.UrlForNotFound`
      clause evaluates the undefined name as soon as the first route raises
      anything, and the final `raise` evaluates it too, so only the first
      route is ever asked: its URL, or AttributeError. */
  function UrlForInAsWritten<V>(t: Table<V>, endpoint: string, args: VankRoute.Args<V>): Result<string, UrlError> {
    if t.routes == [] then Err(NoUrlForNotFoundClass)
    else
      match UrlForAsWritten(t.routes[0], endpoint, args)
      case Ok(url) => Ok(url)
      case Err(_) => Err(NoUrlForNotFoundClass)
  }

  /** As written, a lookup answers only when the first route is the one
      asked for; a lookup for a later route raises AttributeError, while the
      intended lookup (`UrlForIn`) steps past the first route. Routes `/a`
      (endpoint `a`) and `/b` (endpoint `b`) with `url_for("b")` show it. */
  lemma UrlForInAsWrittenFirstOnly<V>(t: Table<V>, endpoint: string, args: VankRoute.Args<V>)
    ensures UrlForInAsWritten(t, endpoint, args).Ok? ==> |t.routes| > 0 && Targets(t.routes[0], endpoint, args)
    ensures |t.routes| > 0 && Targets(t.routes[0], endpoint, args) ==>
              UrlForInAsWritten(t, endpoint, args) ==
                (if UrlForIn(t, endpoint, args).Ok? then UrlForIn(t, endpoint, args) else Err(NoUrlForNotFoundClass))
    ensures |t.routes| >= 2 && !Targets(t.routes[0], endpoint, args) && Targets(t.routes[1], endpoint, args) &&
            t.routes[1].argConverters.Keys == {} ==>
              UrlForInAsWritten(t, endpoint, args) == Err(NoUrlForNotFoundClass) &&
              UrlForIn(t, endpoint, args) == Ok(t.routes[1].path)
  {
    if |t.routes| > 0 {
      UrlForFound(t.routes[0], endpoint, args);
      if Targets(t.routes[0], endpoint, args) {
        UrlForInFirst(t, endpoint, args, 0);
      } else if |t.routes| >= 2 && Targets(t.routes[1], endpoint, args) && t.routes[1].argConverters.Keys == {} {
        UrlForInFirst(t, endpoint, args, 1);
      }
    }
  }

  /** The first route, at or after `from`, whose `url_for` does not raise
      UrlForNotFound. */
  function FirstUrl<V>(routes: seq<Route<V>>, endpoint: string, args: VankRoute.Args<V>, from: nat): (r: Option<nat>)
    requires from <= |routes|
    ensures r.Some? ==> from <= r.value < |routes| && UrlFor(routes[r.value], endpoint, args) != Err(UrlForNotFound)
    ensures r.Some? ==> forall j :: from <= j < r.value ==> UrlFor(routes[j], endpoint, args) == Err(UrlForNotFound)
    ensures r.None? ==> forall j :: from <= j < |routes| ==> UrlFor(routes[j], endpoint, args) == Err(UrlForNotFound)
    decreases |routes| - from
  {
    if from == |routes| then None
    else if UrlFor(routes[from], endpoint, args) != Err(UrlForNotFound) then Some(from)
    else FirstUrl(routes, endpoint, args, from + 1)
  }

  /** `Router.url_for`: the first route's URL; any other error it raises
      (AttributeError) propagates. */
  function UrlForIn<V>(t: Table<V>, endpoint: string, args: VankRoute.Args<V>): Result<string, UrlError> {
    match FirstUrl(t.routes, endpoint, args, 0)
    case None => Err(UrlForNotFound)
    case Some(i) => UrlFor(t.routes[i], endpoint, args)
  }

  /** The route is the one `url_for` is after: this endpoint and exactly
      these argument names. */
  predicate Targets<V>(r: Route<V>, endpoint: string, args: VankRoute.Args<V>) {
    r.endpoint == endpoint && VankRoute.KeySet(args) == r.argConverters.Keys
  }

  /** UrlForNotFound exactly when no route has this endpoint and exactly these
      argument names; otherwise the first such route decides. */
  lemma UrlForInSpec<V>(t: Table<V>, endpoint: string, args: VankRoute.Args<V>)
    ensures UrlForIn(t, endpoint, args) == Err(UrlForNotFound) <==>
      forall j :: 0 <= j < |t.routes| ==>
        t.routes[j].endpoint != endpoint || VankRoute.KeySet(args) != t.routes[j].argConverters.Keys
    ensures forall i :: 0 <= i < |t.routes| && t.routes[i].endpoint == endpoint &&
                        VankRoute.KeySet(args) == t.routes[i].argConverters.Keys &&
                        (forall j :: 0 <= j < i ==> t.routes[j].endpoint != endpoint ||
                                                    VankRoute.KeySet(args) != t.routes[j].argConverters.Keys) ==>
      UrlForIn(t, endpoint, args) == UrlFor(t.routes[i], endpoint, args)
  {
    UrlForInNone(t, endpoint, args);
    forall i | 0 <= i < |t.routes| && Targets(t.routes[i], endpoint, args) &&
               (forall j :: 0 <= j < i ==> !Targets(t.routes[j], endpoint, args))
      ensures UrlForIn(t, endpoint, args) == UrlFor(t.routes[i], endpoint, args)
    {
      UrlForInFirst(t, endpoint, args, i);
    }
  }

  lemma UrlForGuards<V>(t: Table<V>, endpoint: string, args: VankRoute.Args<V>)
    ensures forall j :: 0 <= j < |t.routes| ==>
      (UrlFor(t.routes[j], endpoint, args) == Err(UrlForNotFound) <==> !Targets(t.routes[j], endpoint, args))
  {
    forall j | 0 <= j < |t.routes|
      ensures UrlFor(t.routes[j], endpoint, args) == Err(UrlForNotFound) <==> !Targets(t.routes[j], endpoint, args)
    {
      UrlForFound(t.routes[j], endpoint, args);
    }
  }

  lemma UrlForInNone<V>(t: Table<V>, endpoint: string, args: VankRoute.Args<V>)
    ensures UrlForIn(t, endpoint, args) == Err(UrlForNotFound) <==>
      forall j :: 0 <= j < |t.routes| ==> !Targets(t.routes[j], endpoint, args)
  {
    UrlForGuards(t, endpoint, args);
  }

  lemma UrlForInFirst<V>(t: Table<V>, endpoint: string, args: VankRoute.Args<V>, i: nat)
    requires i < |t.routes| && Targets(t.routes[i], endpoint, args)
    requires forall j :: 0 <= j < i ==> !Targets(t.routes[j], endpoint, args)
    ensures UrlForIn(t, endpoint, args) == UrlFor(t.routes[i], endpoint, args)
  {
    UrlForGuards(t, endpoint, args);
    var r := FirstUrl(t.routes, endpoint, args, 0);
    assert r.Some?;
    assert r.value == i;
  }

  /** A route's `url_for` raises UrlForNotFound only for its guard. */
  lemma UrlForFound<V>(r: Route<V>, endpoint: string, args: VankRoute.Args<V>)
    ensures UrlFor(r, endpoint, args) == Err(UrlForNotFound) <==>
      r.endpoint != endpoint || VankRoute.KeySet(args) != r.argConverters.Keys
  {
    if r.endpoint == endpoint && VankRoute.KeySet(args) == r.argConverters.Keys {
      SubstituteNeverNotFound(r.path, args, r.argConverters);
    }
  }

  lemma {:induction false} SubstituteNeverNotFound<V>(url: string, args: VankRoute.Args<V>, convs: map<string, Converter<V>>)
    requires VankRoute.KeySet(args) <= convs.Keys
    ensures Substitute(url, args, convs) != Err(UrlForNotFound)
    decreases |args|
  {
    if args != [] {
      var c := convs[args[0].0];
      if c.name.Some? {
        assert VankRoute.KeySet(args[1..]) <= VankRoute.KeySet(args);
        SubstituteNeverNotFound(Text.Replace(url, "<" + c.name.value + ":" + args[0].0 + ">", c.toUrl(args[0].1)), args[1..], convs);
      }
    }
  }

  // ---- the router object ----------------------------------------------------

  class Router<V> {
    var routes: seq<Route<V>>
    var paths: set<string>
    var views: map<string, Callback>

    function State(): Table<V>
      reads this
    {
      Table(routes, paths, views)
    }

    predicate Valid()
      reads this
    {
      Consistent(State())
    }

    constructor()
      ensures Valid() && State() == Table([], {}, map[])
    {
      routes := [];
      paths := {};
      views := map[];
    }

    /** `add_route`. */
    method AddRoute(path: string, route: Route<V>, view: Callback) returns (err: Option<AddError>)
      requires Valid() && ValidRoute(route)
      modifies this
      ensures Valid()
      ensures (State(), err) == Add(old(State()), path, route, view)
    {
      AddSpec(State(), path, route, view);
      if path in paths {
        return Some(PathTaken(path));
      }
      paths := paths + {path};
      routes := routes + [route];
      if route.endpoint in views && views[route.endpoint] != view {
        return Some(EndpointTaken(route.endpoint));
      }
      views := views[route.endpoint := view];
      return None;
    }

    /** `match`: scans the routes in registration order. */
    method Match(path: string, verb: string) returns (res: Result<(Option<Callback>, map<string, V>), MatchError>)
      ensures res == MatchIn(State(), path, verb)
    {
      var i := 0;
      while i < |routes|
        invariant i <= |routes|
        invariant FirstMatch(routes, path, 0) == FirstMatch(routes, path, i)
      {
        var hit := MatchPath(routes[i], path);
        if hit.Some? {
          var r := routes[i];
          if !CheckMethod(r, verb) {
            return Err(MethodNotAllowed(r.methods));
          }
          var converted := ConvertArguments(r, hit.value.groups);
          if converted.None? {
            return Err(ConversionFailed);
          }
          var view := if r.endpoint in views then Some(views[r.endpoint]) else None;
          return Ok((view, converted.value));
        }
        i := i + 1;
      }
      return Err(NotFound(path));
    }

    /** `include_router`: the sub-router's routes and views are read at the
        start. */
    method IncludeRouter(sub: Router<V>) returns (err: Option<AddError>)
      requires Valid() && sub.Valid()
      modifies this
      ensures Valid()
      ensures (State(), err) == IncludeAll(old(State()), old(sub.routes), old(sub.views))
    {
      var subRoutes := sub.routes;
      var subViews := sub.views;
      ghost var start := State();
      assert ViewsCover(subRoutes, subViews) && forall k :: 0 <= k < |subRoutes| ==> ValidRoute(subRoutes[k]);
      var i := 0;
      err := None;
      while i < |subRoutes|
        invariant i <= |subRoutes| && Valid() && err.None?
        invariant IncludeAll(start, subRoutes, subViews) == IncludeAll(State(), subRoutes[i..], subViews)
      {
        var r := subRoutes[i];
        IncludeStep(State(), subRoutes, subViews, i);
        err := AddRoute(r.path, r, subViews[r.endpoint]);
        if err.Some? {
          return;
        }
        i := i + 1;
      }
      assert subRoutes[i..] == [];
    }

    /** `url_for`: tries each route in registration order. */
    method UrlForAll(endpoint: string, args: VankRoute.Args<V>) returns (res: Result<string, UrlError>)
      ensures res == UrlForIn(State(), endpoint, args)
    {
      var i := 0;
      while i < |routes|
        invariant i <= |routes|
        invariant FirstUrl(routes, endpoint, args, 0) == FirstUrl(routes, endpoint, args, i)
      {
        var url := UrlFor(routes[i], endpoint, args);
        if url != Err(UrlForNotFound) {
          return url;
        }
        i := i + 1;
      }
      return Err(UrlForNotFound);
    }
  }
}
