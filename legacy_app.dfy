/** The application object of the oldest generation: a route map, the view
    registered for each endpoint, and the error handler that turns whatever
    a request raises into a response. */
module LegacyApp {
  import opened Wrappers
  import opened Text
  import opened Callables
  import opened LegacyCore
  import opened LegacyConverters
  import opened LegacyRoute
  import opened LegacyRouteMap
  import opened LegacyExceptionHandler

  /** A registered view: its signature record (identity and `__name__`),
      what calling it does, and whether it is callable at all. */
  datatype ViewFunc = ViewFunc(cb: Callback, run: Callable, isCallable: bool)

  /** The exception a route error stands for. The method-list error is the
      AttributeError its message raises by reading `endpoint` too early. */
  function RouteExc(e: RouteError): (x: Exc)
    ensures IsException(x)
  {
    match e
    case BadMethods => Raise(AttributeErrorKind)
    case ScanFailed(MissingConverter(_)) => Raise(SyntaxErrorKind)
    case ScanFailed(RepeatedVariable(_)) => Raise(LookupErrorKind)
    case ScanFailed(StrayBracket(_)) => Raise(SyntaxErrorKind)
    case UnknownConverter(_) => Raise(LookupErrorKind)
  }

  /** The exception `Route_Map.match` raises: MethodNotAllowedException
      without an `allow` attribute, NotFoundException, or the converter's
      ValueError. */
  function MatchExc(e: LegacyRouteMap.MatchError): (x: Exc)
    ensures IsException(x) && x.allow.None?
  {
    match e
    case MethodNotAllowed => Raise(MethodNotAllowedKind)
    case NotFound => Raise(NotFoundKind)
    case ConversionFailed => Raise(ValueErrorKind)
  }

  /** The `endpoint` keyword argument: not given, or given as None or as a
      text. */
  datatype EndpointArg = NoEndpoint | GivenEndpoint(value: Option<string>)

  /** The argument is given but falsy (None or the empty text):
      `kwargs.get('endpoint')` is falsy, so it is not popped and stays in
      `kwargs`, where it clashes with the positional `endpoint` of `Route`. */
  predicate LeftInKwargs(endpoint: EndpointArg) {
    endpoint.GivenEndpoint? && (endpoint.value.None? || endpoint.value.value == [])
  }

  /** The endpoint `__set_route` uses: the given one when it is truthy, else
      the view's `__name__`. */
  function EndpointOf(view: ViewFunc, endpoint: EndpointArg): (ep: string)
    ensures endpoint.GivenEndpoint? && endpoint.value.Some? && endpoint.value.value != [] ==> ep == endpoint.value.value
    ensures endpoint.NoEndpoint? || LeftInKwargs(endpoint) ==> ep == view.cb.name
  {
    if endpoint.GivenEndpoint? && endpoint.value.Some? && endpoint.value.value != [] then endpoint.value.value else view.cb.name
  }

  /** `__set_route` on the state as values: a falsy `endpoint` left in
      `kwargs` makes the call `Route(route_path, methods, endpoint, **kwargs)`
      raise TypeError (two values for `endpoint`); otherwise build the route,
      add it to the route map (LookupError for a taken template), and only
      then refuse an endpoint bound to another view with ValueError. */
  function SetRoute(m: Entries<Value>, views: map<string, ViewFunc>, registry: map<string, Converter<Value>>,
                    path: string, view: ViewFunc, methods: seq<string>, endpoint: EndpointArg)
    : (Entries<Value>, map<string, ViewFunc>, Option<Exc>)
  {
    var ep := EndpointOf(view, endpoint);
    if LeftInKwargs(endpoint) then (m, views, Some(Raise(TypeErrorKind)))
    else
      match RouteOf(path, methods, ep, registry)
      case Err(e) => (m, views, Some(RouteExc(e)))
      case Ok(route) =>
        match Add(m, path, route)
        case Err(_) => (m, views, Some(Raise(LookupErrorKind)))
        case Ok(m') =>
          if ep in views && views[ep].cb.id != view.cb.id then (m', views, Some(Raise(ValueErrorKind)))
          else (m', views[ep := view], None)
  }

  /** Every route's endpoint has a view. */
  predicate Covered(m: Entries<Value>, views: map<string, ViewFunc>) {
    forall i :: 0 <= i < |m.routes| ==> m.routes[i].endpoint in views
  }

  /** A falsy `endpoint` given explicitly raises TypeError. Otherwise: a
      route that does not compile or a taken template changes nothing. A
      new template is recorded with its route even when the endpoint then
      clashes: in that case the views stay as they were, so the endpoint's
      earlier view will serve the new template. The same view under the
      same endpoint is accepted. Every route keeps a view. */
  lemma SetRouteSpec(m: Entries<Value>, views: map<string, ViewFunc>, registry: map<string, Converter<Value>>,
                     path: string, view: ViewFunc, methods: seq<string>, endpoint: EndpointArg)
    requires Covered(m, views)
    ensures var (m', views', err) := SetRoute(m, views, registry, path, view, methods, endpoint);
            var ep := EndpointOf(view, endpoint);
            Covered(m', views') &&
            (LeftInKwargs(endpoint) ==> m' == m && views' == views && err == Some(Raise(TypeErrorKind))) &&
            (!LeftInKwargs(endpoint) ==>
            (RouteOf(path, methods, ep, registry).Err? || path in m.paths <==> m' == m) &&
            (RouteOf(path, methods, ep, registry).Err? ==>
               m' == m && views' == views && err == Some(RouteExc(RouteOf(path, methods, ep, registry).error))) &&
            (RouteOf(path, methods, ep, registry).Ok? && path in m.paths ==>
               m' == m && views' == views && err == Some(Raise(LookupErrorKind))) &&
            (m' != m ==> m'.routes == m.routes + [RouteOf(path, methods, ep, registry).value] &&
                         m'.paths == m.paths + {path}) &&
            (m' != m && ep in views && views[ep].cb.id != view.cb.id ==>
               views' == views && err == Some(Raise(ValueErrorKind))) &&
            (m' != m && (ep !in views || views[ep].cb.id == view.cb.id) ==>
               views' == views[ep := view] && err.None?) &&
            (err.None? <==> m' != m && (ep !in views || views[ep].cb.id == view.cb.id)))
  {
    var ep := EndpointOf(view, endpoint);
    var (m', views', err) := SetRoute(m, views, registry, path, view, methods, endpoint);
    if !LeftInKwargs(endpoint) && RouteOf(path, methods, ep, registry).Ok? {
      AddSpec(m, path, RouteOf(path, methods, ep, registry).value);
    }
    if !LeftInKwargs(endpoint) && RouteOf(path, methods, ep, registry).Ok? && path !in m.paths {
      assert path in m'.paths;
      forall i | 0 <= i < |m'.routes| ensures m'.routes[i].endpoint in views' {
        if i < |m.routes| {
          assert m'.routes[i] == m.routes[i];
        } else {
          assert m'.routes[i] == RouteOf(path, methods, ep, registry).value;
          RouteEndpoint(path, methods, ep, registry);
        }
      }
    }
  }

  /** A compiled route carries the endpoint it was built with. */
  lemma RouteEndpoint(path: string, methods: seq<string>, ep: string, registry: map<string, Converter<Value>>)
    requires RouteOf(path, methods, ep, registry).Ok?
    ensures RouteOf(path, methods, ep, registry).value.endpoint == ep
  {
    var ms := VankRoute.ParseMethods(methods);
    assert ms.Ok?;
  }

  /** `__dispatch_route` and the call of the view, before the error handler:
      the route map's answer, then `endpoint_func_dic[endpoint]` (KeyError
      when missing), then the view with the converted captures as keyword
      arguments. */
  function Attempt(m: Entries<Value>, views: map<string, ViewFunc>, q: Request): Outcome {
    match MatchIn(m, q.path, q.verb)
    case Err(e) => Err(MatchExc(e))
    case Ok((ep, args)) => if ep in views then views[ep].run(Call(q, args)) else Err(KeyError)
  }

  /** The `try`/`except Exception` of `__call__`: any `Exception` from
      dispatch or from the view becomes the handler's answer; the handler's
      own exceptions and non-`Exception` objects escape. */
  function Respond(m: Entries<Value>, views: map<string, ViewFunc>, handler: Handler, q: Request): Outcome {
    match Attempt(m, views, q)
    case Ok(v) => Ok(v)
    case Err(e) => if IsException(e) then handler(q, e) else Err(e)
  }

  /** While every route has a view, dispatch never raises KeyError: a
      matching route's view is called with the converted captures. */
  lemma AttemptCovered(m: Entries<Value>, views: map<string, ViewFunc>, q: Request)
    requires Covered(m, views)
    ensures MatchIn(m, q.path, q.verb).Ok? ==>
              var (ep, args) := MatchIn(m, q.path, q.verb).value;
              ep in views && Attempt(m, views, q) == views[ep].run(Call(q, args))
  {
    if MatchIn(m, q.path, q.verb).Ok? {
      var i := LegacyRouter.FirstMatch(m.routes, q.path, 0).value;
      assert MatchIn(m, q.path, q.verb).value.0 == m.routes[i].endpoint;
    }
  }

  /** With `default_handler`: a path no route matches is answered 404; a
      view that returns is answered with its value, response or not; a view
      that raises an `Exception` gets the handler's answer for it. */
  lemma RespondDefault(m: Entries<Value>, views: map<string, ViewFunc>, q: Request)
    ensures (forall j :: 0 <= j < |m.routes| ==> MatchPath(m.routes[j], q.path).None?) ==>
              Respond(m, views, DefaultHandler, q) == Ok(Response(404, []))
    ensures Attempt(m, views, q).Ok? ==> Respond(m, views, DefaultHandler, q) == Attempt(m, views, q)
    ensures Attempt(m, views, q).Err? && IsException(Attempt(m, views, q).error) ==>
              Respond(m, views, DefaultHandler, q) == DefaultHandler(q, Attempt(m, views, q).error)
  {
    MatchSpec(m, q.path, q.verb);
  }

  /** A method the first matching route refuses is never answered: the route
      map raises MethodNotAllowedException without `allow`, and
      `default_handler` reading `exc.allow` raises AttributeError out of
      `__call__`. */
  lemma MethodMismatchEscapes(m: Entries<Value>, views: map<string, ViewFunc>, q: Request, i: nat)
    requires i < |m.routes| && MatchPath(m.routes[i], q.path).Some?
    requires forall j :: 0 <= j < i ==> MatchPath(m.routes[j], q.path).None?
    requires !CheckMethod(m.routes[i], q.verb)
    ensures Respond(m, views, DefaultHandler, q).Err?
    ensures AttributeErrorKind in Respond(m, views, DefaultHandler, q).error.kinds
  {
    MatchSpec(m, q.path, q.verb);
  }

  class App {
    /** `route_map`, `endpoint_func_dic`, `error_handler`, and the
        converters the settings name. */
    const routeMap: RouteMap<Value>
    var views: map<string, ViewFunc>
    var errorHandler: Handler
    const registry: map<string, Converter<Value>>

    constructor(registry: map<string, Converter<Value>>)
      ensures fresh(routeMap) && routeMap.Contents() == Entries([], {})
      ensures views == map[] && errorHandler == DefaultHandler && this.registry == registry
    {
      routeMap := new RouteMap();
      views := map[];
      errorHandler := DefaultHandler;
      this.registry := registry;
    }

    predicate Valid()
      reads this, routeMap
    {
      Covered(routeMap.Contents(), views)
    }

    /** `__set_route`. */
    method SetRouteOf(path: string, view: ViewFunc, methods: seq<string>, endpoint: EndpointArg) returns (err: Option<Exc>)
      modifies this, routeMap
      ensures (routeMap.Contents(), views, err) ==
              SetRoute(old(routeMap.Contents()), old(views), registry, path, view, methods, endpoint)
      ensures errorHandler == old(errorHandler)
      ensures old(Valid()) ==> Valid()
    {
      ghost var before := routeMap.Contents();
      var ep := EndpointOf(view, endpoint);
      if LeftInKwargs(endpoint) {
        return Some(Raise(TypeErrorKind));
      }
      var route := NewRoute(path, methods, ep, registry);
      if route.Err? {
        return Some(RouteExc(route.error));
      }
      var taken := routeMap.AddRoute(path, route.value);
      if taken.Some? {
        return Some(Raise(LookupErrorKind));
      }
      if ep in views && views[ep].cb.id != view.cb.id {
        err := Some(Raise(ValueErrorKind));
      } else {
        views := views[ep := view];
        err := None;
      }
      if Covered(before, old(views)) {
        SetRouteSpec(before, old(views), registry, path, view, methods, endpoint);
      }
    }

    /** `new_route(path, methods, endpoint=…)(view)`: the view must be
        callable and the template must start with `/` (assertions), then
        `__set_route`. The decorator itself returns None. */
    method NewRouteOf(path: string, view: ViewFunc, methods: seq<string>, endpoint: EndpointArg) returns (err: Option<Exc>)
      modifies this, routeMap
      ensures !view.isCallable || !StartsWith(path, "/") ==>
                err == Some(Raise(AssertionErrorKind)) && routeMap.Contents() == old(routeMap.Contents()) &&
                views == old(views)
      ensures view.isCallable && StartsWith(path, "/") ==>
                (routeMap.Contents(), views, err) ==
                SetRoute(old(routeMap.Contents()), old(views), registry, path, view, methods, endpoint)
      ensures old(Valid()) ==> Valid()
    {
      if !view.isCallable || !StartsWith(path, "/") {
        return Some(Raise(AssertionErrorKind));
      }
      err := SetRouteOf(path, view, methods, endpoint);
    }

    /** The precondition of `start`: at least one endpoint is registered. */
    function Start(): (r: Option<Exc>)
      reads this
      ensures r.None? <==> views != map[]
    {
      if views == map[] then Some(Raise(AssertionErrorKind)) else None
    }

    /** `__call__` up to the response object: dispatch, call the view, and
        hand any `Exception` to the error handler. */
    function Call(q: Request): Outcome
      reads this, routeMap
    {
      Respond(routeMap.Contents(), views, errorHandler, q)
    }
  }
}
