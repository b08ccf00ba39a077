/** The registration facade and request cycle of the middle generation
    (`vank/core/app.py`). `Base` adapts a view function or `View` subclass
    and registers it in its router; `Application` names endpoints after the
    view, mounts sub-applications, builds the middleware stack and, at the
    core of the stack, runs the `handle_view` hooks and the view;
    `SubApplication` names endpoints `"<name>.<view>"` and puts its prefix in
    front of its routes. */
module VankApp {
  import opened Wrappers
  import opened Text
  import opened Callables
  import opened VankCore
  import opened VankRoute
  import VankRouter
  import opened VankExceptionHandler
  import opened VankMiddleware
  import opened VankApplicationBase
  import opened VankView

  type Table = VankRouter.Table<Value>

  /** The configured converters, by name. */
  type Registry = map<string, VankRoute.Converter<Value>>

  /** The `endpoint` keyword argument: not given, None, a text, or another
      value. */
  datatype EndpointArg = NoEndpoint | NoneEndpoint | TextEndpoint(text: string) | OtherEndpoint

  /** The exception `Route(...)` raises: AttributeError for a refused
      method list, because the ValueError's message reads `self.endpoint`
      before `__init__` has set it; SyntaxError for the template. */
  function RouteExc(e: RouteError): Exc {
    if e.BadMethods? then Raise(AttributeErrorKind) else Raise(SyntaxErrorKind)
  }

  // ---- Base._set_route ------------------------------------------------------

  /** `Base._set_route`: the template must start with "/" (an assertion), the
      endpoint must be a non-empty text (ValueError), the route is built and
      then added to the router. The router's table after the call, and what
      was raised. */
  function SetRouteOf(t: Table, registry: Registry, path: string, view: Callback, methods: seq<string>, endpoint: EndpointArg): (Table, Option<Exc>) {
    if !StartsWith(path, "/") then (t, Some(Raise(AssertionErrorKind)))
    else if !endpoint.TextEndpoint? || endpoint.text == "" then (t, Some(Raise(ValueErrorKind)))
    else
      match RouteOf(path, methods, endpoint.text, registry)
      case Err(e) => (t, Some(RouteExc(e)))
      case Ok(route) =>
        match VankRouter.Add(t, path, route, view)
        case Err(_) => (t, Some(Raise(ValueErrorKind)))
        case Ok(u) => (u, None)
  }

  /** Registration succeeds exactly when the template starts with "/", the
      endpoint is a non-empty text, the route builds and the router accepts
      it; it then appends a route for exactly this template, endpoint and
      method list, and binds the endpoint to the view. On failure the table
      is unchanged. */
  lemma SetRouteSpec(t: Table, registry: Registry, path: string, view: Callback, methods: seq<string>, endpoint: EndpointArg)
    requires VankRouter.Consistent(t)
    ensures var (u, err) := SetRouteOf(t, registry, path, view, methods, endpoint);
            VankRouter.Consistent(u) &&
            (err.Some? ==> u == t) &&
            (err.None? <==> StartsWith(path, "/") && endpoint.TextEndpoint? && endpoint.text != "" &&
                            RouteOf(path, methods, endpoint.text, registry).Ok? &&
                            VankRouter.Add(t, path, RouteOf(path, methods, endpoint.text, registry).value, view).Ok?) &&
            (err.None? ==>
              |u.routes| == |t.routes| + 1 && u.routes[..|t.routes|] == t.routes &&
              var r := u.routes[|t.routes|];
              r.path == path && r.endpoint == endpoint.text && Ok(r.methods) == ParseMethods(methods) &&
              u.paths == t.paths + {path} && u.views == t.views[endpoint.text := view])
    ensures !StartsWith(path, "/") ==> SetRouteOf(t, registry, path, view, methods, endpoint).1 == Some(Raise(AssertionErrorKind))
    ensures StartsWith(path, "/") && (!endpoint.TextEndpoint? || endpoint.text == "") ==>
              SetRouteOf(t, registry, path, view, methods, endpoint).1 == Some(Raise(ValueErrorKind))
  {
    if StartsWith(path, "/") && endpoint.TextEndpoint? && endpoint.text != "" {
      var rr := RouteOf(path, methods, endpoint.text, registry);
      if rr.Ok? {
        RouteOfValid(path, methods, endpoint.text, registry);
        VankRouter.AddSpec(t, path, rr.value, view);
        if VankRouter.Add(t, path, rr.value, view).Ok? {
          var u := VankRouter.Add(t, path, rr.value, view).value;
          assert u.routes[..|t.routes|] == t.routes;
        }
      }
    }
  }

  /** `Base._set_route` on a router object. */
  method SetRoute(router: VankRouter.Router<Value>, registry: Registry, path: string, view: Callback, methods: seq<string>, endpoint: EndpointArg)
    returns (err: Option<Exc>)
    requires router.Valid()
    modifies router
    ensures router.Valid()
    ensures (router.State(), err) == SetRouteOf(old(router.State()), registry, path, view, methods, endpoint)
  {
    if !StartsWith(path, "/") {
      return Some(Raise(AssertionErrorKind));
    }
    if !endpoint.TextEndpoint? || endpoint.text == "" {
      return Some(Raise(ValueErrorKind));
    }
    var route := NewRoute(path, methods, endpoint.text, registry);
    if route.Err? {
      return Some(RouteExc(route.error));
    }
    RouteOfValid(path, methods, endpoint.text, registry);
    var e := router.AddRoute(path, route.value, view);
    if e.Some? {
      return Some(Raise(ValueErrorKind));
    }
    return None;
  }

  // ---- Base.adapt_view_func -------------------------------------------------

  /** What the decorator is applied to: a `View` subclass, a plain function,
      or anything else. */
  datatype Target = ClassTarget(cls: ViewClass) | FunctionTarget(f: Callback) | OtherTarget

  /** The view to register and its method list (an empty list stands for
      None, which the route reads as all eight methods). */
  datatype Adapted = Adapted(view: Callback, methods: seq<string>)

  /** `adapt_view_func` given the singleton slots before the call: its
      outcome, and the slots and instance count after it. A class view is
      constructed before its methods are listed, so its slot is filled even
      when it defines no method. */
  function Adapt(slots: map<string, nat>, created: nat, target: Target, methods: Option<seq<string>>): (Result<Adapted, Exc>, map<string, nat>, nat) {
    match target
    case ClassTarget(cls) =>
      if methods.Some? then (Err(Raise(ValueErrorKind)), slots, created)
      else
        var (i, s1, n1) := NewOwnSlot(slots, created, cls.name);
        var ms := GetViewMethods(cls);
        if ms.Err? then (Err(ms.error), s1, n1)
        else (Ok(Adapted(InstanceCallback(cls, i), ms.value)), s1, n1)
    case FunctionTarget(f) => (Ok(Adapted(f, if methods.Some? then methods.value else [])), slots, created)
    case OtherTarget => (Err(Raise(ValueErrorKind)), slots, created)
  }

  /** A class view given an explicit method list, and anything that is
      neither a class view nor a function, raise ValueError without touching
      the slots; a class view registers its single instance with the methods
      it defines; a function is registered as it is, with the methods given. */
  lemma AdaptSpec(slots: map<string, nat>, created: nat, target: Target, methods: Option<seq<string>>)
    requires SlotsValid(slots, created)
    ensures var (r, s1, n1) := Adapt(slots, created, target, methods);
            SlotsValid(s1, n1) &&
            ((target.ClassTarget? && methods.Some?) || target.OtherTarget? ==>
               r == Err(Raise(ValueErrorKind)) && s1 == slots && n1 == created) &&
            (target.ClassTarget? && methods.None? ==>
               target.cls.name in s1 &&
               (r.Ok? <==> GetViewMethods(target.cls).Ok?) &&
               (r.Ok? ==> r.value.view == InstanceCallback(target.cls, s1[target.cls.name]) &&
                          r.value.methods == GetViewMethods(target.cls).value)) &&
            (target.FunctionTarget? ==>
               r.Ok? && r.value.view == target.f && s1 == slots && n1 == created &&
               (methods.Some? ==> r.value.methods == methods.value) &&
               (methods.None? ==> r.value.methods == []))
  {
    if target.ClassTarget? && methods.None? {
      OwnSlotSingleton(slots, created, target.cls.name, target.cls.name);
    }
  }

  /** A class view defining all eight HTTP methods cannot be registered: its
      method list is not a strict subset of the eight, and the refusal
      surfaces as AttributeError (see `RouteExc`). */
  lemma AllEightClassViewRefused(t: Table, registry: Registry, path: string, cls: ViewClass, instance: nat, endpoint: EndpointArg)
    requires forall m :: m in ViewMethods.HttpMethods ==> m in cls.attrs
    requires StartsWith(path, "/") && endpoint.TextEndpoint? && endpoint.text != ""
    ensures GetViewMethods(cls).Ok?
    ensures SetRouteOf(t, registry, path, InstanceCallback(cls, instance), GetViewMethods(cls).value, endpoint).1 ==
              Some(Raise(AttributeErrorKind))
  {
    assert "get" in ViewMethods.HttpMethods;
    ViewMethods.DefinedAll(ViewMethods.HttpMethods, cls.attrs.Keys);
    assert GetViewMethods(cls).value == ViewMethods.HttpMethods;
    HttpMethodsRefused();
  }

  /** The eight names as a method list are refused. */
  lemma HttpMethodsRefused()
    ensures ParseMethods(ViewMethods.HttpMethods).Err?
  {
    UpperSetOfHttpMethods();
  }

  /** Upper-casing the view method names gives the eight HTTP methods. */
  lemma UpperSetOfHttpMethods()
    ensures (set m | m in ViewMethods.HttpMethods :: Upper(m)) == Elems(AllMethods)
  {
    var ms := ViewMethods.HttpMethods;
    UpperHttpMethods();
    forall m | m in ms ensures Upper(m) in AllMethods {
      var i :| 0 <= i < |ms| && ms[i] == m;
      assert Upper(m) == AllMethods[i];
    }
    forall x | x in AllMethods ensures x in (set m | m in ms :: Upper(m)) {
      var i :| 0 <= i < |AllMethods| && AllMethods[i] == x;
      assert ms[i] in ms;
    }
  }

  lemma UpperWord(s: string, t: string)
    requires |s| == |t| && forall i :: 0 <= i < |s| ==> UpperChar(s[i]) == t[i]
    ensures Upper(s) == t
  {
  }

  /** The eight view method names upper-cased are the eight HTTP methods, in
      the same order. */
  lemma UpperHttpMethods()
    ensures |ViewMethods.HttpMethods| == |AllMethods|
    ensures forall i :: 0 <= i < |AllMethods| ==> Upper(ViewMethods.HttpMethods[i]) == AllMethods[i]
  {
    forall i | 0 <= i < |AllMethods|
      ensures Upper(ViewMethods.HttpMethods[i]) == AllMethods[i]
    {
      UpperHttpMethod(i);
    }
  }

  lemma UpperHttpMethod(i: nat)
    requires i < |AllMethods|
    ensures Upper(ViewMethods.HttpMethods[i]) == AllMethods[i]
  {
    if i == 0 { UpperWord("get", "GET"); }
    else if i == 1 { UpperWord("post", "POST"); }
    else if i == 2 { UpperWord("put", "PUT"); }
    else if i == 3 { UpperWord("patch", "PATCH"); }
    else if i == 4 { UpperWord("delete", "DELETE"); }
    else if i == 5 { UpperWord("head", "HEAD"); }
    else if i == 6 { UpperWord("options", "OPTIONS"); }
    else { UpperWord("trace", "TRACE"); }
  }

  /** `adapt_view_func` on the class-level slots. */
  method AdaptViewFunc(views: ViewClasses, target: Target, methods: Option<seq<string>>) returns (r: Result<Adapted, Exc>)
    requires views.Valid()
    modifies views
    ensures views.Valid()
    ensures (r, views.slots, views.created) == Adapt(old(views.slots), old(views.created), target, methods)
  {
    match target
    case ClassTarget(cls) =>
      if methods.Some? {
        return Err(Raise(ValueErrorKind));
      }
      var instance := views.Construct(cls.name);
      var ms := GetViewMethods(cls);
      if ms.Err? {
        return Err(ms.error);
      }
      return Ok(Adapted(InstanceCallback(cls, instance), ms.value));
    case FunctionTarget(f) =>
      return Ok(Adapted(f, if methods.Some? then methods.value else []));
    case OtherTarget =>
      return Err(Raise(ValueErrorKind));
  }

  // ---- registration through new_route ---------------------------------------

  /** Whose `_set_route` fills in a missing endpoint: `Application` uses the
      view's `__name__`, a `SubApplication` `"<name>.<view's __name__>"`. */
  datatype Naming = AppNaming | SubNaming(name: string)

  /** The endpoint `_set_route` passes on: an endpoint that is not given or
      is None is replaced by the default; any other value is kept. */
  function EndpointFor(naming: Naming, endpoint: EndpointArg, view: Callback): (e: EndpointArg)
    ensures endpoint.NoEndpoint? || endpoint.NoneEndpoint? ==>
              e == TextEndpoint(if naming.AppNaming? then view.name else naming.name + "." + view.name)
    ensures endpoint.TextEndpoint? || endpoint.OtherEndpoint? ==> e == endpoint
  {
    if endpoint.NoEndpoint? || endpoint.NoneEndpoint? then
      match naming
      case AppNaming => TextEndpoint(view.name)
      case SubNaming(name) => TextEndpoint(name + "." + view.name)
    else endpoint
  }

  /** `new_route(path, methods, endpoint=...)(target)`: adapt, then
      `_set_route`. The router's table, the slots and the instance count
      after the call, and what was raised. */
  function RegisterOf(t: Table, slots: map<string, nat>, created: nat, registry: Registry, naming: Naming,
                      path: string, target: Target, methods: Option<seq<string>>, endpoint: EndpointArg)
    : (Table, map<string, nat>, nat, Option<Exc>)
  {
    var (a, s1, n1) := Adapt(slots, created, target, methods);
    if a.Err? then (t, s1, n1, Some(a.error))
    else
      var (u, err) := SetRouteOf(t, registry, path, a.value.view, a.value.methods, EndpointFor(naming, endpoint, a.value.view));
      (u, s1, n1, err)
  }

  method Register(router: VankRouter.Router<Value>, views: ViewClasses, registry: Registry, naming: Naming,
                  path: string, target: Target, methods: Option<seq<string>>, endpoint: EndpointArg)
    returns (err: Option<Exc>)
    requires router.Valid() && views.Valid()
    modifies router, views
    ensures router.Valid() && views.Valid()
    ensures (router.State(), views.slots, views.created, err) ==
            RegisterOf(old(router.State()), old(views.slots), old(views.created), registry, naming, path, target, methods, endpoint)
  {
    var a := AdaptViewFunc(views, target, methods);
    if a.Err? {
      return Some(a.error);
    }
    err := SetRoute(router, registry, path, a.value.view, a.value.methods, EndpointFor(naming, endpoint, a.value.view));
  }

  /** The verb shortcuts `get`, `post`, `put`, `patch` and `delete`. */
  datatype Verb = GET | POST | PUT | PATCH | DELETE

  function VerbMethods(v: Verb): seq<string> {
    match v
    case GET => ["GET"]
    case POST => ["POST"]
    case PUT => ["PUT"]
    case PATCH => ["PATCH"]
    case DELETE => ["DELETE"]
  }

  /** A shortcut registers a function for its one method only, and refuses a
      class view (which must not be given methods). */
  lemma ShortcutSpec(t: Table, slots: map<string, nat>, created: nat, registry: Registry, naming: Naming,
                     v: Verb, path: string, target: Target, endpoint: EndpointArg)
    requires VankRouter.Consistent(t) && SlotsValid(slots, created)
    ensures var (u, s1, n1, err) := RegisterOf(t, slots, created, registry, naming, path, target, Some(VerbMethods(v)), endpoint);
            (target.ClassTarget? ==> err == Some(Raise(ValueErrorKind)) && u == t && s1 == slots) &&
            (err.None? ==> u.routes[|t.routes|].methods == VerbMethods(v) &&
                           forall verb :: CheckMethod(u.routes[|t.routes|], verb) <==> Upper(verb) == VerbMethods(v)[0])
  {
    var (a, s1, n1) := Adapt(slots, created, target, Some(VerbMethods(v)));
    AdaptSpec(slots, created, target, Some(VerbMethods(v)));
    if a.Ok? {
      var e := EndpointFor(naming, endpoint, a.value.view);
      SetRouteSpec(t, registry, path, a.value.view, a.value.methods, e);
      VerbMethodsParse(v);
    }
  }

  /** A shortcut's method list is accepted as it is. */
  lemma VerbMethodsParse(v: Verb)
    ensures |VerbMethods(v)| == 1 && ParseMethods(VerbMethods(v)) == Ok(VerbMethods(v))
  {
    var m := VerbMethods(v)[0];
    assert VerbMethods(v) == [m];
    assert IsUpper(m) && m in AllMethods && m != "HEAD";
    SingleMethodParses(m);
  }

  /** One upper-case method other than HEAD is accepted as it is. */
  lemma SingleMethodParses(m: string)
    requires IsUpper(m) && m in AllMethods && m != "HEAD"
    ensures ParseMethods([m]) == Ok([m])
  {
    SingleMethodSet(m);
    var r := ParseMethods([m]).value;
    assert |r| == 1 && r[0] == Upper(m);
    UpperOfUpper(m);
    assert r == [m];
  }

  lemma SingleMethodSet(m: string)
    requires IsUpper(m) && m in AllMethods && m != "HEAD"
    ensures (set x | x in [m] :: Upper(x)) < Elems(AllMethods)
  {
    UpperOfUpper(m);
    assert (set x | x in [m] :: Upper(x)) == {m};
    assert "HEAD" in Elems(AllMethods);
  }

  // ---- the request cycle ----------------------------------------------------

  /** The exception `router.match()` raises. */
  function MatchExc(e: VankRouter.MatchError): Exc {
    match e
    case MethodNotAllowed(allow) => MethodNotAllowed(allow)
    case NotFound(_) => Raise(NotFoundKind)
    case UnknownArguments(_) => Exc({KeyErrorKind, LookupErrorKind, ExceptionKind}, [])
  }

  /** The loop over the `handle_view` hooks: each is called in order with the
      view and the keyword arguments; a raise propagates and the first truthy
      answer ends the loop. When none answers the result is a false value. */
  function ViewAnswer(hooks: seq<ViewHook>, view: Option<Callback>, kw: map<string, Value>): (r: Outcome)
    ensures r.Ok? && Truthy(r.value) ==> exists j :: 0 <= j < |hooks| && r == hooks[j](view, kw)
    decreases |hooks|
  {
    if hooks == [] then Ok(NoneValue)
    else
      var r := hooks[0](view, kw);
      if r.Err? || Truthy(r.value) then r
      else
        var rest := ViewAnswer(hooks[1..], view, kw);
        assert forall j :: 1 <= j < |hooks| ==> hooks[j] == hooks[1..][j - 1];
        rest
  }

  /** The hook whose answer is truthy first decides, and the hooks after it
      are not called. */
  lemma {:induction false} FirstTruthyHookWins(hooks: seq<ViewHook>, view: Option<Callback>, kw: map<string, Value>, j: nat)
    requires j < |hooks|
    requires forall k :: 0 <= k < j ==> hooks[k](view, kw).Ok? && !Truthy(hooks[k](view, kw).value)
    requires hooks[j](view, kw).Err? || Truthy(hooks[j](view, kw).value)
    ensures ViewAnswer(hooks, view, kw) == hooks[j](view, kw)
    decreases j
  {
    if j > 0 {
      FirstTruthyHookWins(hooks[1..], view, kw, j - 1);
    }
  }

  /** The same loop as it runs: a `for` over a copy of the hook list with a
      `break` on the first truthy answer. */
  method RunViewHooks(hooks: seq<ViewHook>, view: Option<Callback>, kw: map<string, Value>) returns (r: Outcome)
    ensures r == ViewAnswer(hooks, view, kw)
  {
    var i := 0;
    while i < |hooks|
      invariant i <= |hooks|
      invariant ViewAnswer(hooks, view, kw) == ViewAnswer(hooks[i..], view, kw)
    {
      assert hooks[i..][1..] == hooks[i + 1..];
      var response := hooks[i](view, kw);
      if response.Err? || Truthy(response.value) {
        return response;
      }
      i := i + 1;
    }
    return Ok(NoneValue);
  }

  /** `__get_response(*args, **kwargs)` given what `router.match()` returned
      and how each registered view behaves when called: the keyword
      arguments are the route's converted captures updated with the ones the
      middlewares passed; the hooks run first; without a truthy answer the
      view is called with the keyword arguments only (calling None raises
      TypeError); anything but a response is a NoResponseException. */
  function GetResponse(m: Result<(Option<Callback>, map<string, Value>), VankRouter.MatchError>, hooks: seq<ViewHook>,
                       run: Callback -> Callable, c: Call): Outcome {
    match m
    case Err(e) => Err(MatchExc(e))
    case Ok((view, kwargs)) =>
      var kw := kwargs + c.kwargs;
      var pre := ViewAnswer(hooks, view, kw);
      if pre.Err? then pre
      else
        var resp :=
          if Truthy(pre.value) then pre
          else if view.None? then Err(Raise(TypeErrorKind))
          else run(view.value)(Call([], kw));
        if resp.Ok? && !resp.value.Response? then Err(Raise(NoResponseKind)) else resp
  }

  /** Without a truthy hook answer the found view is called with no
      positional argument and with the route's captures, where a keyword
      argument from the middlewares replaces a capture of the same name; its
      response or raise is the result, and any other value is a
      NoResponseException. */
  lemma GetResponseCallsView(view: Callback, kwargs: map<string, Value>, hooks: seq<ViewHook>, run: Callback -> Callable, c: Call)
    requires ViewAnswer(hooks, Some(view), kwargs + c.kwargs).Ok? && !Truthy(ViewAnswer(hooks, Some(view), kwargs + c.kwargs).value)
    ensures var kw := kwargs + c.kwargs;
            kw.Keys == kwargs.Keys + c.kwargs.Keys &&
            (forall k :: k in c.kwargs ==> kw[k] == c.kwargs[k]) &&
            (forall k :: k in kwargs && k !in c.kwargs ==> kw[k] == kwargs[k]) &&
            var resp := run(view)(Call([], kw));
            GetResponse(Ok((Some(view), kwargs)), hooks, run, c) ==
              (if resp.Ok? && !resp.value.Response? then Err(Raise(NoResponseKind)) else resp)
  {
  }

  /** Positional arguments from the middlewares never reach the view or the
      hooks. */
  lemma PositionalArgumentsDropped(m: Result<(Option<Callback>, map<string, Value>), VankRouter.MatchError>, hooks: seq<ViewHook>,
                                   run: Callback -> Callable, args1: seq<Value>, args2: seq<Value>, kwargs: map<string, Value>)
    ensures GetResponse(m, hooks, run, Call(args1, kwargs)) == GetResponse(m, hooks, run, Call(args2, kwargs))
  {
  }

  /** A truthy hook answer skips the view: the result does not depend on how
      views behave. */
  lemma HookAnswerSkipsView(m: Result<(Option<Callback>, map<string, Value>), VankRouter.MatchError>, hooks: seq<ViewHook>,
                            run1: Callback -> Callable, run2: Callback -> Callable, c: Call)
    requires m.Ok?
    requires var kw := m.value.1 + c.kwargs;
             ViewAnswer(hooks, m.value.0, kw).Ok? && Truthy(ViewAnswer(hooks, m.value.0, kw).value)
    ensures GetResponse(m, hooks, run1, c) == GetResponse(m, hooks, run2, c)
  {
  }

  /** The innermost link: the bound `__get_response`, a plain function. */
  function GetResponseLink(m: Result<(Option<Callback>, map<string, Value>), VankRouter.MatchError>, hooks: seq<ViewHook>,
                           run: Callback -> Callable): Link {
    Link((c: Call) => GetResponse(m, hooks, run, c), false)
  }

  /** `entry_func()` for one request: the stack built from `layers` around
      the guarded `__get_response`, called without arguments; None when the
      stack was never built (calling None raises TypeError). */
  function EntryAnswer(layers: Option<seq<Hooks>>, m: Result<(Option<Callback>, map<string, Value>), VankRouter.MatchError>,
                       hooks: seq<ViewHook>, run: Callback -> Callable, errorHandler: VankExceptionHandler.Converter): Outcome {
    if layers.None? then Err(Raise(TypeErrorKind))
    else Chain(layers.value, GetResponseLink(m, hooks, run), errorHandler).run(Call([], map[]))
  }

  /** With the default converter and middlewares without request or
      response hooks, a request that is not found is answered 404, and one
      whose method the first matching route refuses is answered 405 with
      that route's methods. */
  lemma EntryAnswersErrors(hs: seq<Hooks>, m: Result<(Option<Callback>, map<string, Value>), VankRouter.MatchError>,
                           hooks: seq<ViewHook>, run: Callback -> Callable)
    requires forall j :: 0 <= j < |hs| ==> hs[j] == NoHooks
    requires m.Err?
    ensures m.error.NotFound? ==> EntryAnswer(Some(hs), m, hooks, run, DefaultConverter) == Ok(Response(404, []))
    ensures m.error.MethodNotAllowed? ==> EntryAnswer(Some(hs), m, hooks, run, DefaultConverter) == Ok(Response(405, m.error.allow))
  {
    var fin := GetResponseLink(m, hooks, run);
    assert forall e :: DefaultConverter(e).Ok?;
    HooklessChainTransparent(hs, fin, DefaultConverter, Call([], map[]));
    assert fin.run(Call([], map[])) == Err(MatchExc(m.error));
    GuardConverts(fin, DefaultConverter, Call([], map[]));
  }

  // ---- the middleware stack -------------------------------------------------

  /** The `handle_view` of one imported class, as a list of at most one. */
  function ViewHookOf(imp: Imported): seq<ViewHook> {
    if imp.handleView.Some? then [imp.handleView.value] else []
  }

  /** The `handle_view` hooks of the classes, in configured order. */
  function ViewHooksOf(items: seq<Result<Imported, Exc>>): seq<ViewHook>
    requires AllMiddleware(items)
  {
    if items == [] then []
    else
      assert AllMiddleware(items[1..]) by {
        assert forall k :: 0 <= k < |items[1..]| ==> items[1..][k] == items[k + 1];
      }
      ViewHookOf(items[0].value) + ViewHooksOf(items[1..])
  }

  lemma {:induction false} ViewHooksOfSnoc(items: seq<Result<Imported, Exc>>)
    requires AllMiddleware(items) && items != []
    ensures AllMiddleware(items[..|items| - 1])
    ensures ViewHooksOf(items) == ViewHooksOf(items[..|items| - 1]) + ViewHookOf(items[|items| - 1].value)
    decreases |items|
  {
    var front := items[..|items| - 1];
    assert forall k :: 0 <= k < |front| ==> front[k] == items[k];
    if |items| > 1 {
      var rest := items[1..];
      assert forall k :: 0 <= k < |rest| ==> rest[k] == items[k + 1];
      assert rest[..|rest| - 1] == front[1..];
      ViewHooksOfSnoc(rest);
      assert front[0] == items[0];
      assert ViewHooksOf(items) == ViewHookOf(items[0].value) + ViewHooksOf(rest);
      assert ViewHooksOf(front) == ViewHookOf(items[0].value) + ViewHooksOf(front[1..]);
    } else {
      assert front == [];
    }
  }

  /** `initialize_middleware_stack` walking the entries from the last to the
      first: each `handle_view` is inserted at the front of `hv`; the walk
      stops at an import that raised or at an entry that is not a middleware
      class (`Refused`). What was raised, and the hook list left behind. */
  function StackOf(items: seq<Result<Imported, Exc>>, hv: seq<ViewHook>): (Option<Exc>, seq<ViewHook>)
    decreases |items|
  {
    if items == [] then (None, hv)
    else
      var last := items[|items| - 1];
      if last.Err? then (Some(last.error), hv)
      else if !IsMiddleware(last.value) then (Some(Refused(last.value)), hv)
      else StackOf(items[..|items| - 1], ViewHookOf(last.value) + hv)
  }

  /** One step of the walk at entry `i`: an import that raised or a class
      that is not a middleware stops it; a middleware class puts its hook in
      front and the walk goes on. */
  lemma StackOfAt(items: seq<Result<Imported, Exc>>, i: nat, hv: seq<ViewHook>)
    requires i < |items|
    ensures StackOf(items[..i + 1], hv) ==
      (if items[i].Err? then (Some(items[i].error), hv)
       else if !IsMiddleware(items[i].value) then (Some(Refused(items[i].value)), hv)
       else StackOf(items[..i], ViewHookOf(items[i].value) + hv))
  {
    var p := items[..i + 1];
    assert p[|p| - 1] == items[i];
    assert p[..|p| - 1] == items[..i];
  }

  /** The walk raises what `init_middleware`'s walk raises, and when it gets
      through, the hooks are in configured order, in front of those that were
      there before. */
  lemma {:induction false} StackOfSpec(items: seq<Result<Imported, Exc>>, hv: seq<ViewHook>)
    ensures StackOf(items, hv).0 == ChainError(items)
    ensures ChainError(items).None? ==> StackOf(items, hv).1 == ViewHooksOf(items) + hv
    decreases |items|
  {
    if items != [] {
      var n := |items|;
      var last := items[n - 1];
      var front := items[..n - 1];
      if last.Ok? && IsMiddleware(last.value) {
        StackOfSpec(front, ViewHookOf(last.value) + hv);
        if ChainError(items).None? {
          ViewHooksOfSnoc(items);
          assert ViewHooksOf(front) + (ViewHookOf(last.value) + hv) == ViewHooksOf(front) + ViewHookOf(last.value) + hv;
        }
      }
    }
  }

  // ---- the application objects ----------------------------------------------

  /** `import_from_str`'s result for `include`: a `SubApplication`, or any
      other object. */
  datatype Includable = SubApp(app: SubApplication) | NotSubApp

  class Application {
    const router: VankRouter.Router<Value>
    /** The singleton slots of the view classes. */
    const views: ViewClasses
    const registry: Registry
    /** The imported `ERROR_HANDLER`. */
    const errorHandler: VankExceptionHandler.Converter
    var handleViews: seq<ViewHook>
    /** The layers of `entry_func`, outermost first; None before the stack is
        built. */
    var entryLayers: Option<seq<Hooks>>
    var subApplications: map<string, SubApplication>

    predicate Valid()
      reads this, router, views
    {
      router.Valid() && views.Valid()
    }

    /** `__init__` up to `_setup`: an empty router, no hooks, no entry
        function, no sub-application. */
    constructor(views: ViewClasses, registry: Registry, errorHandler: VankExceptionHandler.Converter)
      requires views.Valid()
      ensures Valid() && fresh(router)
      ensures this.views == views && this.registry == registry && this.errorHandler == errorHandler
      ensures router.State() == VankRouter.Table([], {}, map[])
      ensures handleViews == [] && entryLayers.None? && subApplications == map[]
    {
      router := new VankRouter.Router();
      this.views := views;
      this.registry := registry;
      this.errorHandler := errorHandler;
      handleViews := [];
      entryLayers := None;
      subApplications := map[];
    }

    /** `new_route(path, methods, endpoint=...)(target)`, and `add_route`,
        which does the same. */
    method NewRoute(path: string, target: Target, methods: Option<seq<string>>, endpoint: EndpointArg) returns (err: Option<Exc>)
      requires Valid()
      modifies router, views
      ensures Valid()
      ensures (router.State(), views.slots, views.created, err) ==
              RegisterOf(old(router.State()), old(views.slots), old(views.created), registry, AppNaming, path, target, methods, endpoint)
    {
      err := Register(router, views, registry, AppNaming, path, target, methods, endpoint);
    }

    /** `get`, `post`, `put`, `patch` and `delete`. */
    method Shortcut(v: Verb, path: string, target: Target, endpoint: EndpointArg) returns (err: Option<Exc>)
      requires Valid()
      modifies router, views
      ensures Valid()
      ensures (router.State(), views.slots, views.created, err) ==
              RegisterOf(old(router.State()), old(views.slots), old(views.created), registry, AppNaming, path, target, Some(VerbMethods(v)), endpoint)
    {
      err := NewRoute(path, target, Some(VerbMethods(v)), endpoint);
    }

    /** `include(sub)`: TypeError for anything but a sub-application, and
        ValueError for a name already included; otherwise the sub-router's
        routes are added in order (a failure stops there, keeping the routes
        already added, and raises ValueError before the sub-application is
        bound), then `sub.root` is set and the sub-application recorded by
        name. */
    method Include(arg: Result<Includable, Exc>) returns (err: Option<Exc>)
      requires Valid()
      requires arg.Ok? && arg.value.SubApp? ==> arg.value.app.router.Valid()
      modifies router, if arg.Ok? && arg.value.SubApp? then {arg.value.app} else {}, this
      ensures Valid()
      ensures arg.Err? ==> err == Some(arg.error) && router.State() == old(router.State()) && subApplications == old(subApplications)
      ensures arg.Ok? && arg.value.NotSubApp? ==>
                err == Some(Raise(TypeErrorKind)) && router.State() == old(router.State()) && subApplications == old(subApplications)
      ensures arg.Ok? && arg.value.SubApp? ==>
                var sub := arg.value.app;
                (sub.name in old(subApplications) ==>
                   err == Some(Raise(ValueErrorKind)) && router.State() == old(router.State()) &&
                   subApplications == old(subApplications) && sub.root == old(sub.root)) &&
                (sub.name !in old(subApplications) ==>
                   var (u, e) := VankRouter.IncludeAll(old(router.State()), old(sub.router.routes), old(sub.router.views));
                   router.State() == u &&
                   (e.Some? ==> err == Some(Raise(ValueErrorKind)) && subApplications == old(subApplications) && sub.root == old(sub.root)) &&
                   (e.None? ==> err.None? && sub.root == Some(this) && subApplications == old(subApplications)[sub.name := sub]))
      ensures handleViews == old(handleViews) && entryLayers == old(entryLayers)
    {
      if arg.Err? {
        return Some(arg.error);
      }
      if arg.value.NotSubApp? {
        return Some(Raise(TypeErrorKind));
      }
      var sub := arg.value.app;
      if sub.name in subApplications {
        return Some(Raise(ValueErrorKind));
      }
      var e := router.IncludeRouter(sub.router);
      if e.Some? {
        return Some(Raise(ValueErrorKind));
      }
      sub.root := Some(this);
      subApplications := subApplications[sub.name := sub];
      return None;
    }

    /** `initialize_middleware_stack` over the configured entries: on
        success `entry_func` is the stack of their instances, the first
        configured outermost, and their `handle_view` hooks are in front of
        the old ones in configured order; on a raise `entry_func` is
        unchanged, but the hooks of the classes after the failing one are
        already inserted. */
    method InitializeMiddlewareStack(items: seq<Result<Imported, Exc>>) returns (err: Option<Exc>)
      modifies this
      ensures (err, handleViews) == StackOf(items, old(handleViews))
      ensures err == ChainError(items)
      ensures err.None? ==> AllMiddleware(items) && entryLayers == Some(HooksOf(items)) &&
                            handleViews == ViewHooksOf(items) + old(handleViews)
      ensures err.Some? ==> entryLayers == old(entryLayers)
      ensures subApplications == old(subApplications)
    {
      ghost var hv0 := handleViews;
      var layers: seq<Hooks> := [];
      var i := |items|;
      assert items[..i] == items;
      assert items[i..] == [];
      while i > 0
        invariant 0 <= i <= |items|
        invariant StackOf(items, old(handleViews)) == StackOf(items[..i], handleViews)
        invariant entryLayers == old(entryLayers) && subApplications == old(subApplications)
        invariant AllMiddleware(items[i..])
        invariant layers == HooksOf(items[i..])
      {
        i := i - 1;
        StackOfAt(items, i, handleViews);
        var item := items[i];
        if item.Err? {
          err := Some(item.error);
          StackOfSpec(items, hv0);
          return;
        }
        if !IsMiddleware(item.value) {
          err := Some(Refused(item.value));
          StackOfSpec(items, hv0);
          return;
        }
        HooksOfStep(items, i);
        if item.value.handleView.Some? {
          handleViews := [item.value.handleView.value] + handleViews;
        } else {
          assert [] + handleViews == handleViews;
        }
        layers := [item.value.hooks] + layers;
      }
      assert items[0..] == items;
      StackOfSpec(items, hv0);
      entryLayers := Some(layers);
      return None;
    }

    /** `entry_func()` for a request with this path and method. */
    function Answer(path: string, verb: string, run: Callback -> Callable): Outcome
      reads this, router
    {
      EntryAnswer(entryLayers, VankRouter.MatchIn(router.State(), path, verb), handleViews, run, errorHandler)
    }

    /** `url_reflect(endpoint, **kwargs)`: the router's reverse lookup, or
        ReflectNotFound. */
    method UrlReflect(endpoint: string, args: Args<Value>, show: Value -> string, quote: string -> string) returns (r: Result<string, Exc>)
      requires Valid()
      ensures VankRouter.AllValid(router.routes)
      ensures r.Ok? <==> VankRouter.ReflectIn(router.State(), endpoint, args, show, quote).Some?
      ensures r.Ok? ==> r.value == VankRouter.ReflectIn(router.State(), endpoint, args, show, quote).value
      ensures r.Err? ==> r.error == Raise(ReflectNotFoundKind)
    {
      var url := router.UrlReflectAll(endpoint, args, show, quote);
      if url.None? {
        return Err(Raise(ReflectNotFoundKind));
      }
      return Ok(url.value);
    }
  }

  /** A prefix is checked only when truthy: it must not end with "/" and
      must start with "/". */
  predicate PrefixOk(prefix: Option<string>) {
    prefix.None? || prefix.value == [] || (!EndsWith(prefix.value, "/") && StartsWith(prefix.value, "/"))
  }

  class SubApplication {
    const name: string
    const prefix: Option<string>
    const router: VankRouter.Router<Value>
    const views: ViewClasses
    const registry: Registry
    var root: Option<Application>

    predicate Valid()
      reads this, router, views
    {
      router.Valid() && views.Valid() && PrefixOk(prefix)
    }

    constructor(name: string, prefix: Option<string>, views: ViewClasses, registry: Registry)
      requires views.Valid() && PrefixOk(prefix)
      ensures Valid() && fresh(router)
      ensures this.name == name && this.prefix == prefix && this.views == views && this.registry == registry
      ensures router.State() == VankRouter.Table([], {}, map[]) && root.None?
    {
      this.name := name;
      this.prefix := prefix;
      router := new VankRouter.Router();
      this.views := views;
      this.registry := registry;
      root := None;
    }

    /** `new_route(path, ...)(target)`: with a truthy prefix the template
        must start with "/" (an assertion, raised before anything happens) and
        is registered under prefix + template; endpoints default to
        `"<name>.<view's __name__>"`. */
    method NewRoute(path: string, target: Target, methods: Option<seq<string>>, endpoint: EndpointArg) returns (err: Option<Exc>)
      requires Valid()
      modifies router, views
      ensures Valid()
      ensures prefix.Some? && prefix.value != [] && !StartsWith(path, "/") ==>
                err == Some(Raise(AssertionErrorKind)) && router.State() == old(router.State()) &&
                views.slots == old(views.slots) && views.created == old(views.created)
      ensures !(prefix.Some? && prefix.value != [] && !StartsWith(path, "/")) ==>
                var full := if prefix.Some? && prefix.value != [] then prefix.value + path else path;
                (router.State(), views.slots, views.created, err) ==
                RegisterOf(old(router.State()), old(views.slots), old(views.created), registry, SubNaming(name), full, target, methods, endpoint)
    {
      var full := path;
      if prefix.Some? && prefix.value != [] {
        if !StartsWith(path, "/") {
          return Some(Raise(AssertionErrorKind));
        }
        full := prefix.value + path;
      }
      err := Register(router, views, registry, SubNaming(name), full, target, methods, endpoint);
    }

    /** `url_reflect`: TypeError until the sub-application is included, then
        the root application's reverse lookup. */
    method UrlReflect(endpoint: string, args: Args<Value>, show: Value -> string, quote: string -> string) returns (r: Result<string, Exc>)
      requires root.Some? ==> root.value.Valid()
      ensures root.None? ==> r == Err(Raise(TypeErrorKind))
      ensures root.Some? ==>
                VankRouter.AllValid(root.value.router.routes) &&
                (r.Ok? <==> VankRouter.ReflectIn(root.value.router.State(), endpoint, args, show, quote).Some?)
    {
      if root.None? {
        return Err(Raise(TypeErrorKind));
      }
      r := root.value.UrlReflect(endpoint, args, show, quote);
    }
  }

  /** `SubApplication(name, prefix)`: the prefix assertions, then the
      object. */
  method NewSubApplication(name: string, prefix: Option<string>, views: ViewClasses, registry: Registry)
    returns (r: Result<SubApplication, Exc>)
    requires views.Valid()
    ensures r.Ok? <==> PrefixOk(prefix)
    ensures r.Err? ==> r.error == Raise(AssertionErrorKind)
    ensures r.Ok? ==> fresh(r.value) && r.value.Valid() && r.value.name == name && r.value.prefix == prefix && r.value.root.None?
  {
    if !PrefixOk(prefix) {
      return Err(Raise(AssertionErrorKind));
    }
    var sub := new SubApplication(name, prefix, views, registry);
    return Ok(sub);
  }

  /** Every route a sub-application with a non-empty prefix registers lies
      under that prefix, and its endpoint defaults to the qualified name. */
  lemma SubRouteUnderPrefix(t: Table, slots: map<string, nat>, created: nat, registry: Registry, name: string,
                            prefix: string, path: string, target: Target, methods: Option<seq<string>>, endpoint: EndpointArg)
    requires VankRouter.Consistent(t) && SlotsValid(slots, created)
    requires PrefixOk(Some(prefix)) && prefix != [] && StartsWith(path, "/")
    requires endpoint.NoEndpoint?
    ensures var (u, s1, n1, err) := RegisterOf(t, slots, created, registry, SubNaming(name), prefix + path, target, methods, endpoint);
            err.None? ==>
              |u.routes| == |t.routes| + 1 &&
              var r := u.routes[|t.routes|];
              r.path == prefix + path && StartsWith(r.path, prefix) &&
              exists view: Callback :: r.endpoint == name + "." + view.name && r.endpoint in u.views && u.views[r.endpoint] == view
  {
    var (a, s1, n1) := Adapt(slots, created, target, methods);
    if a.Ok? {
      var e := EndpointFor(SubNaming(name), endpoint, a.value.view);
      SetRouteSpec(t, registry, prefix + path, a.value.view, a.value.methods, e);
      assert (prefix + path)[..|prefix|] == prefix;
    }
  }
}
