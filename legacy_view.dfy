/** Class views of the oldest generation. A `View` answers a request with
    its method named like the request's HTTP method; a `MiddlewareView`
    puts its own list of middleware classes around that, building the chain
    when it is instantiated. */
module LegacyView {
  import opened Wrappers
  import opened Text
  import opened LegacyCore
  import opened LegacyExceptionHandler
  import opened LegacyMiddleware
  import opened ViewMethods

  /** `get_view_methods`: the HTTP method names the view defines, in the
      fixed order, or NoneViewMethodException when there is none. */
  function GetViewMethods(attrs: map<string, Callable>): Result<seq<string>, Exc> {
    var ms := Defined(HttpMethods, attrs.Keys);
    if ms == [] then Err(Raise(NoneViewMethodKind)) else Ok(ms)
  }

  /** The view fails exactly when it defines none of the eight; otherwise it
      lists each defined one once, in the fixed order. */
  lemma GetViewMethodsSpec(attrs: map<string, Callable>)
    ensures GetViewMethods(attrs).Err? <==> forall m :: m in HttpMethods ==> m !in attrs
    ensures GetViewMethods(attrs).Err? ==> NoneViewMethodKind in GetViewMethods(attrs).error.kinds
    ensures GetViewMethods(attrs).Ok? ==>
              forall m :: m in GetViewMethods(attrs).value <==> m in HttpMethods && m in attrs
  {
    var ms := Defined(HttpMethods, attrs.Keys);
    if ms != [] {
      assert ms[0] in ms;
    }
  }

  /** No name is listed twice, and the order is the fixed one: a view with
      both `get` and `post` lists them first, in that order. */
  lemma GetViewMethodsOrder(attrs: map<string, Callable>)
    requires GetViewMethods(attrs).Ok?
    ensures Distinct(GetViewMethods(attrs).value)
    ensures "get" in attrs && "post" in attrs ==> GetViewMethods(attrs).value[..2] == ["get", "post"]
  {
    HttpMethodsDistinct();
    DefinedDistinct(HttpMethods, attrs.Keys);
    if "get" in attrs && "post" in attrs {
      GetPostFirst(attrs.Keys);
    }
  }

  /** `get_response`: the attribute named by the request method in lower
      case, called with the same arguments; AttributeError when the view has
      no such attribute. */
  function GetResponse(attrs: map<string, Callable>, c: Call): Outcome {
    var name := Lower(c.request.verb);
    if name in attrs then attrs[name](c) else Err(Raise(AttributeErrorKind))
  }

  /** A request whose method is one the view lists, written in upper case as
      a client sends it, reaches that method. */
  lemma GetResponseDispatch(attrs: map<string, Callable>, m: string, c: Call)
    requires GetViewMethods(attrs).Ok? && m in GetViewMethods(attrs).value
    requires c.request.verb == Upper(m)
    ensures GetResponse(attrs, c) == attrs[m](c)
  {
    assert m in HttpMethods;
    LowerUpper(m);
  }

  /** A middleware class as the view sees it: whether it subclasses
      `BaseMiddleware`, the `handle_request` its own body defines (which
      `delattr` can remove), the one it would inherit, and its other hooks. */
  class MiddlewareClass {
    const isSubclass: bool
    var ownHandleRequest: Option<Request -> Outcome>
    const inheritedHandleRequest: Option<Request -> Outcome>
    const handleResponse: Option<(Request, Reply) -> Outcome>
    const handleView: Option<Callable>

    constructor(isSubclass: bool, own: Option<Request -> Outcome>, inherited: Option<Request -> Outcome>,
                handleResponse: Option<(Request, Reply) -> Outcome>, handleView: Option<Callable>)
      ensures this.isSubclass == isSubclass && ownHandleRequest == own
      ensures inheritedHandleRequest == inherited
      ensures this.handleResponse == handleResponse && this.handleView == handleView
    {
      this.isSubclass := isSubclass;
      ownHandleRequest := own;
      inheritedHandleRequest := inherited;
      this.handleResponse := handleResponse;
      this.handleView := handleView;
    }
  }

  /** The own `handle_request` of each listed class. */
  function OwnOf(cs: seq<MiddlewareClass>): map<MiddlewareClass, Option<Request -> Outcome>>
    reads cs
  {
    map c | c in cs :: c.ownHandleRequest
  }

  /** An instance of a class whose own hook is currently `own`. */
  function Instance(c: MiddlewareClass, own: Option<Request -> Outcome>): Middleware {
    Middleware(if own.Some? then own else c.inheritedHandleRequest, c.handleResponse, c.handleView)
  }

  /** The state `setup` builds: the instances from the innermost outwards,
      the collected `handle_view` hooks, the classes' own hooks, and the
      exception that stopped it. */
  datatype Built = Built(layers: seq<Middleware>, viewHooks: seq<Callable>,
                         own: map<MiddlewareClass, Option<Request -> Outcome>>, failure: Option<Exc>)

  /** One class of `setup`: TypeError for a class that is not a middleware;
      unless forced, `delattr(cls, 'handle_request')` whenever the class has
      the attribute, which raises AttributeError when the class only
      inherits it; then the instance and its `handle_view`. */
  function Step(c: MiddlewareClass, force: bool, b: Built): Built {
    if !c.isSubclass then b.(failure := Some(Raise(TypeErrorKind)))
    else if !force && OwnAt(b.own, c).None? && c.inheritedHandleRequest.Some? then b.(failure := Some(Raise(AttributeErrorKind)))
    else
      var own := if force then b.own else b.own[c := None];
      var hooks := b.viewHooks + (if c.handleView.Some? then [c.handleView.value] else []);
      Built(b.layers + [Instance(c, OwnAt(own, c))], hooks, own, None)
  }

  /** A class's own hook in `own`; a class not recorded has none. */
  function OwnAt(own: map<MiddlewareClass, Option<Request -> Outcome>>, c: MiddlewareClass): Option<Request -> Outcome> {
    if c in own then own[c] else None
  }

  /** `setup` from a point of the list on, stopping at the first failure. */
  function SetupFrom(cs: seq<MiddlewareClass>, force: bool, b: Built): Built
    decreases |cs|
  {
    if cs == [] || b.failure.Some? then b
    else SetupFrom(cs[1..], force, Step(cs[0], force, b))
  }

  /** `setup` at position `i` is one step and then `setup` from `i + 1`; a
      failed step is where it stops. */
  lemma SetupAt(cs: seq<MiddlewareClass>, i: nat, force: bool, b: Built)
    requires i < |cs| && b.failure.None?
    ensures SetupFrom(cs[i..], force, b) == SetupFrom(cs[i + 1..], force, Step(cs[i], force, b))
    ensures Step(cs[i], force, b).failure.Some? ==> SetupFrom(cs[i..], force, b) == Step(cs[i], force, b)
  {
    assert cs[i..][0] == cs[i] && cs[i..][1..] == cs[i + 1..];
  }

  /** The `handle_view` hooks of the classes, in list order. */
  function ViewHooks(cs: seq<MiddlewareClass>): seq<Callable> {
    if cs == [] then []
    else (if cs[0].handleView.Some? then [cs[0].handleView.value] else []) + ViewHooks(cs[1..])
  }

  /** A setup that gets through the list makes one instance per class in
      list order, collects the `handle_view` hooks in list order, and either
      leaves every own hook alone (forced) or removes it from every listed
      class and gives each instance the inherited hook. */
  lemma {:induction false} SetupSuccess(cs: seq<MiddlewareClass>, force: bool, b: Built)
    requires b.failure.None? && SetupFrom(cs, force, b).failure.None?
    ensures |SetupFrom(cs, force, b).layers| == |b.layers| + |cs|
    ensures SetupFrom(cs, force, b).layers[..|b.layers|] == b.layers
    ensures SetupFrom(cs, force, b).viewHooks == b.viewHooks + ViewHooks(cs)
    ensures force ==> SetupFrom(cs, force, b).own == b.own
    ensures !force ==> forall c :: c in cs ==> OwnAt(SetupFrom(cs, force, b).own, c).None?
    ensures !force ==> forall i :: 0 <= i < |cs| ==>
              SetupFrom(cs, force, b).layers[|b.layers| + i] == Instance(cs[i], None)
    ensures force ==> forall i :: 0 <= i < |cs| ==>
              SetupFrom(cs, force, b).layers[|b.layers| + i] == Instance(cs[i], OwnAt(b.own, cs[i]))
    decreases |cs|
  {
    if cs != [] {
      var c := cs[0];
      var b' := Step(c, force, b);
      assert b'.failure.None?;
      SetupSuccess(cs[1..], force, b');
      var r := SetupFrom(cs, force, b);
      assert r == SetupFrom(cs[1..], force, b');
      assert |b'.layers| == |b.layers| + 1;
      assert r.layers[..|b.layers|] == b.layers by {
        assert r.layers[..|b.layers|] == r.layers[..|b'.layers|][..|b.layers|];
        assert b'.layers[..|b.layers|] == b.layers;
      }
      assert r.layers[|b.layers|] == b'.layers[|b.layers|] by {
        assert r.layers[..|b'.layers|][|b.layers|] == r.layers[|b.layers|];
      }
      if !force {
        OwnStaysRemoved(cs[1..], b', c);
      }
      SetupViewHooks(cs, force, b);
    }
  }

  /** The hooks collected are those of the listed classes, in list order. */
  lemma {:induction false} SetupViewHooks(cs: seq<MiddlewareClass>, force: bool, b: Built)
    requires b.failure.None? && SetupFrom(cs, force, b).failure.None?
    ensures SetupFrom(cs, force, b).viewHooks == b.viewHooks + ViewHooks(cs)
    decreases |cs|
  {
    if cs != [] {
      var c := cs[0];
      var b' := Step(c, force, b);
      assert b'.failure.None?;
      SetupViewHooks(cs[1..], force, b');
      var h := if c.handleView.Some? then [c.handleView.value] else [];
      assert b'.viewHooks == b.viewHooks + h;
      assert ViewHooks(cs) == h + ViewHooks(cs[1..]);
      AppendAssoc(b.viewHooks, h, ViewHooks(cs[1..]));
    }
  }

  /** A hook `setup` has removed stays removed for the rest of the list. */
  lemma {:induction false} OwnStaysRemoved(cs: seq<MiddlewareClass>, b: Built, c: MiddlewareClass)
    requires OwnAt(b.own, c).None?
    ensures OwnAt(SetupFrom(cs, false, b).own, c).None?
    decreases |cs|
  {
    if cs != [] && b.failure.None? {
      OwnStaysRemoved(cs[1..], Step(cs[0], false, b), c);
    }
  }

  /** Listing the same middleware class twice breaks an unforced setup: the
      first pass deletes the class's own hook and the second `delattr`
      raises AttributeError. */
  lemma SameClassTwice(c: MiddlewareClass, b: Built)
    requires b.failure.None? && c.isSubclass && c.inheritedHandleRequest.Some?
    ensures SetupFrom([c, c], false, b).failure == Some(Raise(AttributeErrorKind))
  {
    var b' := Step(c, false, b);
    assert [c, c][1..] == [c];
    assert SetupFrom([c, c], false, b) == SetupFrom([c], false, b');
    if b'.failure.None? {
      assert OwnAt(b'.own, c).None?;
      assert SetupFrom([c], false, b') == SetupFrom([], false, Step(c, false, b'));
    }
  }

  /** The intended effect of not forcing: every middleware subclass is
      instantiated without a request hook, and no class is changed. */
  function SetupIntended(cs: seq<MiddlewareClass>, force: bool, own: map<MiddlewareClass, Option<Request -> Outcome>>): Result<seq<Middleware>, Exc>
  {
    if cs == [] then Ok([])
    else if !cs[0].isSubclass then Err(Raise(TypeErrorKind))
    else
      var m := if force then Instance(cs[0], OwnAt(own, cs[0])) else Instance(cs[0], None).(handleRequest := None);
      match SetupIntended(cs[1..], force, own)
      case Err(e) => Err(e)
      case Ok(rest) => Ok([m] + rest)
  }

  /** The intended setup fails only on a class that is not a middleware, and
      unforced it leaves every instance without a request hook, so a class
      listed twice or inheriting its hook is accepted. */
  lemma {:induction false} SetupIntendedSpec(cs: seq<MiddlewareClass>, force: bool, own: map<MiddlewareClass, Option<Request -> Outcome>>)
    ensures SetupIntended(cs, force, own).Ok? <==> forall c :: c in cs ==> c.isSubclass
    ensures SetupIntended(cs, force, own).Ok? ==> |SetupIntended(cs, force, own).value| == |cs|
    ensures SetupIntended(cs, force, own).Ok? && !force ==>
              forall i :: 0 <= i < |cs| ==> SetupIntended(cs, force, own).value[i].handleRequest.None? &&
                                             SetupIntended(cs, force, own).value[i].handleResponse == cs[i].handleResponse
  {
    if cs != [] {
      SetupIntendedSpec(cs[1..], force, own);
      assert forall c :: c in cs ==> c == cs[0] || c in cs[1..];
      if SetupIntended(cs, force, own).Ok? && !force {
        var r := SetupIntended(cs, force, own).value;
        forall i | 0 <= i < |cs| ensures r[i].handleRequest.None? && r[i].handleResponse == cs[i].handleResponse {
          if i > 0 {
            assert r[i] == SetupIntended(cs[1..], force, own).value[i - 1];
          }
        }
      }
    }
  }

  /** The chain `setup` leaves in `entry_func` applied to one call: the view's
      `get_response` wrapped by the handler, then each instance in list order
      wrapped around the previous link and wrapped by the handler again, so
      the last listed middleware is the outermost. */
  function Run(layers: seq<Middleware>, inner: Callable, handler: Handler, c: Call): Outcome
    decreases |layers|
  {
    if layers == [] then Guard(inner, handler, c)
    else
      var n := |layers| - 1;
      Guard((c2: Call) => Invoke(layers[n], (c3: Call) => Run(layers[..n], inner, handler, c3), c2), handler, c)
  }

  /** The outermost middleware answering the request itself decides: the
      middlewares inside it and the view do not matter. */
  lemma OutermostDecides(inside1: seq<Middleware>, inside2: seq<Middleware>, m: Middleware,
                         inner1: Callable, inner2: Callable, handler: Handler, q: Request)
    requires m.handleRequest.Some? && m.handleRequest.value(q).Ok? && Truthy(m.handleRequest.value(q).value)
    ensures Run(inside1 + [m], inner1, handler, Call(q, map[])) == Run(inside2 + [m], inner2, handler, Call(q, map[]))
  {
    var c := Call(q, map[]);
    var l1 := inside1 + [m];
    var l2 := inside2 + [m];
    assert l1[..|l1| - 1] == inside1 && l1[|l1| - 1] == m;
    assert l2[..|l2| - 1] == inside2 && l2[|l2| - 1] == m;
    var n1: Callable := (c3: Call) => Run(inside1, inner1, handler, c3);
    var n2: Callable := (c3: Call) => Run(inside2, inner2, handler, c3);
    RequestHookShortCircuits(m, n1, n2, q);
    assert Invoke(m, n1, c) == Invoke(m, n2, c);
  }

  /** Keyword arguments never reach the view: the outermost middleware's
      `__call__` rejects them with TypeError and its wrapper hands that to
      the error handler. */
  lemma KeywordsReachHandler(layers: seq<Middleware>, inner: Callable, handler: Handler, c: Call)
    requires layers != [] && c.kwargs != map[]
    ensures Run(layers, inner, handler, c) == handler(c.request, Raise(TypeErrorKind))
  {
    var n := |layers| - 1;
    KeywordsRefused(layers[n], (c3: Call) => Run(layers[..n], inner, handler, c3), c);
  }

  /** `__call__`'s check on the chain's result. */
  function Checked(o: Outcome): (r: Outcome)
    ensures r.Ok? ==> r.value.Response? && r == o
    ensures o.Ok? && !o.value.Response? ==> r.Err? && NonResponseKind in r.error.kinds
    ensures o.Err? ==> r == o
  {
    if o.Ok? && !o.value.Response? then Err(Raise(NonResponseKind)) else o
  }

  class MiddlewareView {
    /** The view's methods, `middlewares`, `error_handler` and
        `force_handle_request`. */
    const attrs: map<string, Callable>
    const middlewares: seq<MiddlewareClass>
    const errorHandler: Handler
    const forceHandleRequest: bool
    /** `entry_func`, as the instances it wraps, and `handle_view_middlewares`. */
    var layers: seq<Middleware>
    var viewHooks: seq<Callable>

    /** The fields `__init__` sets before it calls `setup`. */
    constructor(attrs: map<string, Callable>, middlewares: seq<MiddlewareClass>, errorHandler: Handler, force: bool)
      ensures this.attrs == attrs && this.middlewares == middlewares
      ensures this.errorHandler == errorHandler && forceHandleRequest == force
      ensures layers == [] && viewHooks == []
    {
      this.attrs := attrs;
      this.middlewares := middlewares;
      this.errorHandler := errorHandler;
      forceHandleRequest := force;
      layers := [];
      viewHooks := [];
    }

    /** One class of `setup`: the exception it raises, or the hook it
        removes from the class and the instance and `handle_view` it adds. */
    method SetupClass(c: MiddlewareClass) returns (failure: Option<Exc>)
      requires c in middlewares
      modifies this, c
      ensures var n := Step(c, forceHandleRequest, Built(old(layers), old(viewHooks), old(OwnOf(middlewares)), None));
              failure == n.failure && OwnOf(middlewares) == n.own &&
              (failure.None? ==> n == Built(layers, viewHooks, n.own, None))
    {
      ghost var own := OwnOf(middlewares);
      if !c.isSubclass {
        return Some(Raise(TypeErrorKind));
      }
      if !forceHandleRequest && (c.ownHandleRequest.Some? || c.inheritedHandleRequest.Some?) {
        if c.ownHandleRequest.None? {
          return Some(Raise(AttributeErrorKind));
        }
        c.ownHandleRequest := None;
      }
      assert OwnOf(middlewares) == if forceHandleRequest then own else own[c := None];
      if c.handleView.Some? {
        viewHooks := viewHooks + [c.handleView.value];
      } else {
        assert viewHooks + [] == viewHooks;
      }
      layers := layers + [Instance(c, c.ownHandleRequest)];
      return None;
    }

    /** `setup`: walks the classes in list order, removing their own
        `handle_request` unless forced, and wraps one more instance around
        the chain per class. */
    method Setup() returns (failure: Option<Exc>)
      modifies this, middlewares
      ensures var b := SetupFrom(middlewares, forceHandleRequest, Built([], old(viewHooks), old(OwnOf(middlewares)), None));
              failure == b.failure && OwnOf(middlewares) == b.own &&
              (failure.None? ==> layers == b.layers && viewHooks == b.viewHooks)
    {
      ghost var goal := SetupFrom(middlewares, forceHandleRequest, Built([], viewHooks, OwnOf(middlewares), None));
      layers := [];
      var i := 0;
      while i < |middlewares|
        invariant i <= |middlewares|
        invariant goal == SetupFrom(middlewares[i..], forceHandleRequest, Built(layers, viewHooks, OwnOf(middlewares), None))
      {
        var c := middlewares[i];
        SetupAt(middlewares, i, forceHandleRequest, Built(layers, viewHooks, OwnOf(middlewares), None));
        failure := SetupClass(c);
        if failure.Some? {
          return;
        }
        i := i + 1;
      }
      return None;
    }

    /** `__call__`: the chain's answer, refused unless it is a response. */
    function Answer(c: Call): (r: Outcome)
      reads this
      ensures r.Ok? ==> r.value.Response?
    {
      Checked(Run(layers, (c2: Call) => GetResponse(attrs, c2), errorHandler, c))
    }
  }

  /** `MiddlewareView()`: ValueError for an empty middleware list, else the
      view after `setup`, or the exception `setup` raised (classes it already
      changed stay changed). */
  method NewMiddlewareView(attrs: map<string, Callable>, middlewares: seq<MiddlewareClass>, errorHandler: Handler, force: bool)
    returns (r: Result<MiddlewareView, Exc>)
    modifies middlewares
    ensures middlewares == [] ==> r == Err(Raise(ValueErrorKind))
    ensures middlewares != [] ==>
              var b := SetupFrom(middlewares, force, Built([], [], old(OwnOf(middlewares)), None));
              OwnOf(middlewares) == b.own &&
              (r.Err? <==> b.failure.Some?) &&
              (r.Err? ==> r.error == b.failure.value) &&
              (r.Ok? ==> fresh(r.value) && r.value.attrs == attrs && r.value.middlewares == middlewares &&
                         r.value.layers == b.layers && r.value.viewHooks == b.viewHooks)
  {
    if middlewares == [] {
      return Err(Raise(ValueErrorKind));
    }
    var v := new MiddlewareView(attrs, middlewares, errorHandler, force);
    var failure := v.Setup();
    if failure.Some? {
      return Err(failure.value);
    }
    return Ok(v);
  }
}
