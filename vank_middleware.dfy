/** `Middleware` of the middle generation: an instance holds the next link
    of the chain; calling it runs `handle_request()` (without arguments),
    calls the next link with the call's arguments unless that hook answered,
    and passes whatever response results through `handle_response`. */
module VankMiddleware {
  import opened Wrappers
  import opened VankCore

  /** The hooks a middleware class defines (`hasattr`); the base class
      defines neither. */
  datatype Hooks = Hooks(handleRequest: Option<() -> Outcome>, handleResponse: Option<Reply -> Outcome>)

  const NoHooks: Hooks := Hooks(None, None)

  /** An instance: its hooks, the next link, and whether it was marked as a
      coroutine function. */
  datatype Middleware = Middleware(hooks: Hooks, next: Link, isCoroutine: bool)

  /** `cls(next_)`: the instance is marked as a coroutine function exactly
      when `next_` is one. */
  function New(hooks: Hooks, next: Link): (m: Middleware)
    ensures m.hooks == hooks && m.next == next
    ensures m.isCoroutine <==> next.isCoroutine
  {
    Middleware(hooks, next, next.isCoroutine)
  }

  /** `handle(*args, **kwargs)`. */
  function Handle(m: Middleware, c: Call): Outcome {
    var pre := if m.hooks.handleRequest.Some? then m.hooks.handleRequest.value() else Ok(NoneValue);
    if pre.Err? then pre
    else
      var resp := if Truthy(pre.value) then pre else m.next.run(c);
      if resp.Err? || m.hooks.handleResponse.None? then resp
      else m.hooks.handleResponse.value(resp.value)
  }

  /** Which handler `__call__` picks. */
  datatype Handler = HandleSync | HandleAsync

  function Dispatch(m: Middleware): Handler {
    if m.isCoroutine then HandleAsync else HandleSync
  }

  /** `__call__` runs `ahandle` exactly when the next link is a coroutine
      function. */
  lemma AsyncExactlyAfterCoroutine(hooks: Hooks, next: Link)
    ensures Dispatch(New(hooks, next)) == HandleAsync <==> next.isCoroutine
  {
  }

  /** The link a middleware instance is: calling it is `handle`, in the
      coroutine variant when it was marked. `ahandle` runs the same steps in
      the same order. */
  function AsLink(m: Middleware): (l: Link)
    ensures l.isCoroutine == (Dispatch(m) == HandleAsync)
  {
    Link((c: Call) => Handle(m, c), m.isCoroutine)
  }

  /** Without hooks a middleware is transparent. */
  lemma NoHooksPassThrough(next: Link, c: Call)
    ensures Handle(New(NoHooks, next), c) == next.run(c)
  {
  }

  /** A truthy answer from `handle_request` skips the next link: the result
      does not depend on the next link or on the call's arguments, and it is
      that answer passed through the response hook when there is one. */
  lemma RequestHookShortCircuits(hooks: Hooks, next1: Link, next2: Link, c1: Call, c2: Call)
    requires hooks.handleRequest.Some? && hooks.handleRequest.value().Ok? && Truthy(hooks.handleRequest.value().value)
    ensures Handle(New(hooks, next1), c1) == Handle(New(hooks, next2), c2)
    ensures hooks.handleResponse.Some? ==>
              Handle(New(hooks, next1), c1) == hooks.handleResponse.value(hooks.handleRequest.value().value)
    ensures hooks.handleResponse.None? ==> Handle(New(hooks, next1), c1) == hooks.handleRequest.value()
  {
  }

  /** Otherwise the next link is called with the call's own arguments, and
      the response hook sees what it returned; a raise from the next link
      propagates without the response hook. */
  lemma NextCalledOtherwise(hooks: Hooks, next: Link, c: Call)
    requires hooks.handleRequest.None? || (hooks.handleRequest.value().Ok? && !Truthy(hooks.handleRequest.value().value))
    ensures next.run(c).Err? ==> Handle(New(hooks, next), c) == next.run(c)
    ensures next.run(c).Ok? && hooks.handleResponse.Some? ==>
              Handle(New(hooks, next), c) == hooks.handleResponse.value(next.run(c).value)
    ensures hooks.handleResponse.None? ==> Handle(New(hooks, next), c) == next.run(c)
  {
  }

  /** A raise from `handle_request` propagates and nothing else runs. */
  lemma RequestHookRaise(hooks: Hooks, next: Link, c: Call)
    requires hooks.handleRequest.Some? && hooks.handleRequest.value().Err?
    ensures Handle(New(hooks, next), c) == hooks.handleRequest.value()
  {
  }
}
