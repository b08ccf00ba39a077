/** `BaseMiddleware` of the oldest generation: an instance holds the next
    callable and three hooks. Calling it runs the request hook, calls the
    next callable unless the hook answered, and passes the answer through
    the response hook. */
module LegacyMiddleware {
  import opened Wrappers
  import opened LegacyCore

  /** The hooks an instance has (`hasattr`): `handle_request(request)`,
      `handle_response(request, response)` and `handle_view`. */
  datatype Middleware = Middleware(
    handleRequest: Option<Request -> Outcome>,
    handleResponse: Option<(Request, Reply) -> Outcome>,
    handleView: Option<Callable>)

  /** The hooks `BaseMiddleware` defines: no answer, the response unchanged,
      no answer. */
  const Base: Middleware := Middleware(
    Some((q: Request) => Ok(NoneValue)),
    Some((q: Request, r: Reply) => Ok(r)),
    Some((c: Call) => Ok(NoneValue)))

  /** `__call__(self, request)`: it takes no keyword arguments (Python raises
      TypeError for any), and `next` is `get_response_callable`. */
  function Invoke(m: Middleware, next: Callable, c: Call): Outcome {
    if c.kwargs != map[] then Err(Raise(TypeErrorKind))
    else
      var pre := if m.handleRequest.Some? then m.handleRequest.value(c.request) else Ok(NoneValue);
      if pre.Err? then pre
      else
        var resp := if Truthy(pre.value) then pre else next(c);
        if resp.Err? || m.handleResponse.None? then resp
        else m.handleResponse.value(c.request, resp.value)
  }

  /** With the base hooks a middleware is transparent. */
  lemma BasePassesThrough(next: Callable, q: Request)
    ensures Invoke(Base, next, Call(q, map[])) == next(Call(q, map[]))
  {
  }

  /** An answer from `handle_request` skips `next` altogether: the result does
      not depend on which callable comes next, and it is the response hook
      applied to that answer. */
  lemma RequestHookShortCircuits(m: Middleware, next1: Callable, next2: Callable, q: Request)
    requires m.handleRequest.Some? && m.handleRequest.value(q).Ok? && Truthy(m.handleRequest.value(q).value)
    ensures Invoke(m, next1, Call(q, map[])) == Invoke(m, next2, Call(q, map[]))
    ensures m.handleResponse.Some? ==>
              Invoke(m, next1, Call(q, map[])) == m.handleResponse.value(q, m.handleRequest.value(q).value)
  {
  }

  /** Without an answer from `handle_request`, `next` is called with the same
      request, and the response hook sees what it returned. */
  lemma NextCalledOtherwise(m: Middleware, next: Callable, q: Request)
    requires m.handleRequest.None? || (m.handleRequest.value(q).Ok? && !Truthy(m.handleRequest.value(q).value))
    ensures next(Call(q, map[])).Err? ==> Invoke(m, next, Call(q, map[])) == next(Call(q, map[]))
    ensures next(Call(q, map[])).Ok? && m.handleResponse.Some? ==>
              Invoke(m, next, Call(q, map[])) == m.handleResponse.value(q, next(Call(q, map[])).value)
    ensures m.handleResponse.None? ==> Invoke(m, next, Call(q, map[])) == next(Call(q, map[]))
  {
  }

  /** `handle_view` is never called: replacing it changes no result. */
  lemma ViewHookUnused(m: Middleware, h: Option<Callable>, next: Callable, c: Call)
    ensures Invoke(m.(handleView := h), next, c) == Invoke(m, next, c)
  {
  }

  /** Keyword arguments are refused before any hook runs. */
  lemma KeywordsRefused(m: Middleware, next: Callable, c: Call)
    requires c.kwargs != map[]
    ensures Invoke(m, next, c).Err? && TypeErrorKind in Invoke(m, next, c).error.kinds
  {
  }
}
