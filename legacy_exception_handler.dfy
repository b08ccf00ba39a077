/** Exception handling of the oldest generation: `conv_exc_to_response`,
    which turns an `Exception` raised by a callable into the error handler's
    answer, and `default_handler`, which picks the answer by the exception's
    class. */
module LegacyExceptionHandler {
  import opened Wrappers
  import opened LegacyCore

  /** An error handler: called with the request and the exception. */
  type Handler = (Request, Exc) -> Outcome

  /** One call of `conv_exc_to_response(f, handler)`. */
  function Guard(f: Callable, handler: Handler, c: Call): Outcome {
    match f(c)
    case Ok(v) => Ok(v)
    case Err(e) => if IsException(e) then handler(c.request, e) else Err(e)
  }

  /** A normal return passes through unchanged; an `Exception` becomes the
      handler's answer for the same request; anything else propagates. A
      guarded call raises an `Exception` only when the handler did. */
  lemma GuardSpec(f: Callable, handler: Handler, c: Call)
    ensures f(c).Ok? ==> Guard(f, handler, c) == f(c)
    ensures f(c).Err? && IsException(f(c).error) ==> Guard(f, handler, c) == handler(c.request, f(c).error)
    ensures f(c).Err? && !IsException(f(c).error) ==> Guard(f, handler, c) == f(c)
    ensures Guard(f, handler, c).Err? && IsException(Guard(f, handler, c).error) ==>
              f(c).Err? && handler(c.request, f(c).error) == Guard(f, handler, c)
  {
  }

  /** Guarding a guarded callable again with a handler that always answers
      changes nothing. */
  lemma GuardTwice(f: Callable, handler: Handler, c: Call)
    requires forall e :: handler(c.request, e).Ok?
    ensures Guard((c2: Call) => Guard(f, handler, c2), handler, c) == Guard(f, handler, c)
  {
    match f(c)
    case Ok(_) =>
    case Err(e) =>
      if IsException(e) {
        assert handler(c.request, e).Ok?;
      }
  }

  /** `default_handler`: the class tests run in the order NotFound,
      MethodNotAllowed, PermissionDenied; the first that holds decides, and
      500 is the fallback. For MethodNotAllowed it reads `exc.allow`, which
      an exception raised without that attribute does not have. */
  function DefaultHandler(request: Request, exc: Exc): Outcome {
    if NotFoundKind in exc.kinds then Ok(Response(404, []))
    else if MethodNotAllowedKind in exc.kinds then
      match exc.allow
      case Some(allow) => Ok(Response(405, allow))
      case None => Err(Raise(AttributeErrorKind))
    else if PermissionDeniedKind in exc.kinds then Ok(Response(403, []))
    else Ok(Response(500, []))
  }

  /** Each status belongs to exactly one class test, earlier tests win, and
      the handler fails only on a MethodNotAllowed without `allow`. */
  lemma DefaultHandlerSpec(request: Request, exc: Exc)
    ensures DefaultHandler(request, exc).Ok? ==> DefaultHandler(request, exc).value.Response?
    ensures DefaultHandler(request, exc) == Ok(Response(404, [])) <==> NotFoundKind in exc.kinds
    ensures (DefaultHandler(request, exc).Ok? && DefaultHandler(request, exc).value.status == 405) <==>
            (NotFoundKind !in exc.kinds && MethodNotAllowedKind in exc.kinds && exc.allow.Some?)
    ensures DefaultHandler(request, exc).Ok? && DefaultHandler(request, exc).value.status == 405 ==>
            DefaultHandler(request, exc).value.allow == exc.allow.value
    ensures DefaultHandler(request, exc) == Ok(Response(403, [])) <==>
            (NotFoundKind !in exc.kinds && MethodNotAllowedKind !in exc.kinds && PermissionDeniedKind in exc.kinds)
    ensures DefaultHandler(request, exc) == Ok(Response(500, [])) <==>
            (NotFoundKind !in exc.kinds && MethodNotAllowedKind !in exc.kinds && PermissionDeniedKind !in exc.kinds)
    ensures DefaultHandler(request, exc).Err? <==>
            (NotFoundKind !in exc.kinds && MethodNotAllowedKind in exc.kinds && exc.allow.None?)
    ensures DefaultHandler(request, exc).Err? ==> AttributeErrorKind in DefaultHandler(request, exc).error.kinds
  {
  }
}
