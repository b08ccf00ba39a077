/** The exception boundary of the middle generation: `conv_exc_to_response`
    wraps a callable so that an `Exception` it raises becomes the converter's
    answer, and `default_exception_converter` maps the framework's exceptions
    to error responses. */
module VankExceptionHandler {
  import opened Wrappers
  import opened VankCore

  /** An exception converter: called with the exception, it answers or
      raises in turn. */
  type Converter = Exc -> Outcome

  /** The body of `inner`: a normal return passes through; an `Exception` is
      handed to the converter, whose own outcome (an answer or a raise) is
      the result; any other `BaseException` propagates. */
  function Caught(r: Outcome, convert: Converter): Outcome {
    if r.Err? && IsException(r.error) then convert(r.error) else r
  }

  /** `conv_exc_to_response(fn, exception_converter)`: `ainner` when `fn` is a
      coroutine function, `inner` otherwise; both do what `Caught` says once
      `fn` has produced its outcome. */
  function Guard(fn: Link, convert: Converter): Link {
    Link((c: Call) => Caught(fn.run(c), convert), fn.isCoroutine)
  }

  /** The wrapper is the coroutine variant exactly when `fn` is a coroutine
      function. */
  lemma GuardKeepsCoroutineKind(fn: Link, convert: Converter)
    ensures Guard(fn, convert).isCoroutine <==> fn.isCoroutine
  {
  }

  /** A normal return of `fn` is returned unchanged. */
  lemma GuardPassesReturn(fn: Link, convert: Converter, c: Call)
    requires fn.run(c).Ok?
    ensures Guard(fn, convert).run(c) == fn.run(c)
  {
  }

  /** An `Exception` raised by `fn` is replaced by the converter's outcome, so
      an exception the converter raises itself propagates. */
  lemma GuardConverts(fn: Link, convert: Converter, c: Call)
    requires fn.run(c).Err? && IsException(fn.run(c).error)
    ensures Guard(fn, convert).run(c) == convert(fn.run(c).error)
    ensures convert(fn.run(c).error).Err? ==> Guard(fn, convert).run(c).Err?
  {
  }

  /** A `BaseException` that is not an `Exception` is not caught. */
  lemma GuardLetsBaseExceptionsThrough(fn: Link, convert: Converter, c: Call)
    requires fn.run(c).Err? && !IsException(fn.run(c).error)
    ensures Guard(fn, convert).run(c) == fn.run(c)
  {
  }

  /** With a converter that always answers, no `Exception` leaves the
      wrapper. */
  lemma GuardContainsExceptions(fn: Link, convert: Converter, c: Call)
    requires forall e :: convert(e).Ok?
    ensures Guard(fn, convert).run(c).Err? ==> !IsException(Guard(fn, convert).run(c).error)
  {
    var r := fn.run(c);
    if r.Err? && IsException(r.error) {
      assert convert(r.error).Ok?;
    }
  }

  /** With such a converter, wrapping twice is wrapping once. */
  lemma GuardTwice(fn: Link, convert: Converter, c: Call)
    requires forall e :: convert(e).Ok?
    ensures Guard(Guard(fn, convert), convert).run(c) == Guard(fn, convert).run(c)
  {
    GuardContainsExceptions(fn, convert, c);
  }

  /** `default_exception_converter`: the `isinstance` tests run in a fixed
      order and the first that holds decides; it never raises. */
  function DefaultConverter(exc: Exc): (r: Outcome)
    ensures r.Ok? && r.value.Response?
    ensures NotFoundKind in exc.kinds ==> r == Ok(Response(404, []))
    ensures NotFoundKind !in exc.kinds && MethodNotAllowedKind in exc.kinds ==>
              r == Ok(Response(405, exc.allow))
    ensures NotFoundKind !in exc.kinds && MethodNotAllowedKind !in exc.kinds && PermissionDeniedKind in exc.kinds ==>
              r == Ok(Response(403, []))
    ensures r.value.status == 500 <==>
              NotFoundKind !in exc.kinds && MethodNotAllowedKind !in exc.kinds && PermissionDeniedKind !in exc.kinds
  {
    if NotFoundKind in exc.kinds then Ok(Response(404, []))
    else if MethodNotAllowedKind in exc.kinds then Ok(Response(405, exc.allow))
    else if PermissionDeniedKind in exc.kinds then Ok(Response(403, []))
    else Ok(Response(500, []))
  }

  /** A method mismatch raised with an allow list is answered by a 405 that
      carries that list. */
  lemma MethodMismatchAnswered(allow: seq<string>)
    ensures DefaultConverter(MethodNotAllowed(allow)) == Ok(Response(405, allow))
  {
  }
}
