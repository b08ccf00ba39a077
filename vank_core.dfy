/** The values the middle generation's request cycle passes around: the
    exception classes of `vank/core/exceptions.py` and the built-in ones the
    cycle raises, the positional and keyword arguments of a call, and what a
    view, a hook or a middleware returns. */
module VankCore {
  import opened Wrappers
  import opened Callables

  /** A Python value passed as an argument: what a route converter produced
      (an int or a text), or any other object by identity. */
  datatype Value = IntValue(i: int) | StrValue(s: string) | ObjValue(id: nat)

  /** The exception classes the cycle tests with `isinstance`. */
  datatype Kind =
    | NotFoundKind | MethodNotAllowedKind | PermissionDeniedKind
    | NoResponseKind | NoneViewMethodKind | ReflectNotFoundKind
    | TypeErrorKind | ValueErrorKind | AttributeErrorKind
    | LookupErrorKind | KeyErrorKind | AssertionErrorKind | SyntaxErrorKind
    | ExceptionKind

  /** A raised object: every class it is an instance of, and the `allow`
      list a `MethodNotAllowedException` carries (empty for the others). An
      object without `ExceptionKind` is a `BaseException` that is not an
      `Exception`, such as a cancellation. */
  datatype Exc = Exc(kinds: set<Kind>, allow: seq<string>)

  /** `isinstance(e, Exception)`. */
  predicate IsException(e: Exc) {
    ExceptionKind in e.kinds
  }

  /** A fresh instance of one `Exception` subclass that adds no attribute. */
  function Raise(k: Kind): (e: Exc)
    ensures IsException(e) && k in e.kinds && e.allow == []
  {
    Exc({k, ExceptionKind}, [])
  }

  /** `MethodNotAllowedException(msg, allow=...)`. */
  function MethodNotAllowed(allow: seq<string>): (e: Exc)
    ensures IsException(e) && MethodNotAllowedKind in e.kinds && e.allow == allow
  {
    Exc({MethodNotAllowedKind, ExceptionKind}, allow)
  }

  /** A returned value: a `BaseResponse` (always true in a test) with its
      status and, for a 405, its allowed methods; or any other Python value
      with its truth value (`None` is false). */
  datatype Reply = Response(status: int, allow: seq<string>) | Other(truthy: bool)

  /** `not value` is false. */
  predicate Truthy(r: Reply) {
    r.Response? || r.truthy
  }

  const NoneValue: Reply := Other(false)

  /** A call ends with a value or with a raised object. */
  type Outcome = Result<Reply, Exc>

  /** `*args, **kwargs`. */
  datatype Call = Call(args: seq<Value>, kwargs: map<string, Value>)

  /** Anything the cycle calls with arbitrary arguments. */
  type Callable = Call -> Outcome

  /** A link of the chain: what calling it does, and whether
      `is_coroutine_function` holds of it. */
  datatype Link = Link(run: Callable, isCoroutine: bool)

  /** A `handle_view(view_func, **view_kwargs)` hook: called with the view
      the router found (None when the endpoint has none) and the keyword
      arguments. */
  type ViewHook = (Option<Callback>, map<string, Value>) -> Outcome
}
