/** The values the oldest generation's request cycle passes around: the
    exception classes of `Vank/core/exceptions.py` and the built-in ones the
    cycle raises, a request, and what a view or middleware returns. */
module LegacyCore {
  import opened Wrappers
  import LegacyConverters

  /** The exception classes the cycle tests with `isinstance`. */
  datatype Kind =
    | NotFoundKind | MethodNotAllowedKind | PermissionDeniedKind
    | NonResponseKind | NoneViewMethodKind
    | TypeErrorKind | ValueErrorKind | AttributeErrorKind
    | LookupErrorKind | KeyErrorKind | AssertionErrorKind | SyntaxErrorKind
    | ExceptionKind

  /** A raised object: every class it is an instance of, and its `allow`
      attribute when it has one. An object without `ExceptionKind` is a
      `BaseException` that is not an `Exception` (an interrupt). */
  datatype Exc = Exc(kinds: set<Kind>, allow: Option<seq<string>>)

  /** `isinstance(e, Exception)`. */
  predicate IsException(e: Exc) {
    ExceptionKind in e.kinds
  }

  /** A fresh instance of one `Exception` subclass that adds no attribute. */
  function Raise(k: Kind): (e: Exc)
    ensures IsException(e) && k in e.kinds && e.allow.None?
  {
    Exc({k, ExceptionKind}, None)
  }

  /** `KeyError` is a `LookupError`. */
  const KeyError: Exc := Exc({KeyErrorKind, LookupErrorKind, ExceptionKind}, None)

  /** What the cycle reads of a request: `method` and `path`. */
  datatype Request = Request(verb: string, path: string)

  /** A returned value: a response object (always true in a test), or any
      other Python value with its truth value (`None` is false). */
  datatype Reply = Response(status: int, allow: seq<string>) | Other(truthy: bool)

  /** `not value` is false. */
  predicate Truthy(r: Reply) {
    r.Response? || r.truthy
  }

  const NoneValue: Reply := Other(false)

  /** A call ends with a value or with a raised object. */
  type Outcome = Result<Reply, Exc>

  /** The arguments of a call: the request and the keyword arguments the
      route's captures became. */
  datatype Call = Call(request: Request, kwargs: map<string, LegacyConverters.Value>)

  /** Anything the cycle calls with a request. */
  type Callable = Call -> Outcome
}
