/** `MiddlewareAppMixin` of the middle generation: `init_middleware` checks
    the configured exception converter, wraps `finalize` in the exception
    boundary, then walks the configured middleware classes from the last to
    the first, wrapping the chain built so far in an instance of each class
    and that instance again in the exception boundary. The outermost link
    becomes `entry_point`. */
module VankApplicationBase {
  import opened Wrappers
  import opened Callables
  import opened VankCore
  import opened VankExceptionHandler
  import opened VankMiddleware

  /** A configured middleware path after `import_from_str`: whether the
      object imported is a class at all, whether it is a subclass of
      `Middleware` (read only for a class), the hooks the class defines, and
      its `handle_view`, which only the application facade collects. */
  datatype Imported = Imported(path: string, isClass: bool, isMiddleware: bool, hooks: Hooks, handleView: Option<ViewHook>)

  /** The entry passes `issubclass(cls, Middleware)`. */
  predicate IsMiddleware(im: Imported) {
    im.isClass && im.isMiddleware
  }

  /** What an entry that does not pass raises: `issubclass` itself raises
      TypeError for an object that is not a class (a function, a module, an
      instance), before the check's ValueError can be built; a class that is
      not a subclass gets that ValueError. */
  function Refused(im: Imported): (e: Exc)
    ensures IsException(e)
    ensures TypeErrorKind in e.kinds <==> !im.isClass
    ensures ValueErrorKind in e.kinds <==> im.isClass
  {
    if im.isClass then Raise(ValueErrorKind) else Raise(TypeErrorKind)
  }

  /** The check of `init_middleware` as written: `only_accept_argument(conv,
      "exc")`, or `accept_variable_argument(conv)`, which tests for `*args`
      twice and never for `**kwargs`. */
  predicate ConverterAcceptedAsWritten(f: Callback) {
    OnlyAccepts(f, "exc") || (f.varPositional && f.varPositional)
  }

  /** The check its error message and docstring describe: the converter
      takes only `exc`, or takes `*args` or `**kwargs`. */
  predicate ConverterAccepted(f: Callback) {
    OnlyAccepts(f, "exc") || f.varPositional || f.varKeyword
  }

  /** A converter that takes only `**kwargs` is refused as written although
      it is one the check means to accept. */
  lemma KeywordConverterRefused()
    ensures var f := Callback(0, "convert", ["kwargs"], false, true, false);
            !ConverterAcceptedAsWritten(f) && ConverterAccepted(f)
  {
  }

  /** The corrected check accepts everything the written one does, and on
      top exactly the converters with `**kwargs`. */
  lemma ConverterAcceptedWidens(f: Callback)
    ensures ConverterAcceptedAsWritten(f) ==> ConverterAccepted(f)
    ensures ConverterAccepted(f) && !ConverterAcceptedAsWritten(f) ==> f.varKeyword && !f.varPositional
  {
  }

  /** Every imported entry is a `Middleware` subclass. */
  predicate AllMiddleware(items: seq<Result<Imported, Exc>>) {
    forall j :: 0 <= j < |items| ==> items[j].Ok? && IsMiddleware(items[j].value)
  }

  function HooksOf(items: seq<Result<Imported, Exc>>): (hs: seq<Hooks>)
    requires AllMiddleware(items)
    ensures |hs| == |items|
    ensures forall j :: 0 <= j < |items| ==> hs[j] == items[j].value.hooks
  {
    seq(|items|, j requires 0 <= j < |items| && items[j].Ok? => items[j].value.hooks)
  }

  /** One step of the walk from the back: an entry that is a `Middleware`
      subclass, in front of entries that all are. */
  lemma HooksOfStep(items: seq<Result<Imported, Exc>>, i: nat)
    requires i < |items| && AllMiddleware(items[i + 1..])
    requires items[i].Ok? && IsMiddleware(items[i].value)
    ensures AllMiddleware(items[i..])
    ensures HooksOf(items[i..]) == [items[i].value.hooks] + HooksOf(items[i + 1..])
  {
    var tail := items[i + 1..];
    assert forall k :: 1 <= k < |items[i..]| ==> items[i..][k] == tail[k - 1];
    var a, b := HooksOf(items[i..]), HooksOf(tail);
    forall k | 0 <= k < |b| ensures a[k + 1] == b[k] {
      assert items[i..][k + 1] == tail[k];
    }
  }

  /** One step of `ChainError` on the prefix that ends at entry `i`. */
  lemma ChainErrorAt(items: seq<Result<Imported, Exc>>, i: nat)
    requires i < |items|
    ensures ChainError(items[..i + 1]) ==
      (if items[i].Err? then Some(items[i].error)
       else if !IsMiddleware(items[i].value) then Some(Refused(items[i].value))
       else ChainError(items[..i]))
  {
    var p := items[..i + 1];
    assert p[|p| - 1] == items[i];
    assert p[..|p| - 1] == items[..i];
  }

  /** The chain for the classes `hs`: the first class's instance is the
      outermost, around the chain of the others; innermost is `finalize`;
      every link is wrapped by the exception boundary. */
  function Chain(hs: seq<Hooks>, finalize: Link, convert: Converter): Link
    decreases |hs|
  {
    if hs == [] then Guard(finalize, convert)
    else Guard(AsLink(New(hs[0], Chain(hs[1..], finalize, convert))), convert)
  }

  /** The failure met first when the entries are walked from the last to the
      first: an import that raised, or an entry that is not a `Middleware`
      class (`Refused`: TypeError for a non-class, ValueError for a class). */
  function ChainError(items: seq<Result<Imported, Exc>>): (r: Option<Exc>)
    ensures r.None? <==> AllMiddleware(items)
  {
    if items == [] then None
    else
      var last := items[|items| - 1];
      if last.Err? then Some(last.error)
      else if !IsMiddleware(last.value) then Some(Refused(last.value))
      else
        var r := ChainError(items[..|items| - 1]);
        assert forall j :: 0 <= j < |items| - 1 ==> items[..|items| - 1][j] == items[j];
        r
  }

  /** The error is that of the last failing entry: every entry after it is a
      `Middleware` subclass. */
  lemma {:induction false} ChainErrorIsLastFailure(items: seq<Result<Imported, Exc>>)
    requires ChainError(items).Some?
    ensures exists j :: LastFailure(items, j)
    decreases |items|
  {
    var n := |items|;
    var last := items[n - 1];
    if last.Err? || !IsMiddleware(last.value) {
      assert items[n..] == [];
      assert LastFailure(items, n - 1);
    } else {
      var front := items[..n - 1];
      ChainErrorIsLastFailure(front);
      var j :| LastFailure(front, j);
      LastFailureSnoc(items, j);
    }
  }

  /** Entry `j` failed, every entry after it is a `Middleware` subclass,
      and the chain's error is that of entry `j`. */
  predicate LastFailure(items: seq<Result<Imported, Exc>>, j: int) {
    0 <= j < |items| && AllMiddleware(items[j + 1..]) &&
    (if items[j].Err? then ChainError(items) == Some(items[j].error)
     else !IsMiddleware(items[j].value) && ChainError(items) == Some(Refused(items[j].value)))
  }

  /** A `Middleware` subclass appended behind the last failure leaves it
      the last failure. */
  lemma LastFailureSnoc(items: seq<Result<Imported, Exc>>, j: int)
    requires |items| > 0 && items[|items| - 1].Ok? && IsMiddleware(items[|items| - 1].value)
    requires LastFailure(items[..|items| - 1], j)
    ensures LastFailure(items, j)
  {
    var n := |items|;
    var front := items[..n - 1];
    assert front[j] == items[j];
    assert ChainError(items) == ChainError(front);
    var tail := items[j + 1..];
    forall k | 0 <= k < |tail| ensures tail[k].Ok? && IsMiddleware(tail[k].value) {
      if j + 1 + k < n - 1 {
        assert tail[k] == front[j + 1..][k];
      }
    }
  }

  /** What `init_middleware` leaves as `entry_point`, or what it raises. */
  function InitResult(conv: Callback, convert: Converter, finalize: Link, items: seq<Result<Imported, Exc>>): Result<Link, Exc> {
    if !ConverterAccepted(conv) then Err(Raise(ValueErrorKind))
    else
      match ChainError(items)
      case Some(e) => Err(e)
      case None => Ok(Chain(HooksOf(items), finalize, convert))
  }

  /** The wrapping keeps the coroutine kind of `finalize` all the way out. */
  lemma {:induction false} ChainKeepsCoroutineKind(hs: seq<Hooks>, finalize: Link, convert: Converter)
    ensures Chain(hs, finalize, convert).isCoroutine == finalize.isCoroutine
    decreases |hs|
  {
    if hs != [] {
      ChainKeepsCoroutineKind(hs[1..], finalize, convert);
    }
  }

  /** With a converter that always answers, no `Exception` leaves the entry
      point, whatever the classes do. */
  lemma ChainContainsExceptions(hs: seq<Hooks>, finalize: Link, convert: Converter, c: Call)
    requires forall e :: convert(e).Ok?
    ensures Chain(hs, finalize, convert).run(c).Err? ==> !IsException(Chain(hs, finalize, convert).run(c).error)
  {
    if hs == [] {
      GuardContainsExceptions(finalize, convert, c);
    } else {
      GuardContainsExceptions(AsLink(New(hs[0], Chain(hs[1..], finalize, convert))), convert, c);
    }
  }

  /** Classes without hooks change nothing: with a converter that always
      answers, the chain answers as the guarded `finalize` does. */
  lemma {:induction false} HooklessChainTransparent(hs: seq<Hooks>, finalize: Link, convert: Converter, c: Call)
    requires forall e :: convert(e).Ok?
    requires forall j :: 0 <= j < |hs| ==> hs[j] == NoHooks
    ensures Chain(hs, finalize, convert).run(c) == Guard(finalize, convert).run(c)
    decreases |hs|
  {
    if hs != [] {
      var inner := Chain(hs[1..], finalize, convert);
      HooklessChainTransparent(hs[1..], finalize, convert, c);
      NoHooksPassThrough(inner, c);
      assert AsLink(New(hs[0], inner)).run(c) == inner.run(c);
      GuardContainsExceptions(finalize, convert, c);
    }
  }

  /** The first configured class is the outermost: when its request hook
      answers, neither the later classes nor `finalize` are reached, so the
      result is the same whatever they are. */
  lemma FirstConfiguredIsOutermost(h: Hooks, rest1: seq<Hooks>, rest2: seq<Hooks>, fin1: Link, fin2: Link, convert: Converter, c: Call)
    requires h.handleRequest.Some? && h.handleRequest.value().Ok? && Truthy(h.handleRequest.value().value)
    ensures Chain([h] + rest1, fin1, convert).run(c) == Chain([h] + rest2, fin2, convert).run(c)
  {
    assert ([h] + rest1)[0] == h && ([h] + rest2)[0] == h;
    RequestHookShortCircuits(h, Chain(([h] + rest1)[1..], fin1, convert), Chain(([h] + rest2)[1..], fin2, convert), c, c);
  }

  /** The part of `MiddlewareAppMixin` that `init_middleware` uses: the
      imported exception converter (its signature and its behaviour), the
      subclass's `finalize`, and the `entry_point` field. */
  class MiddlewareApp {
    const errorConverter: Callback
    const convert: Converter
    const finalize: Link
    var entryPoint: Option<Link>

    /** `__init__` up to the call of `setup`: `entry_point` is None. */
    constructor(errorConverter: Callback, convert: Converter, finalize: Link)
      ensures this.errorConverter == errorConverter && this.convert == convert && this.finalize == finalize
      ensures entryPoint.None?
    {
      this.errorConverter := errorConverter;
      this.convert := convert;
      this.finalize := finalize;
      entryPoint := None;
    }

    /** `init_middleware` over the configured entries, in configuration
        order: on success `entry_point` is the chain; on a raise it keeps its
        old value. */
    method InitMiddleware(items: seq<Result<Imported, Exc>>) returns (err: Option<Exc>)
      modifies this
      ensures match InitResult(errorConverter, convert, finalize, items)
        case Ok(l) => err.None? && entryPoint == Some(l)
        case Err(e) => err == Some(e) && entryPoint == old(entryPoint)
    {
      if !ConverterAccepted(errorConverter) {
        return Some(Raise(ValueErrorKind));
      }
      var wrapped := Guard(finalize, convert);
      var i := |items|;
      assert items[..i] == items;
      while i > 0
        invariant 0 <= i <= |items|
        invariant ChainError(items) == ChainError(items[..i])
        invariant AllMiddleware(items[i..])
        invariant wrapped == Chain(HooksOf(items[i..]), finalize, convert)
        invariant entryPoint == old(entryPoint)
      {
        i := i - 1;
        ChainErrorAt(items, i);
        var item := items[i];
        if item.Err? {
          return Some(item.error);
        }
        if !IsMiddleware(item.value) {
          return Some(Refused(item.value));
        }
        HooksOfStep(items, i);
        wrapped := Guard(AsLink(New(item.value.hooks, wrapped)), convert);
      }
      assert items[0..] == items;
      entryPoint := Some(wrapped);
      err := None;
    }
  }
}
