/** The error-handler registry of the newest generation: one handler per
    exception class, and on a raise the handler of the most specific class
    along the exception's ancestry (never `object`), or the exception itself
    when there is none. */
module VisapiError {
  import opened Wrappers

  /** A raised exception: its class's `__mro__` by class name, most specific
      first and `object` last, and its identity. */
  datatype Raised = Raised(mro: seq<string>, id: nat)

  /** What `handle` returns: a handler's answer, or (from `default`) the
      exception itself. */
  datatype Handled<R> = Answered(value: R) | Unhandled(exc: Raised)

  /** The ValueError `add_error_handler` raises for a class that has a
      handler. */
  datatype Duplicate = Duplicate(cls: string)

  /** `__mro__[:-1]`: the ancestry without its last entry, `object`. */
  function Ancestry(mro: seq<string>): (a: seq<string>)
    ensures |a| == if mro == [] then 0 else |mro| - 1
    ensures forall j :: 0 <= j < |a| ==> a[j] == mro[j]
  {
    if mro == [] then [] else mro[..|mro| - 1]
  }

  /** The first class of `classes` that has a handler, or None. */
  function FirstHandled<H>(handlers: map<string, H>, classes: seq<string>): (r: Option<string>)
    ensures r.None? <==> forall j :: 0 <= j < |classes| ==> classes[j] !in handlers
    ensures r.Some? ==> exists j :: 0 <= j < |classes| && classes[j] == r.value && r.value in handlers &&
                                    forall k :: 0 <= k < j ==> classes[k] !in handlers
  {
    if classes == [] then None
    else if classes[0] in handlers then Some(classes[0])
    else
      var r := FirstHandled(handlers, classes[1..]);
      assert forall j :: 1 <= j < |classes| ==> classes[j] == classes[1..][j - 1];
      if r.Some? then
        var j :| 0 <= j < |classes[1..]| && classes[1..][j] == r.value && r.value in handlers &&
                 forall k :: 0 <= k < j ==> classes[1..][k] !in handlers;
        assert classes[j + 1] == r.value;
        assert forall k :: 0 <= k < j + 1 ==> classes[k] !in handlers by {
          forall k | 0 <= k < j + 1 ensures classes[k] !in handlers {
            if k > 0 { assert classes[k] == classes[1..][k - 1]; }
          }
        }
        r
      else r
  }

  /** `handle(exception)` given the registered handlers and how each answers. */
  function Handle<R>(handlers: map<string, Raised -> R>, e: Raised): (r: Handled<R>)
    ensures r.Unhandled? ==> r.exc == e
  {
    match FirstHandled(handlers, Ancestry(e.mro))
    case None => Unhandled(e)
    case Some(cls) => Answered(handlers[cls](e))
  }

  /** The handler of the most specific class that has one answers; a handler
      for a class further up is not consulted. */
  lemma HandleMostSpecific<R>(handlers: map<string, Raised -> R>, e: Raised, j: nat)
    requires j + 1 < |e.mro| && e.mro[j] in handlers
    requires forall k :: 0 <= k < j ==> e.mro[k] !in handlers
    ensures Handle(handlers, e) == Answered(handlers[e.mro[j]](e))
  {
    var a := Ancestry(e.mro);
    var r := FirstHandled(handlers, a);
    assert a[j] in handlers;
    var i :| 0 <= i < |a| && a[i] == r.value && r.value in handlers && forall k :: 0 <= k < i ==> a[k] !in handlers;
    assert i == j;
  }

  /** A handler registered for the last class of the ancestry, `object`, is
      never used; with no handler along the rest the exception is returned. */
  lemma ObjectHandlerIgnored<R>(handlers: map<string, Raised -> R>, e: Raised)
    requires forall j :: 0 <= j && j + 1 < |e.mro| ==> e.mro[j] !in handlers
    ensures Handle(handlers, e) == Unhandled(e)
  {
  }

  /** `add_error_handler` on the live entries of the `WeakValueDictionary`:
      ValueError for a class whose handler is still alive, which is kept;
      otherwise the handler is stored, and its entry survives the call only
      when something other than the dictionary references the handler (a
      lambda or a bound method passed straight in is collected at once). */
  function Register<R>(handlers: map<string, Raised -> R>, cls: string, handler: Raised -> R, keptElsewhere: bool)
    : (map<string, Raised -> R>, Option<Duplicate>)
  {
    if cls in handlers then (handlers, Some(Duplicate(cls)))
    else if keptElsewhere then (handlers[cls := handler], None)
    else (handlers, None)
  }

  /** Registration refuses exactly a class with a live handler and then
      changes nothing; otherwise only the class's own entry can change: a
      handler referenced elsewhere answers that class's exceptions from now
      on, and one referenced nowhere else leaves the registry as it was. */
  lemma RegisterSpec<R>(handlers: map<string, Raised -> R>, cls: string, handler: Raised -> R, keptElsewhere: bool, e: Raised)
    requires |e.mro| >= 2 && e.mro[0] == cls
    ensures var (h, err) := Register(handlers, cls, handler, keptElsewhere);
            (err.Some? <==> cls in handlers) &&
            (err.Some? ==> err.value == Duplicate(cls) && h == handlers) &&
            (forall c :: c != cls ==> (c in h <==> c in handlers) && (c in h ==> h[c] == handlers[c])) &&
            (err.None? && keptElsewhere ==> Handle(h, e) == Answered(handler(e))) &&
            (err.None? && !keptElsewhere ==> h == handlers && Handle(h, e) == Handle(handlers, e))
  {
    if cls !in handlers && keptElsewhere {
      RegisteredOwnClassAnswers(handlers, cls, handler, e);
    }
  }

  /** `on_error(exception)(handler)` as written: `inner` returns what
      `add_error_handler` returns, None, so the decorated name is bound to
      None and no longer references the handler. Unless something else
      does, its weak entry is gone as soon as the decorator returns. */
  function OnErrorAsWritten<R>(handlers: map<string, Raised -> R>, cls: string, handler: Raised -> R, keptElsewhere: bool)
    : (map<string, Raised -> R>, Option<Duplicate>)
  {
    Register(handlers, cls, handler, keptElsewhere)
  }

  /** `on_error` as evidently intended: `inner` returns the handler, so the
      decorated name keeps it alive and the entry stays. */
  function OnErrorFixed<R>(handlers: map<string, Raised -> R>, cls: string, handler: Raised -> R)
    : (map<string, Raised -> R>, Option<Duplicate>)
  {
    Register(handlers, cls, handler, true)
  }

  /** A handler registered only through the decorator, as written, never
      answers: an exception of its class that had no handler along its
      ancestry is still returned unchanged. With the corrected decorator
      the handler answers it. */
  lemma DecoratedHandlerLost<R>(handlers: map<string, Raised -> R>, cls: string, handler: Raised -> R, e: Raised)
    requires |e.mro| >= 2 && e.mro[0] == cls
    requires forall j :: 0 <= j && j + 1 < |e.mro| ==> e.mro[j] !in handlers
    ensures OnErrorAsWritten(handlers, cls, handler, false).1.None?
    ensures Handle(OnErrorAsWritten(handlers, cls, handler, false).0, e) == Unhandled(e)
    ensures OnErrorFixed(handlers, cls, handler).1.None?
    ensures Handle(OnErrorFixed(handlers, cls, handler).0, e) == Answered(handler(e))
  {
    assert cls !in handlers;
    ObjectHandlerIgnored(handlers, e);
    RegisterSpec(handlers, cls, handler, true, e);
  }

  /** The registry: the live entries of the `WeakValueDictionary`, one
      handler per exception class. `app` is not part of this model. */
  class ErrorHandler<R> {
    var handlers: map<string, Raised -> R>

    constructor()
      ensures handlers == map[]
    {
      handlers := map[];
    }

    /** `add_error_handler(exception, handler)`, where `keptElsewhere` says
        whether anything besides the dictionary references the handler. */
    method AddErrorHandler(cls: string, handler: Raised -> R, keptElsewhere: bool) returns (err: Option<Duplicate>)
      modifies this
      ensures (handlers, err) == Register(old(handlers), cls, handler, keptElsewhere)
      ensures err.Some? <==> cls in old(handlers)
      ensures err.None? && !keptElsewhere ==> handlers == old(handlers)
    {
      if cls in handlers {
        return Some(Duplicate(cls));
      }
      if keptElsewhere {
        handlers := handlers[cls := handler];
      }
      return None;
    }

    /** The last reference elsewhere to the handler of `cls` goes away: the
        weak entry disappears, and a later registration for `cls` is no
        longer a duplicate. */
    method Collect(cls: string)
      modifies this
      ensures handlers == old(handlers) - {cls}
      ensures cls !in handlers
    {
      handlers := handlers - {cls};
    }

    /** `on_error(exception)(handler)`: the decorator registers the handler
        and returns None, so the decorated name is bound to None. */
    method OnError(cls: string, handler: Raised -> R, keptElsewhere: bool) returns (err: Option<Duplicate>)
      modifies this
      ensures (handlers, err) == OnErrorAsWritten(old(handlers), cls, handler, keptElsewhere)
      ensures err.Some? <==> cls in old(handlers)
      ensures !keptElsewhere ==> handlers == old(handlers)
    {
      err := AddErrorHandler(cls, handler, keptElsewhere);
    }
  }

  /** After registering a handler for an exception's own class, that handler
      answers it while its entry lives. */
  lemma RegisteredOwnClassAnswers<R>(handlers: map<string, Raised -> R>, cls: string, handler: Raised -> R, e: Raised)
    requires |e.mro| >= 2 && e.mro[0] == cls
    ensures Handle(handlers[cls := handler], e) == Answered(handler(e))
  {
    HandleMostSpecific(handlers[cls := handler], e, 0);
  }
}
