/** `WSGIApplication.finalize` of the middle generation: the innermost link
    of the chain. It matches the request path among the HTTP routes, checks
    the method, converts the captures, merges them into the keyword
    arguments the middlewares passed, calls the route's callback and insists
    on a response. */
module VankWsgi {
  import opened Wrappers
  import opened VankCore
  import opened VankRoute

  /** What `self.match(request.path, protocol=HTTP)` returns: the route, its
      raw captures and its callback's behaviour; None when it raises
      `RouteNotFound`. The router that provides this `match` is not part of
      this model, so its result is an input. */
  datatype Matched = Matched(route: Route<Value>, captures: map<string, string>, callback: Callable)

  /** `kwargs.update(converted)`: the keys of both, a converted value winning
      over a keyword argument of the same name. */
  function Merged(kwargs: map<string, Value>, converted: map<string, Value>): (m: map<string, Value>)
    ensures m.Keys == kwargs.Keys + converted.Keys
    ensures forall k :: k in converted ==> m[k] == converted[k]
    ensures forall k :: k in kwargs && k !in converted ==> m[k] == kwargs[k]
  {
    kwargs + converted
  }

  /** The KeyError `convert_arguments` raises for an unknown capture. */
  const KeyError: Exc := Exc({KeyErrorKind, LookupErrorKind, ExceptionKind}, [])

  /** `finalize(*args, **kwargs)` for a request with method `verb`. */
  function Finalize(matched: Option<Matched>, verb: string, c: Call): (r: Outcome)
    ensures matched.None? ==> r == Err(Raise(NotFoundKind))
    ensures matched.Some? && !CheckMethod(matched.value.route, verb) ==>
              r == Err(MethodNotAllowed(matched.value.route.methods))
    ensures r.Ok? ==> r.value.Response?
    ensures r.Ok? ==>
              matched.Some? && CheckMethod(matched.value.route, verb) &&
              matched.value.captures.Keys <= matched.value.route.argConverters.Keys
  {
    if matched.None? then Err(Raise(NotFoundKind))
    else
      var route := matched.value.route;
      if !CheckMethod(route, verb) then Err(MethodNotAllowed(route.methods))
      else
        match ConvertArguments(route, matched.value.captures)
        case Err(_) => Err(KeyError)
        case Ok(converted) =>
          var response := matched.value.callback(Call(c.args, Merged(c.kwargs, converted)));
          if response.Ok? && !response.value.Response? then Err(Raise(NoResponseKind))
          else response
  }

  /** On a matched route that allows the method and knows every capture, the
      callback is called with the middlewares' positional arguments and the
      merged keyword arguments, in which each capture carries its converted
      value; a response it returns, or anything it raises, is the result,
      and any other value is a NoResponseException. */
  lemma FinalizeCallsCallback(m: Matched, verb: string, c: Call)
    requires CheckMethod(m.route, verb) && m.captures.Keys <= m.route.argConverters.Keys
    ensures var converted := ConvertArguments(m.route, m.captures);
            converted.Ok? &&
            (forall k :: k in m.captures ==> Merged(c.kwargs, converted.value)[k] == m.route.argConverters[k].toPython(m.captures[k])) &&
            var response := m.callback(Call(c.args, Merged(c.kwargs, converted.value)));
            (response.Err? || response.value.Response? ==> Finalize(Some(m), verb, c) == response) &&
            (response.Ok? && !response.value.Response? ==> Finalize(Some(m), verb, c) == Err(Raise(NoResponseKind)))
  {
  }

  /** A capture the route has no converter for is a KeyError, raised before
      the callback runs. */
  lemma UnknownCaptureRaises(m: Matched, verb: string, c: Call)
    requires CheckMethod(m.route, verb) && !(m.captures.Keys <= m.route.argConverters.Keys)
    ensures Finalize(Some(m), verb, c) == Err(KeyError)
  {
  }

  /** The result does not depend on the keyword arguments the middlewares
      passed under the names of the route's captures: the converted values
      replace them. */
  lemma CapturesOverrideKeywords(m: Matched, verb: string, args: seq<Value>, kw1: map<string, Value>, kw2: map<string, Value>)
    requires m.captures.Keys <= m.route.argConverters.Keys
    requires kw1.Keys == kw2.Keys
    requires forall k :: k in kw1 && k !in m.captures ==> kw1[k] == kw2[k]
    ensures Finalize(Some(m), verb, Call(args, kw1)) == Finalize(Some(m), verb, Call(args, kw2))
  {
    if CheckMethod(m.route, verb) {
      var converted := ConvertArguments(m.route, m.captures).value;
      MergedAgree(kw1, kw2, converted);
    }
  }

  /** Keyword arguments that differ only under converted names merge to
      the same map. */
  lemma MergedAgree(kw1: map<string, Value>, kw2: map<string, Value>, converted: map<string, Value>)
    requires kw1.Keys == kw2.Keys
    requires forall k :: k in kw1 && k !in converted ==> kw1[k] == kw2[k]
    ensures Merged(kw1, converted) == Merged(kw2, converted)
  {
    assert forall k :: k in Merged(kw1, converted) ==> Merged(kw1, converted)[k] == Merged(kw2, converted)[k];
  }
}
