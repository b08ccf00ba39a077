/** `Route_Map`, the route table the oldest application object keeps: the
    routes in registration order and the set of registered templates. Its
    `match` returns the endpoint name, not a view. The route objects it
    holds (from `Vank/core/route/router.py`, which is not part of this
    model) are taken to be the compiled routes of `LegacyRoute`. */
module LegacyRouteMap {
  import opened Wrappers
  import opened LegacyRoute
  import LegacyRouter

  /** MethodNotAllowedException (without an allow list), NotFoundException,
      and a converter that raised. */
  datatype MatchError = MethodNotAllowed | NotFound | ConversionFailed

  /** The map's two fields as a value. */
  datatype Entries<!V> = Entries(routes: seq<Route<V>>, paths: set<string>)

  /** `add_route`: LookupError for a taken template, otherwise the template
      is recorded and the route appended. */
  function Add<V>(m: Entries<V>, path: string, route: Route<V>): Result<Entries<V>, string> {
    if path in m.paths then Err(path) else Ok(Entries(m.routes + [route], m.paths + {path}))
  }

  /** A taken template changes nothing; a new one adds exactly this route and
      this template, after the earlier routes. */
  lemma AddSpec<V>(m: Entries<V>, path: string, route: Route<V>)
    ensures Add(m, path, route).Err? <==> path in m.paths
    ensures Add(m, path, route).Ok? ==>
      Add(m, path, route).value.routes == m.routes + [route] &&
      Add(m, path, route).value.paths == m.paths + {path} &&
      Add(m, path, route).value.routes[..|m.routes|] == m.routes
  {
    if path !in m.paths {
      assert (m.routes + [route])[..|m.routes|] == m.routes;
    }
  }

  /** `Route_Map.match`: the first route whose pattern matches decides. */
  function MatchIn<V>(m: Entries<V>, path: string, verb: string): Result<(string, map<string, V>), MatchError> {
    match LegacyRouter.FirstMatch(m.routes, path, 0)
    case None => Err(NotFound)
    case Some(i) =>
      var r := m.routes[i];
      if !CheckMethod(r, verb) then Err(MethodNotAllowed)
      else
        match ConvertArguments(r, MatchPath(r, path).value.groups)
        case None => Err(ConversionFailed)
        case Some(args) => Ok((r.endpoint, args))
  }

  /** NotFound exactly when no route matches; otherwise the first matching
      route refuses a method it does not allow (no allow list is carried) or
      gives its endpoint name and its converted captures. */
  lemma MatchSpec<V>(m: Entries<V>, path: string, verb: string)
    ensures MatchIn(m, path, verb) == Err(NotFound) <==>
      forall j :: 0 <= j < |m.routes| ==> MatchPath(m.routes[j], path).None?
    ensures forall i :: 0 <= i < |m.routes| && MatchPath(m.routes[i], path).Some? &&
                        (forall j :: 0 <= j < i ==> MatchPath(m.routes[j], path).None?) ==>
      var r := m.routes[i];
      (!CheckMethod(r, verb) ==> MatchIn(m, path, verb) == Err(MethodNotAllowed)) &&
      (MatchIn(m, path, verb).Ok? ==>
         MatchIn(m, path, verb).value.0 == r.endpoint &&
         Some(MatchIn(m, path, verb).value.1) == ConvertArguments(r, MatchPath(r, path).value.groups))
  {
    forall i | 0 <= i < |m.routes| && MatchPath(m.routes[i], path).Some? &&
               (forall j :: 0 <= j < i ==> MatchPath(m.routes[j], path).None?)
      ensures LegacyRouter.FirstMatch(m.routes, path, 0) == Some(i)
    {
      var k := LegacyRouter.FirstMatch(m.routes, path, 0);
      assert k.Some?;
      assert k.value == i by {
        if k.value < i {
        } else if k.value > i {
        }
      }
    }
  }

  class RouteMap<V> {
    var routes: seq<Route<V>>
    var paths: set<string>

    function Contents(): Entries<V>
      reads this
    {
      Entries(routes, paths)
    }

    constructor()
      ensures Contents() == Entries([], {})
    {
      routes := [];
      paths := {};
    }

    /** `add_route`: on LookupError nothing changes. */
    method AddRoute(path: string, route: Route<V>) returns (err: Option<string>)
      modifies this
      ensures match Add(old(Contents()), path, route)
        case Ok(m) => err.None? && Contents() == m
        case Err(p) => err == Some(p) && Contents() == old(Contents())
    {
      if path in paths {
        return Some(path);
      }
      paths := paths + {path};
      routes := routes + [route];
      return None;
    }

    /** `match`: scans the routes in list order. */
    method Match(path: string, verb: string) returns (res: Result<(string, map<string, V>), MatchError>)
      ensures res == MatchIn(Contents(), path, verb)
    {
      var i := 0;
      while i < |routes|
        invariant i <= |routes|
        invariant LegacyRouter.FirstMatch(routes, path, 0) == LegacyRouter.FirstMatch(routes, path, i)
      {
        var hit := MatchPath(routes[i], path);
        if hit.Some? {
          var r := routes[i];
          if !CheckMethod(r, verb) {
            return Err(MethodNotAllowed);
          }
          var converted := ConvertArguments(r, hit.value.groups);
          if converted.None? {
            return Err(ConversionFailed);
          }
          return Ok((r.endpoint, converted.value));
        }
        i := i + 1;
      }
      return Err(NotFound);
    }
  }
}
