/** `Signal` of the oldest generation: a registry of listeners keyed by an
    integer identity, kept in binding order, and called one after the other
    by `emit`. */
module LegacySignal {
  import opened Wrappers
  import opened Text
  import opened OrderedDicts

  /** What `emit` collects, listener by listener, in binding order: the
      triple (identity, listener, result) for each call, stopping at the
      first listener that raises. `emit` holds the calls for the keys of
      `ks`; the recursion runs from the last key backwards, so the triples
      for a prefix of the keys are a prefix of the triples. */
  function Emission<L, S, R, E>(ks: seq<int>, binds: map<int, L>, call: (L, S) -> Result<R, E>, sender: S)
    : Result<seq<(int, L, R)>, E>
    requires Elems(ks) <= binds.Keys
    decreases |ks|
  {
    if ks == [] then Ok([])
    else
      var init := ks[..|ks| - 1];
      var k := ks[|ks| - 1];
      assert k in Elems(ks) && Elems(init) <= Elems(ks);
      match Emission(init, binds, call, sender)
      case Err(e) => Err(e)
      case Ok(rs) =>
        match call(binds[k], sender)
        case Err(e) => Err(e)
        case Ok(r) => Ok(rs + [(k, binds[k], r)])
  }

  /** A finished `emit` holds one triple per bound listener, in binding
      order, each with that listener's result; it fails exactly when some
      listener raises, and then with the error of the first one to raise. */
  lemma {:induction false} EmissionSpec<L, S, R, E>(ks: seq<int>, binds: map<int, L>, call: (L, S) -> Result<R, E>, sender: S)
    requires Elems(ks) <= binds.Keys
    ensures var em := Emission(ks, binds, call, sender);
            (em.Ok? ==> |em.value| == |ks| &&
                        forall i :: 0 <= i < |ks| ==>
                          call(binds[ks[i]], sender).Ok? &&
                          em.value[i] == (ks[i], binds[ks[i]], call(binds[ks[i]], sender).value)) &&
            (em.Ok? <==> forall i :: 0 <= i < |ks| ==> call(binds[ks[i]], sender).Ok?) &&
            (em.Err? ==> exists i :: 0 <= i < |ks| && call(binds[ks[i]], sender) == Err(em.error) &&
                          forall j :: 0 <= j < i ==> call(binds[ks[j]], sender).Ok?)
    decreases |ks|
  {
    if ks != [] {
      var n := |ks|;
      var init := ks[..n - 1];
      assert ks[n - 1] in Elems(ks) && Elems(init) <= Elems(ks);
      EmissionSpec(init, binds, call, sender);
      assert forall i :: 0 <= i < n - 1 ==> init[i] == ks[i];
      var prev := Emission(init, binds, call, sender);
      if prev.Err? {
        var i :| 0 <= i < |init| && call(binds[init[i]], sender) == Err(prev.error) &&
                 forall j :: 0 <= j < i ==> call(binds[init[j]], sender).Ok?;
        assert call(binds[ks[i]], sender).Err?;
      }
    }
  }

  /** A failed prefix fails the whole emission with the same error. */
  lemma {:induction false} EmissionErrSticks<L, S, R, E>(ks: seq<int>, n: nat, binds: map<int, L>, call: (L, S) -> Result<R, E>, sender: S)
    requires Elems(ks) <= binds.Keys && n <= |ks|
    requires Elems(ks[..n]) <= binds.Keys
    requires Emission(ks[..n], binds, call, sender).Err?
    ensures Emission(ks, binds, call, sender) == Emission(ks[..n], binds, call, sender)
    decreases |ks| - n
  {
    if n < |ks| {
      var m := |ks|;
      assert ks[m - 1] in Elems(ks);
      assert Elems(ks[..m - 1]) <= Elems(ks);
      assert ks[..m - 1][..n] == ks[..n];
      EmissionErrSticks(ks[..m - 1], n, binds, call, sender);
    } else {
      assert ks[..n] == ks;
    }
  }

  /** Extending the keys by one more listener extends a successful
      emission by that listener's triple. */
  lemma EmissionSnoc<L, S, R, E>(ks: seq<int>, i: nat, binds: map<int, L>, call: (L, S) -> Result<R, E>, sender: S)
    requires Elems(ks) <= binds.Keys && i < |ks|
    ensures Elems(ks[..i]) <= binds.Keys && Elems(ks[..i + 1]) <= binds.Keys
    ensures Emission(ks[..i + 1], binds, call, sender) ==
            match Emission(ks[..i], binds, call, sender)
            case Err(e) => Err(e)
            case Ok(rs) =>
              match call(binds[ks[i]], sender)
              case Err(e) => Err(e)
              case Ok(r) => Ok(rs + [(ks[i], binds[ks[i]], r)])
  {
    assert Elems(ks[..i]) <= Elems(ks) && Elems(ks[..i + 1]) <= Elems(ks);
    assert ks[..i + 1][..i] == ks[..i];
    assert ks[i] in Elems(ks);
  }

  class Signal<L> {
    /** `_binds`: identity to listener, in binding order. */
    var binds: Dict<int, L>

    predicate Valid()
      reads this
    {
      Wf(binds)
    }

    constructor()
      ensures binds == Empty() && Valid()
    {
      binds := Empty();
    }

    /** `bind(listener, identify)`: the listener is stored under the given
        identity, or under `id(listener)` (passed in as `listenerId`) when
        none is given, and that identity is returned. Rebinding an identity
        replaces its listener in place. */
    method Bind(listener: L, identify: Option<int>, listenerId: int) returns (key: int)
      modifies this
      requires Valid()
      ensures Valid()
      ensures key == identify.GetOr(listenerId)
      ensures binds.values == old(binds.values)[key := listener]
      ensures key in old(binds.values) ==> binds.keys == old(binds.keys)
      ensures key !in old(binds.values) ==> binds.keys == old(binds.keys) + [key]
    {
      key := if identify.None? then listenerId else identify.value;
      SetSpec(binds, key, listener);
      binds := Set(binds, key, listener);
    }

    /** `unbind(listener, identify)`: `del _binds[identify]`, with the same
        default identity; a missing identity raises KeyError and changes
        nothing. */
    method Unbind(identify: Option<int>, listenerId: int) returns (keyError: bool)
      modifies this
      requires Valid()
      ensures Valid()
      ensures var key := identify.GetOr(listenerId);
              keyError <==> key !in old(binds.values)
      ensures keyError ==> binds == old(binds)
      ensures !keyError ==> binds.values == old(binds.values) - {identify.GetOr(listenerId)} &&
                            binds.keys == Without(old(binds.keys), identify.GetOr(listenerId))
    {
      var key := if identify.None? then listenerId else identify.value;
      if key !in binds.values {
        return true;
      }
      RemoveSpec(binds, key);
      binds := Remove(binds, key);
      keyError := false;
    }

    /** `emit(sender, …)`: each listener in binding order is called with the
        sender (`call` stands for `listener(signal=self, sender=sender, …)`),
        and the triples are returned; the first raise propagates. */
    method Emit<S, R, E>(call: (L, S) -> Result<R, E>, sender: S) returns (r: Result<seq<(int, L, R)>, E>)
      requires Valid()
      ensures r == Emission(binds.keys, binds.values, call, sender)
    {
      var ks := binds.keys;
      var results: seq<(int, L, R)> := [];
      for i := 0 to |ks|
        invariant Elems(ks[..i]) <= binds.values.Keys
        invariant Emission(ks[..i], binds.values, call, sender) == Ok(results)
      {
        EmissionSnoc(ks, i, binds.values, call, sender);
        var listener := binds.values[ks[i]];
        var res := call(listener, sender);
        if res.Err? {
          EmissionErrSticks(ks, i + 1, binds.values, call, sender);
          return Err(res.error);
        }
        results := results + [(ks[i], listener, res.value)];
      }
      assert ks[..|ks|] == ks;
      r := Ok(results);
    }
  }
}
