/** Python's `dict` as a value: a map together with its keys in insertion
    order. Assigning to a present key keeps its position; deleting removes
    it from the order. */
module OrderedDicts {
  import opened Text

  datatype Dict<K, V> = Dict(keys: seq<K>, values: map<K, V>)

  /** Every dict the operations below produce: each key once, and the
      order lists exactly the mapped keys. */
  predicate Wf<K(==), V>(d: Dict<K, V>) {
    Distinct(d.keys) && Elems(d.keys) == d.values.Keys
  }

  function Empty<K(==), V>(): (d: Dict<K, V>)
    ensures Wf(d) && d.values == map[]
  {
    Dict([], map[])
  }

  /** `d[k] = v`. */
  function Set<K(==), V>(d: Dict<K, V>, k: K, v: V): Dict<K, V> {
    if k in d.values then Dict(d.keys, d.values[k := v]) else Dict(d.keys + [k], d.values[k := v])
  }

  /** Assignment stores the value, keeps the other entries, and appends the
      key only when it was absent. */
  lemma SetSpec<K, V>(d: Dict<K, V>, k: K, v: V)
    requires Wf(d)
    ensures Wf(Set(d, k, v))
    ensures Set(d, k, v).values == d.values[k := v]
    ensures k in d.values ==> Set(d, k, v).keys == d.keys
    ensures k !in d.values ==> Set(d, k, v).keys == d.keys + [k]
  {
    if k !in d.values {
      DistinctAppend(d.keys, k);
      ElemsAppend(d.keys, k);
    }
  }

  /** Two assignments in a row. */
  lemma SetTwice<K, V>(d: Dict<K, V>, k1: K, v1: V, k2: K, v2: V)
    requires Wf(d)
    ensures Wf(Set(Set(d, k1, v1), k2, v2))
    ensures Set(Set(d, k1, v1), k2, v2).values == d.values[k1 := v1][k2 := v2]
  {
    SetSpec(d, k1, v1);
    SetSpec(Set(d, k1, v1), k2, v2);
  }

  /** `d.items()`: each key with its value, in insertion order. */
  function Items<K, V>(d: Dict<K, V>): (r: seq<(K, V)>)
    requires Wf(d)
    ensures |r| == |d.keys|
    ensures forall i :: 0 <= i < |r| ==> r[i] == (d.keys[i], d.values[d.keys[i]])
  {
    seq(|d.keys|, i requires 0 <= i < |d.keys| => assert d.keys[i] in Elems(d.keys); (d.keys[i], d.values[d.keys[i]]))
  }

  /** The keys in order without `k`. */
  function Without<K(==)>(ks: seq<K>, k: K): (r: seq<K>)
    ensures Elems(r) == Elems(ks) - {k}
    ensures |r| <= |ks|
  {
    if ks == [] then []
    else
      var head := if ks[0] == k then [] else [ks[0]];
      assert ks == [ks[0]] + ks[1..];
      ElemsCons([ks[0]], ks[1..]);
      ElemsCons(head, Without(ks[1..], k));
      head + Without(ks[1..], k)
  }

  lemma {:induction false} WithoutDistinct<K>(ks: seq<K>, k: K)
    requires Distinct(ks)
    ensures Distinct(Without(ks, k))
  {
    if ks != [] {
      assert ks == [ks[0]] + ks[1..];
      DistinctSuffix([ks[0]], ks[1..]);
      WithoutDistinct(ks[1..], k);
      var rest := Without(ks[1..], k);
      if ks[0] != k {
        DistinctHead(ks[0], ks[1..]);
        assert ks[0] !in Elems(rest);
        forall i, j | 0 <= i < j < |[ks[0]] + rest| ensures ([ks[0]] + rest)[i] != ([ks[0]] + rest)[j] {
          if i == 0 {
            assert ([ks[0]] + rest)[j] == rest[j - 1];
            assert rest[j - 1] in Elems(rest);
          } else {
            assert ([ks[0]] + rest)[i] == rest[i - 1] && ([ks[0]] + rest)[j] == rest[j - 1];
          }
        }
      } else {
        assert [] + rest == rest;
      }
    }
  }

  /** `del d[k]`, for a present key. */
  function Remove<K(==), V>(d: Dict<K, V>, k: K): Dict<K, V> {
    Dict(Without(d.keys, k), d.values - {k})
  }

  lemma RemoveSpec<K, V>(d: Dict<K, V>, k: K)
    requires Wf(d)
    ensures Wf(Remove(d, k)) && Remove(d, k).values == d.values - {k}
  {
    WithoutDistinct(d.keys, k);
  }

  /** `{k: v for k, v in pairs}`: each pair assigned in turn, so a repeated
      key keeps its first position and takes its last value. */
  function FromPairs<K(==), V>(d: Dict<K, V>, pairs: seq<(K, V)>): Dict<K, V>
    decreases |pairs|
  {
    if pairs == [] then d else FromPairs(Set(d, pairs[0].0, pairs[0].1), pairs[1..])
  }

  /** Building from one more pair assigns that pair to the result so far,
      which is how a loop filling a dict pair by pair builds it. */
  lemma {:induction false} FromPairsSnoc<K, V>(d: Dict<K, V>, pairs: seq<(K, V)>, k: K, v: V)
    ensures FromPairs(d, pairs + [(k, v)]) == Set(FromPairs(d, pairs), k, v)
    decreases |pairs|
  {
    if pairs != [] {
      assert (pairs + [(k, v)])[0] == pairs[0];
      assert (pairs + [(k, v)])[1..] == pairs[1..] + [(k, v)];
      FromPairsSnoc(Set(d, pairs[0].0, pairs[0].1), pairs[1..], k, v);
    } else {
      assert [(k, v)][1..] == [];
    }
  }

  /** Whether `k` is among the first components. */
  predicate HasKey<K(==), V>(pairs: seq<(K, V)>, k: K) {
    exists i :: 0 <= i < |pairs| && pairs[i].0 == k
  }

  /** The value of the last pair with key `k`. */
  function LastValue<K(==), V>(pairs: seq<(K, V)>, k: K): V
    requires HasKey(pairs, k)
    decreases |pairs|
  {
    if pairs[|pairs| - 1].0 == k then pairs[|pairs| - 1].1
    else
      var i :| 0 <= i < |pairs| && pairs[i].0 == k;
      assert pairs[..|pairs| - 1][i] == pairs[i];
      LastValue(pairs[..|pairs| - 1], k)
  }

  /** Building from pairs keeps the dict well formed, and every key of the
      result maps to the value of its last pair (or to its old value when no
      pair has it). */
  lemma {:induction false} FromPairsSpec<K, V>(d: Dict<K, V>, pairs: seq<(K, V)>)
    requires Wf(d)
    ensures Wf(FromPairs(d, pairs))
    ensures forall k :: k in FromPairs(d, pairs).values <==> k in d.values || HasKey(pairs, k)
    ensures forall k :: HasKey(pairs, k) ==> FromPairs(d, pairs).values[k] == LastValue(pairs, k)
    ensures forall k :: k in d.values && !HasKey(pairs, k) ==> FromPairs(d, pairs).values[k] == d.values[k]
    decreases |pairs|
  {
    if pairs != [] {
      var (k0, v0) := pairs[0];
      var rest := pairs[1..];
      SetSpec(d, k0, v0);
      FromPairsSpec(Set(d, k0, v0), rest);
      var r := FromPairs(d, pairs);
      assert r == FromPairs(Set(d, k0, v0), rest);
      forall k ensures HasKey(pairs, k) <==> k == k0 || HasKey(rest, k) {
        if HasKey(pairs, k) && k != k0 {
          var i :| 0 <= i < |pairs| && pairs[i].0 == k;
          assert rest[i - 1].0 == k;
        }
        if HasKey(rest, k) {
          var i :| 0 <= i < |rest| && rest[i].0 == k;
          assert pairs[i + 1].0 == k;
        }
        if k == k0 {
          assert pairs[0].0 == k;
        }
      }
      forall k | HasKey(pairs, k) ensures r.values[k] == LastValue(pairs, k) {
        LastValueCons(pairs, k);
      }
    }
  }

  /** The last value of a key is decided by the tail when the tail has it. */
  lemma {:induction false} LastValueCons<K, V>(pairs: seq<(K, V)>, k: K)
    requires HasKey(pairs, k)
    ensures HasKey(pairs[1..], k) ==> LastValue(pairs, k) == LastValue(pairs[1..], k)
    ensures !HasKey(pairs[1..], k) ==> pairs[0].0 == k && LastValue(pairs, k) == pairs[0].1
    decreases |pairs|
  {
    var n := |pairs|;
    if !HasKey(pairs[1..], k) {
      forall j | 1 <= j < n
        ensures pairs[j].0 != k
      {
        assert pairs[1..][j - 1] == pairs[j];
      }
      if n > 1 {
        assert pairs[1..][n - 2] == pairs[n - 1];
      }
      LastValueOnly(pairs, k);
    } else if pairs[n - 1].0 != k {
      var init := pairs[..n - 1];
      var j :| 0 <= j < |pairs[1..]| && pairs[1..][j].0 == k;
      assert pairs[1..][j] == pairs[j + 1];
      assert j + 1 < n - 1;
      assert init[j + 1].0 == k;
      assert init[1..] == pairs[1..][..n - 2];
      assert HasKey(init[1..], k) by {
        assert init[1..][j] == pairs[j + 1];
      }
      LastValueCons(init, k);
      assert pairs[1..][|pairs[1..]| - 1] == pairs[n - 1];
      assert pairs[1..][..|pairs[1..]| - 1] == init[1..];
    } else {
      assert pairs[1..][|pairs[1..]| - 1] == pairs[n - 1];
    }
  }

  /** When only the first pair has the key, its value is the last one. */
  lemma {:induction false} LastValueOnly<K, V>(pairs: seq<(K, V)>, k: K)
    requires |pairs| > 0 && pairs[0].0 == k && !HasKey(pairs[1..], k)
    ensures HasKey(pairs, k) && LastValue(pairs, k) == pairs[0].1
    decreases |pairs|
  {
    assert pairs[0].0 == k;
    var n := |pairs|;
    if n > 1 {
      assert pairs[1..][n - 2] == pairs[n - 1];
      var init := pairs[..n - 1];
      assert init[0] == pairs[0];
      assert !HasKey(init[1..], k);
      LastValueOnly(init, k);
    }
  }
}
