/** The `MultiValueDict` of the newest generation (`QueryString` and `Form`
    are its subclasses): a dict of lists whose plain reads give the FIRST
    value, built by appending the given pairs in order. */
module VisapiDatastructure {
  import opened Wrappers

  /** The KeyError `append_value(error=True)` and `d[key]` re-raise. */
  datatype KeyError = KeyError

  /** Every list stored through this class's own operations holds at least
      one value. */
  predicate NonEmptyLists<K, V>(data: map<K, seq<V>>) {
    forall k :: k in data ==> data[k] != []
  }

  /** One `append_value(key, value, error=False)`. */
  function AppendOne<K(==), V>(data: map<K, seq<V>>, key: K, value: V): map<K, seq<V>> {
    data[key := if key in data then data[key] + [value] else [value]]
  }

  /** The lists after appending `pairs` in order to `data`. */
  function Appended<K(==), V>(data: map<K, seq<V>>, pairs: seq<(K, V)>): (r: map<K, seq<V>>)
    ensures NonEmptyLists(data) ==> NonEmptyLists(r)
    decreases |pairs|
  {
    if pairs == [] then data
    else
      var (k, v) := pairs[|pairs| - 1];
      AppendOne(Appended(data, pairs[..|pairs| - 1]), k, v)
  }

  /** The values given for one key, in order. */
  function ValuesFor<K(==), V>(pairs: seq<(K, V)>, key: K): seq<V>
    decreases |pairs|
  {
    if pairs == [] then []
    else
      var (k, v) := pairs[|pairs| - 1];
      ValuesFor(pairs[..|pairs| - 1], key) + (if k == key then [v] else [])
  }

  /** Repeated keys accumulate in order: each key's list is its old list
      followed by every value given for it. */
  lemma {:induction false} AppendedValues<K, V>(data: map<K, seq<V>>, pairs: seq<(K, V)>, key: K)
    ensures key in Appended(data, pairs) <==> key in data || ValuesFor(pairs, key) != []
    ensures key in Appended(data, pairs) ==>
              Appended(data, pairs)[key] == (if key in data then data[key] else []) + ValuesFor(pairs, key)
    decreases |pairs|
  {
    if pairs != [] {
      var front := pairs[..|pairs| - 1];
      AppendedValues(data, front, key);
    }
  }

  /** The dict. */
  class MultiValueDict<K(==), V> {
    var data: map<K, seq<V>>

    predicate Valid()
      reads this
    {
      NonEmptyLists(data)
    }

    /** `MultiValueDict(pairs, **kwargs)`: the positional pairs are appended
        in order, then the keyword arguments. */
    constructor(pairs: seq<(K, V)>, kwargs: seq<(K, V)>)
      ensures Valid()
      ensures data == Appended(map[], pairs + kwargs)
    {
      data := map[];
      new;
      var all := pairs + kwargs;
      var i := 0;
      while i < |all|
        invariant i <= |all|
        invariant data == Appended(map[], all[..i])
        invariant NonEmptyLists(data)
      {
        assert all[..i + 1][..i] == all[..i];
        var _ := AppendValue(all[i].0, all[i].1, false);
        i := i + 1;
      }
      assert all[..|all|] == all;
    }

    /** `get(key, default)`: the first value; None stands for the default. */
    function Get(key: K): (r: Option<V>)
      requires Valid()
      reads this
      ensures r.Some? <==> key in data
      ensures r.Some? ==> r.value == data[key][0]
    {
      if key in data then Some(data[key][0]) else None
    }

    /** `d[key]`: the first value, or KeyError. */
    function GetItem(key: K): (r: Result<V, KeyError>)
      requires Valid()
      reads this
      ensures r.Ok? <==> key in data
      ensures r.Ok? ==> r.value == data[key][0]
    {
      if key in data then Ok(data[key][0]) else Err(KeyError)
    }

    /** `get_list(key)`: the stored list, or [] when absent. */
    function GetList(key: K): (r: seq<V>)
      reads this
      ensures key in data ==> r == data[key]
      ensures key !in data ==> r == []
    {
      if key in data then data[key] else []
    }

    /** `append_value(key, value, error)`: appended to an existing list; a
        missing key re-raises with `error`, and otherwise gets `[value]`. */
    method AppendValue(key: K, value: V, error: bool) returns (err: Option<KeyError>)
      modifies this
      ensures NonEmptyLists(old(data)) ==> NonEmptyLists(data)
      ensures key in old(data) ==> err.None? && data == old(data)[key := old(data)[key] + [value]]
      ensures key !in old(data) && error ==> err == Some(KeyError) && data == old(data)
      ensures key !in old(data) && !error ==> err.None? && data == old(data)[key := [value]]
      ensures err.None? ==> data == AppendOne(old(data), key, value)
    {
      if key in data {
        data := data[key := data[key] + [value]];
      } else if error {
        return Some(KeyError);
      } else {
        data := data[key := [value]];
      }
      return None;
    }

    /** `d[key] = value`. */
    method SetItem(key: K, value: V)
      modifies this
      ensures data == old(data)[key := [value]]
      ensures NonEmptyLists(old(data)) ==> NonEmptyLists(data)
    {
      data := data[key := [value]];
    }
  }

  /** The first value read back is the first one given for that key, even
      after later values were appended. */
  lemma FirstValueWins<K, V>(pairs: seq<(K, V)>, key: K, j: nat)
    requires j < |pairs| && pairs[j].0 == key
    requires forall k :: 0 <= k < j ==> pairs[k].0 != key
    ensures key in Appended(map[], pairs) && Appended(map[], pairs)[key][0] == pairs[j].1
  {
    AppendedValues(map[], pairs, key);
    ValuesForFirst(pairs, key, j);
  }

  lemma {:induction false} ValuesForFirst<K, V>(pairs: seq<(K, V)>, key: K, j: nat)
    requires j < |pairs| && pairs[j].0 == key
    requires forall k :: 0 <= k < j ==> pairs[k].0 != key
    ensures ValuesFor(pairs, key) != [] && ValuesFor(pairs, key)[0] == pairs[j].1
    decreases |pairs|
  {
    var front := pairs[..|pairs| - 1];
    if j < |pairs| - 1 {
      ValuesForFirst(front, key, j);
    } else {
      ValuesForNone(front, key);
    }
  }

  lemma {:induction false} ValuesForNone<K, V>(pairs: seq<(K, V)>, key: K)
    requires forall k :: 0 <= k < |pairs| ==> pairs[k].0 != key
    ensures ValuesFor(pairs, key) == []
    decreases |pairs|
  {
    if pairs != [] {
      ValuesForNone(pairs[..|pairs| - 1], key);
    }
  }
}
