/** The containers of the middle generation: `MultiValueDict` (a dict of
    lists whose plain reads give the last value; `Form` and `QueryString`
    are its subclasses), the ordered, case-insensitive `Headers` list, and
    `Session`, a dict that records whether it was changed. */
module VankDatastructures {
  import opened Wrappers
  import opened Text
  import opened Bytes

  /** The exceptions these containers raise. */
  datatype DictError = KeyError | AttributeError | IndexError

  // ---- MultiValueDict -------------------------------------------------------

  /** What `d[key]` gives: the last value, or, for a key whose list is empty,
      the empty list itself (the IndexError is caught). */
  datatype Item<V> = Last(value: V) | EmptyList

  /** `append_value(key, value, error)` as written: `self[key]` is the
      overridden `__getitem__`, so `append` is called on the key's last
      value rather than on its list. A stored value is a text or a file,
      which has no `append`, so this raises AttributeError; only for an empty
      list, which `__getitem__` hands back itself, does the append work. The
      new contents, or what was raised. */
  function AppendAsWritten<K, V>(data: map<K, seq<V>>, key: K, value: V, error: bool): Result<map<K, seq<V>>, DictError> {
    if key !in data then (if error then Err(KeyError) else Ok(data[key := [value]]))
    else if data[key] == [] then Ok(data[key := [value]])
    else Err(AttributeError)
  }

  /** `append_value` as its name and its callers mean it: the value is
      appended to the key's list, and a missing key raises KeyError or starts
      a new list. */
  function Append<K, V>(data: map<K, seq<V>>, key: K, value: V, error: bool): (r: Result<map<K, seq<V>>, DictError>)
    ensures r.Err? <==> key !in data && error
    ensures r.Err? ==> r.error == KeyError
    ensures r.Ok? ==> r.value.Keys == data.Keys + {key} &&
                      r.value[key] == (if key in data then data[key] else []) + [value] &&
                      forall k :: k in data && k != key ==> r.value[k] == data[k]
  {
    if key !in data then (if error then Err(KeyError) else Ok(data[key := [value]]))
    else Ok(data[key := data[key] + [value]])
  }

  /** A second value for a key makes `append_value` raise as written, while
      the intended append keeps both values in order. */
  lemma AppendSecondValueFails(key: string, first: string, second: string)
    ensures AppendAsWritten(map[key := [first]], key, second, false) == Err(AttributeError)
    ensures Append(map[key := [first]], key, second, false) == Ok(map[key := [first, second]])
  {
    var m := map[key := [first]];
    assert m[key] + [second] == [first, second];
    assert m[key := [first, second]] == map[key := [first, second]];
  }

  /** The two agree on every key whose list is missing or empty, the only
      case in which the written version works. */
  lemma AppendAgreesOnFirstValue<K, V>(data: map<K, seq<V>>, key: K, value: V, error: bool)
    requires key !in data || data[key] == []
    ensures AppendAsWritten(data, key, value, error) == Append(data, key, value, error)
  {
    if key in data {
      assert data[key] + [value] == [value];
    }
  }

  /** Appending the values of `pairs` one by one, as a parser does. */
  function AppendAll<K, V>(data: map<K, seq<V>>, pairs: seq<(K, V)>): map<K, seq<V>>
    decreases |pairs|
  {
    if pairs == [] then data
    else AppendAll(Append(data, pairs[0].0, pairs[0].1, false).value, pairs[1..])
  }

  /** The values appended under one key, in order. */
  function ValuesOf<K(==), V>(pairs: seq<(K, V)>, key: K): seq<V>
    decreases |pairs|
  {
    if pairs == [] then []
    else (if pairs[0].0 == key then [pairs[0].1] else []) + ValuesOf(pairs[1..], key)
  }

  /** Repeated keys accumulate: each key's list is what it had, followed by
      every value appended under it, in order. */
  lemma {:induction false} AppendAllSpec<K, V>(data: map<K, seq<V>>, pairs: seq<(K, V)>, key: K)
    ensures (key in AppendAll(data, pairs)) <==> key in data || ValuesOf(pairs, key) != []
    ensures key in AppendAll(data, pairs) ==>
              AppendAll(data, pairs)[key] == (if key in data then data[key] else []) + ValuesOf(pairs, key)
    decreases |pairs|
  {
    if pairs != [] {
      var next := Append(data, pairs[0].0, pairs[0].1, false).value;
      AppendAllSpec(next, pairs[1..], key);
      if pairs[0].0 == key {
        assert next[key] == (if key in data then data[key] else []) + [pairs[0].1];
      }
    }
  }

  /** Appending one more pair at the end is one more `append_value`. */
  lemma {:induction false} AppendAllSnoc<K, V>(data: map<K, seq<V>>, pairs: seq<(K, V)>, key: K, value: V)
    ensures AppendAll(data, pairs + [(key, value)]) == Append(AppendAll(data, pairs), key, value, false).value
    decreases |pairs|
  {
    if pairs != [] {
      assert (pairs + [(key, value)])[1..] == pairs[1..] + [(key, value)];
      AppendAllSnoc(Append(data, pairs[0].0, pairs[0].1, false).value, pairs[1..], key, value);
    }
  }

  class MultiValueDict<K(==), V> {
    var data: map<K, seq<V>>

    constructor()
      ensures data == map[]
    {
      data := map[];
    }

    /** `get(key, default)`: the last value, or the default for a missing
        key or an empty list. */
    function Get(key: K, default: V): (v: V)
      reads this
      ensures key in data && data[key] != [] ==> v == data[key][|data[key]| - 1]
      ensures key !in data || data[key] == [] ==> v == default
    {
      if key in data && data[key] != [] then data[key][|data[key]| - 1] else default
    }

    /** `d[key]`: KeyError for a missing key. */
    function GetItem(key: K): (r: Result<Item<V>, DictError>)
      reads this
      ensures r.Err? <==> key !in data
      ensures r.Err? ==> r.error == KeyError
      ensures r.Ok? && data[key] != [] ==> r.value == Last(data[key][|data[key]| - 1])
      ensures r.Ok? && data[key] == [] ==> r.value == EmptyList
    {
      if key !in data then Err(KeyError)
      else if data[key] == [] then Ok(EmptyList)
      else Ok(Last(data[key][|data[key]| - 1]))
    }

    /** `get_all(key, default, t_class)`: the key's whole list passed to
        `t_class` (by default `list`, which copies it), or the default for a
        missing key. */
    function GetAll<T>(key: K, default: T, tClass: seq<V> -> T): (r: T)
      reads this
      ensures key in data ==> r == tClass(data[key])
      ensures key !in data ==> r == default
    {
      if key in data then tClass(data[key]) else default
    }

    /** `d[key] = value`: the key's list becomes the single value. */
    method SetItem(key: K, value: V)
      modifies this
      ensures data == old(data)[key := [value]]
    {
      data := data[key := [value]];
    }

    /** `setlist(key, values)`. */
    method SetList(key: K, values: seq<V>)
      modifies this
      ensures data == old(data)[key := values]
    {
      data := data[key := values];
    }

    /** `append_value(key, value, error)`, as intended; see `AppendAsWritten`
        for the code as written. */
    method AppendValue(key: K, value: V, error: bool) returns (err: Option<DictError>)
      modifies this
      ensures Append(old(data), key, value, error).Ok? ==> err.None? && data == Append(old(data), key, value, error).value
      ensures Append(old(data), key, value, error).Err? ==> err == Some(KeyError) && data == old(data)
    {
      if key in data {
        data := data[key := data[key] + [value]];
      } else if error {
        return Some(KeyError);
      } else {
        data := data[key := [value]];
      }
      return None;
    }

    /** `copy()` / `__copy__`: a new dict holding copies of the lists, so
        changing either afterwards leaves the other as it was. */
    method Copy() returns (c: MultiValueDict<K, V>)
      ensures fresh(c) && c.data == data
    {
      c := new MultiValueDict();
      c.data := data;
    }
  }

  /** A value of a `Form`: a decoded text field or an upload file, which is
      known by its identity and holds its name, its content type and the
      bytes written to it (rewound to the start). */
  datatype FormValue = TextField(text: string) | UploadFile(file: nat, filename: string, contentType: string, content: Bytes)

  /** `Form.close()`: it goes through `values()`, which yields `self[key]`,
      so exactly the files that are the last value of their key are closed. */
  function ClosedByClose(data: map<string, seq<FormValue>>): (closed: set<nat>)
    ensures forall f :: f in closed <==>
              exists k :: k in data && data[k] != [] && data[k][|data[k]| - 1].UploadFile? && data[k][|data[k]| - 1].file == f
  {
    set k | k in data && data[k] != [] && data[k][|data[k]| - 1].UploadFile? :: data[k][|data[k]| - 1].file
  }

  // ---- Headers --------------------------------------------------------------

  /** Whether a stored header name is the requested one: names compare in
      lower case. */
  predicate SameName(stored: string, key: string) {
    Lower(stored) == Lower(key)
  }

  /** The value of the first header named `key`, if any. */
  function FirstMatch(list: seq<(string, string)>, key: string): (r: Option<string>)
    ensures r.None? <==> forall j :: 0 <= j < |list| ==> !SameName(list[j].0, key)
    ensures r.Some? ==> exists j :: 0 <= j < |list| && SameName(list[j].0, key) && list[j].1 == r.value &&
                                    forall k :: 0 <= k < j ==> !SameName(list[k].0, key)
    decreases |list|
  {
    if list == [] then None
    else if SameName(list[0].0, key) then Some(list[0].1)
    else
      var r := FirstMatch(list[1..], key);
      assert forall j :: 1 <= j < |list| ==> list[j] == list[1..][j - 1];
      if r.Some? then
        var j :| 0 <= j < |list[1..]| && SameName(list[1..][j].0, key) && list[1..][j].1 == r.value &&
                 forall k :: 0 <= k < j ==> !SameName(list[1..][k].0, key);
        assert list[j + 1] == list[1..][j];
        assert forall k :: 0 <= k < j + 1 ==> !SameName(list[k].0, key) by {
          forall k | 0 <= k < j + 1 ensures !SameName(list[k].0, key) {
            if k > 0 { assert list[k] == list[1..][k - 1]; }
          }
        }
        r
      else r
  }

  /** `key in headers`: `any` over the matching names, so a match counts
      only when the name is not empty. */
  predicate Present(list: seq<(string, string)>, key: string) {
    exists j :: 0 <= j < |list| && SameName(list[j].0, key) && list[j].0 != ""
  }

  /** The loop of `update`: every header named `key` becomes (key, value). */
  function Rewritten(list: seq<(string, string)>, key: string, value: string): (r: seq<(string, string)>)
    ensures |r| == |list|
    ensures forall j :: 0 <= j < |list| ==> r[j] == if SameName(list[j].0, key) then (key, value) else list[j]
  {
    seq(|list|, j requires 0 <= j < |list| => if SameName(list[j].0, key) then (key, value) else list[j])
  }

  /** `update(key, value)`: the loop rewrites the matches, and its `else`
      branch, reached since the loop never breaks, calls `setdefault`, which
      appends when `key in headers` is false afterwards. */
  function Updated(list: seq<(string, string)>, key: string, value: string): seq<(string, string)> {
    var r := Rewritten(list, key, value);
    if Present(r, key) then r else r + [(key, value)]
  }

  /** `update` replaces every match in place and keeps the other headers;
      it appends exactly when nothing matched (or when the name is empty,
      which `in` never finds). */
  lemma UpdatedSpec(list: seq<(string, string)>, key: string, value: string)
    ensures var r := Updated(list, key, value);
            r[..|list|] == Rewritten(list, key, value) &&
            (|r| == |list| + 1 <==> key == "" || forall j :: 0 <= j < |list| ==> !SameName(list[j].0, key)) &&
            (|r| == |list| + 1 ==> r[|list|] == (key, value)) &&
            (|r| == |list| + 1 || |r| == |list|)
  {
    var w := Rewritten(list, key, value);
    if key != "" && exists j :: 0 <= j < |list| && SameName(list[j].0, key) {
      var j :| 0 <= j < |list| && SameName(list[j].0, key);
      assert w[j] == (key, value);
      assert Present(w, key);
    } else if key == "" {
      assert !Present(w, key) by {
        forall j | 0 <= j < |w| && SameName(w[j].0, key) ensures w[j].0 == "" {
          assert |Lower(w[j].0)| == |Lower(key)|;
        }
      }
    } else {
      assert forall j :: 0 <= j < |w| ==> w[j] == list[j];
    }
    assert w + [(key, value)] == w + [(key, value)];
  }

  /** `remove(key)` as written: it walks the indices of a copy of the list
      and pops each matching index from the list itself, which has shrunk by
      the earlier pops. From index `i` on, with `copy` the original list:
      the list the loop leaves, with the IndexError of a pop past its end.
      The pops done before that error stay done. */
  function RemoveFrom(list: seq<(string, string)>, copy: seq<(string, string)>, key: string, i: nat)
    : (seq<(string, string)>, Option<DictError>)
    requires i <= |copy|
    decreases |copy| - i
  {
    if i == |copy| then (list, None)
    else if !SameName(copy[i].0, key) then RemoveFrom(list, copy, key, i + 1)
    else if i >= |list| then (list, Some(IndexError))
    else RemoveFrom(list[..i] + list[i + 1..], copy, key, i + 1)
  }

  function RemoveAsWritten(list: seq<(string, string)>, key: string): Result<seq<(string, string)>, DictError> {
    var (left, err) := RemoveFrom(list, list, key, 0);
    if err.None? then Ok(left) else Err(err.value)
  }

  /** The removal intended: every header of that name is dropped, the
      others keep their order. */
  function Removed(list: seq<(string, string)>, key: string): (r: seq<(string, string)>)
    ensures forall h :: h in r <==> h in list && !SameName(h.0, key)
    ensures |r| <= |list|
    decreases |list|
  {
    if list == [] then []
    else
      assert forall h :: h in list ==> h == list[0] || h in list[1..];
      (if SameName(list[0].0, key) then [] else [list[0]]) + Removed(list[1..], key)
  }

  /** With two matches the second pop is shifted: it removes the header
      after the second match, and when there is none it raises IndexError. */
  lemma RemoveShiftedPops()
    ensures RemoveAsWritten([("a", "1"), ("a", "2"), ("b", "3")], "a") == Ok([("a", "2")])
    ensures Removed([("a", "1"), ("a", "2"), ("b", "3")], "a") == [("b", "3")]
    ensures RemoveAsWritten([("a", "1"), ("A", "2")], "a") == Err(IndexError)
    ensures RemoveFrom([("a", "1"), ("A", "2")], [("a", "1"), ("A", "2")], "a", 0) == ([("A", "2")], Some(IndexError))
  {
    var l := [("a", "1"), ("a", "2"), ("b", "3")];
    assert Lower("b") == "b" && Lower("a") == "a";
    assert SameName("a", "a") && !SameName("b", "a");
    assert Lower("A") == "a";
    assert l[..0] + l[1..] == [("a", "2"), ("b", "3")];
    var m := [("a", "2"), ("b", "3")];
    assert m[..1] + m[2..] == [("a", "2")];
    assert l[1..] == [("a", "2"), ("b", "3")];
    assert l[1..][1..] == [("b", "3")];
    var n := [("a", "1"), ("A", "2")];
    assert n[..0] + n[1..] == [("A", "2")];
  }

  /** With a single match the written removal is the intended one. */
  lemma {:induction false} RemoveSingleMatch(list: seq<(string, string)>, key: string, j: nat)
    requires j < |list| && SameName(list[j].0, key)
    requires forall k :: 0 <= k < |list| && k != j ==> !SameName(list[k].0, key)
    ensures RemoveAsWritten(list, key) == Ok(list[..j] + list[j + 1..])
    ensures Removed(list, key) == list[..j] + list[j + 1..]
  {
    NoMatchFrom(list, list, key, 0, j);
    var l2 := list[..j] + list[j + 1..];
    NoMatchAfter(l2, list, key, j + 1);
    RemovedSingle(list, key, j);
  }

  lemma {:induction false} NoMatchFrom(list: seq<(string, string)>, copy: seq<(string, string)>, key: string, i: nat, j: nat)
    requires i <= j < |copy| && j < |list|
    requires forall k :: i <= k < j ==> !SameName(copy[k].0, key)
    requires SameName(copy[j].0, key)
    ensures RemoveFrom(list, copy, key, i) == RemoveFrom(list[..j] + list[j + 1..], copy, key, j + 1)
    decreases j - i
  {
    if i < j {
      NoMatchFrom(list, copy, key, i + 1, j);
    }
  }

  lemma {:induction false} NoMatchAfter(list: seq<(string, string)>, copy: seq<(string, string)>, key: string, i: nat)
    requires i <= |copy|
    requires forall k :: i <= k < |copy| ==> !SameName(copy[k].0, key)
    ensures RemoveFrom(list, copy, key, i) == (list, None)
    decreases |copy| - i
  {
    if i < |copy| {
      NoMatchAfter(list, copy, key, i + 1);
    }
  }

  lemma {:induction false} RemovedSingle(list: seq<(string, string)>, key: string, j: nat)
    requires j < |list| && SameName(list[j].0, key)
    requires forall k :: 0 <= k < |list| && k != j ==> !SameName(list[k].0, key)
    ensures Removed(list, key) == list[..j] + list[j + 1..]
    decreases |list|
  {
    if j == 0 {
      NoneRemoved(list[1..], key);
      assert list[..0] + list[1..] == list[1..];
    } else {
      var tail := list[1..];
      forall k | 0 <= k < |tail| && k != j - 1 ensures !SameName(tail[k].0, key) {
        assert tail[k] == list[k + 1];
      }
      RemovedSingle(tail, key, j - 1);
      DropAtCons(list, j);
    }
  }

  /** Dropping position `j > 0` keeps the head in front. */
  lemma DropAtCons<T>(list: seq<T>, j: nat)
    requires 0 < j < |list|
    ensures list[..j] + list[j + 1..] == [list[0]] + (list[1..][..j - 1] + list[1..][j..])
  {
    assert list[..j] == [list[0]] + list[1..][..j - 1];
    assert list[j + 1..] == list[1..][j..];
  }

  lemma {:induction false} NoneRemoved(list: seq<(string, string)>, key: string)
    requires forall k :: 0 <= k < |list| ==> !SameName(list[k].0, key)
    ensures Removed(list, key) == list
    decreases |list|
  {
    if list != [] {
      assert forall k :: 0 <= k < |list[1..]| ==> list[1..][k] == list[k + 1];
      NoneRemoved(list[1..], key);
      assert list == [list[0]] + list[1..];
    }
  }

  /** `Headers`: the (name, value) pairs in insertion order. The latin-1
      encoding of the stored pairs is not part of this model. */
  class Headers {
    var list: seq<(string, string)>

    /** `Headers(raw_headers)`: the pairs in order; none gives an empty
        list. */
    constructor(raw: seq<(string, string)>)
      ensures list == raw
    {
      list := raw;
    }

    /** `headers[key]`: the first header of that name, or KeyError. */
    function GetItem(key: string): (r: Result<string, DictError>)
      reads this
      ensures r.Err? <==> forall j :: 0 <= j < |list| ==> !SameName(list[j].0, key)
      ensures r.Err? ==> r.error == KeyError
      ensures r.Ok? ==> r.value == FirstMatch(list, key).value
    {
      match FirstMatch(list, key)
      case None => Err(KeyError)
      case Some(v) => Ok(v)
    }

    /** `get(key, default)` as a loop with an early return; None stands for
        the default. */
    method Get(key: string) returns (r: Option<string>)
      ensures r == FirstMatch(list, key)
    {
      var i := 0;
      while i < |list|
        invariant i <= |list|
        invariant forall k :: 0 <= k < i ==> !SameName(list[k].0, key)
      {
        if SameName(list[i].0, key) {
          FirstIsFirst(list, key, i);
          return Some(list[i].1);
        }
        i := i + 1;
      }
      return None;
    }

    /** `key in headers` (`__contains__`): for a non-empty name, exactly
        when `get` finds a header. */
    function Contains(key: string): (b: bool)
      reads this
      ensures b <==> Present(list, key)
      ensures key != "" ==> (b <==> FirstMatch(list, key).Some?)
    {
      PresentMatch(list, key);
      exists j :: 0 <= j < |list| && SameName(list[j].0, key) && list[j].0 != ""
    }

    /** `add(key, value)`: always appends. */
    method Add(key: string, value: string)
      modifies this
      ensures list == old(list) + [(key, value)]
    {
      list := list + [(key, value)];
    }

    /** `setdefault(key, value)`: appends only when `key in headers` is
        false. */
    method SetDefault(key: string, value: string)
      modifies this
      ensures Present(old(list), key) ==> list == old(list)
      ensures !Present(old(list), key) ==> list == old(list) + [(key, value)]
    {
      var found := false;
      var i := 0;
      while i < |list|
        invariant i <= |list|
        invariant found <==> exists k :: 0 <= k < i && SameName(list[k].0, key) && list[k].0 != ""
      {
        if SameName(list[i].0, key) && list[i].0 != "" {
          found := true;
        }
        i := i + 1;
      }
      if !found {
        list := list + [(key, value)];
      }
    }

    /** `update(key, value)`. */
    method Update(key: string, value: string)
      modifies this
      ensures list == Updated(old(list), key, value)
    {
      var i := 0;
      while i < |list|
        invariant i <= |list| == |old(list)|
        invariant list[..i] == Rewritten(old(list)[..i], key, value)
        invariant list[i..] == old(list)[i..]
      {
        ghost var before := list;
        if SameName(list[i].0, key) {
          list := list[i := (key, value)];
        }
        assert list[i + 1..] == before[i + 1..];
        assert old(list)[..i + 1][..i] == old(list)[..i];
        i := i + 1;
      }
      assert list == Rewritten(old(list), key, value) by {
        assert list == list[..|list|];
        assert old(list) == old(list)[..|list|];
      }
      SetDefault(key, value);
    }

    /** `remove(key)` as written. */
    method Remove(key: string) returns (err: Option<DictError>)
      modifies this
      ensures RemoveAsWritten(old(list), key).Ok? ==> err.None? && list == RemoveAsWritten(old(list), key).value
      ensures RemoveAsWritten(old(list), key).Err? ==> err == Some(IndexError)
      ensures (list, err) == RemoveFrom(old(list), old(list), key, 0)
    {
      var copy := list;
      var i := 0;
      while i < |copy|
        invariant i <= |copy|
        invariant RemoveFrom(copy, copy, key, 0) == RemoveFrom(list, copy, key, i)
      {
        if SameName(copy[i].0, key) {
          if i >= |list| {
            return Some(IndexError);
          }
          list := list[..i] + list[i + 1..];
        }
        i := i + 1;
      }
      return None;
    }
  }

  lemma FirstIsFirst(list: seq<(string, string)>, key: string, i: nat)
    requires i < |list| && SameName(list[i].0, key)
    requires forall k :: 0 <= k < i ==> !SameName(list[k].0, key)
    ensures FirstMatch(list, key) == Some(list[i].1)
  {
    var r := FirstMatch(list, key);
    var j :| 0 <= j < |list| && SameName(list[j].0, key) && list[j].1 == r.value &&
             forall k :: 0 <= k < j ==> !SameName(list[k].0, key);
    assert j == i;
  }

  /** For a non-empty name, `in` and `get` agree: a header of that name
      is present exactly when `get` finds one. */
  lemma PresentMatch(list: seq<(string, string)>, key: string)
    ensures key != "" ==> (Present(list, key) <==> FirstMatch(list, key).Some?)
  {
    if key != "" && FirstMatch(list, key).Some? {
      var j :| 0 <= j < |list| && SameName(list[j].0, key) && list[j].1 == FirstMatch(list, key).value &&
               forall k :: 0 <= k < j ==> !SameName(list[k].0, key);
      assert |Lower(list[j].0)| == |Lower(key)|;
    }
  }

  /** A header appended at the end is found only when no earlier header has
      its name. */
  lemma {:induction false} FirstMatchSnoc(list: seq<(string, string)>, name: string, value: string, key: string)
    ensures FirstMatch(list + [(name, value)], key) ==
              if FirstMatch(list, key).Some? then FirstMatch(list, key)
              else if SameName(name, key) then Some(value) else None
    decreases |list|
  {
    if list != [] {
      assert (list + [(name, value)])[1..] == list[1..] + [(name, value)];
      FirstMatchSnoc(list[1..], name, value, key);
    }
  }

  // ---- Session --------------------------------------------------------------

  /** `Session`: the stored dict and the `is_changed` flag that the session
      middleware reads. */
  class Session<K(==), V> {
    var session: map<K, V>
    var changed: bool

    constructor(initial: map<K, V>)
      ensures session == initial && !changed
    {
      session := initial;
      changed := false;
    }

    /** `session[key]`: KeyError for a missing key. */
    function GetItem(key: K): (r: Result<V, DictError>)
      reads this
      ensures r.Ok? <==> key in session
      ensures r.Ok? ==> r.value == session[key]
      ensures r.Err? ==> r.error == KeyError
    {
      if key in session then Ok(session[key]) else Err(KeyError)
    }

    /** `get(key, default)`; None stands for the default. */
    function Get(key: K): (r: Option<V>)
      reads this
      ensures r.Some? <==> key in session
      ensures r.Some? ==> r.value == session[key]
    {
      if key in session then Some(session[key]) else None
    }

    /** `bool(session)`. */
    function Truthy(): (b: bool)
      reads this
      ensures b <==> session != map[]
    {
      |session| > 0
    }

    /** `session[key] = value` and `add(key, value)`. */
    method SetItem(key: K, value: V)
      modifies this
      ensures session == old(session)[key := value] && changed
    {
      session := session[key := value];
      changed := true;
    }

    /** `del session[key]` and `delete(key)`: KeyError for a missing key,
        which changes nothing. */
    method DelItem(key: K) returns (err: Option<DictError>)
      modifies this
      ensures key in old(session) ==> err.None? && session == old(session) - {key} && changed
      ensures key !in old(session) ==> err == Some(KeyError) && session == old(session) && changed == old(changed)
    {
      if key !in session {
        return Some(KeyError);
      }
      session := session - {key};
      changed := true;
      return None;
    }

    /** `pop(key, default)`: a present key is removed and its value returned;
        a missing one returns the default (None here) and leaves the flag. */
    method Pop(key: K) returns (r: Option<V>)
      modifies this
      ensures key in old(session) ==> r == Some(old(session)[key]) && session == old(session) - {key} && changed
      ensures key !in old(session) ==> r.None? && session == old(session) && changed == old(changed)
    {
      if key in session {
        r := Some(session[key]);
        session := session - {key};
        changed := true;
      } else {
        r := None;
      }
    }

    /** `setdefault(key, value)`: the stored value if present, which changes
        nothing; otherwise the value is stored and returned. */
    method SetDefault(key: K, value: V) returns (r: V)
      modifies this
      ensures key in old(session) ==> r == old(session)[key] && session == old(session) && changed == old(changed)
      ensures key !in old(session) ==> r == value && session == old(session)[key := value] && changed
    {
      if key in session {
        return session[key];
      }
      session := session[key := value];
      changed := true;
      return value;
    }

    /** `update(other)`: the other dict's entries win; the flag is set even
        when `other` is empty. */
    method Update(other: map<K, V>)
      modifies this
      ensures session == old(session) + other && changed
    {
      session := session + other;
      changed := true;
    }

    /** `clear()`. */
    method Clear()
      modifies this
      ensures session == map[] && changed
    {
      session := map[];
      changed := true;
    }
  }
}
