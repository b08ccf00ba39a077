/** The HTTP method names a class view may define, shared by both class-view
    generations: the eight names in their fixed order, the filter that keeps
    the defined ones, and the case facts dispatch relies on. */
module ViewMethods {
  import opened Text

  /** The names `get_view_methods` looks for, in its order. */
  const HttpMethods: seq<string> := ["get", "post", "put", "patch", "delete", "head", "options", "trace"]

  /** The names among `names` that are attributes, in the order of `names`. */
  function Defined(names: seq<string>, attrs: set<string>): (r: seq<string>)
    ensures forall x :: x in r <==> x in names && x in attrs
    ensures |r| <= |names|
  {
    if names == [] then []
    else
      assert names == [names[0]] + names[1..];
      (if names[0] in attrs then [names[0]] else []) + Defined(names[1..], attrs)
  }

  /** The filter keeps the order: on a concatenation it is the concatenation
      of the filtered parts. */
  lemma {:induction false} DefinedConcat(xs: seq<string>, ys: seq<string>, attrs: set<string>)
    ensures Defined(xs + ys, attrs) == Defined(xs, attrs) + Defined(ys, attrs)
  {
    if xs != [] {
      assert (xs + ys)[1..] == xs[1..] + ys;
      assert (xs + ys)[0] == xs[0];
      DefinedConcat(xs[1..], ys, attrs);
    } else {
      assert xs + ys == ys;
    }
  }

  lemma HttpMethodsDistinct()
    ensures Distinct(HttpMethods)
  {
    forall i, j | 0 <= i < j < |HttpMethods| ensures HttpMethods[i] != HttpMethods[j] {
      assert |HttpMethods[i]| != |HttpMethods[j]| || HttpMethods[i][0] != HttpMethods[j][0];
    }
  }

  lemma GetPostFirst(attrs: set<string>)
    requires "get" in attrs && "post" in attrs
    ensures Defined(HttpMethods, attrs)[..2] == ["get", "post"]
  {
    DefinedConcat(["get", "post"], HttpMethods[2..], attrs);
    assert HttpMethods == ["get", "post"] + HttpMethods[2..];
    assert Defined(["get", "post"], attrs) == ["get", "post"] by {
      assert ["get", "post"][1..] == ["post"];
      assert ["post"][1..] == [];
    }
  }

  /** When every name is an attribute, the filter keeps them all. */
  lemma {:induction false} DefinedAll(names: seq<string>, attrs: set<string>)
    requires forall x :: x in names ==> x in attrs
    ensures Defined(names, attrs) == names
  {
    if names != [] {
      assert names[0] in names;
      assert forall x :: x in names[1..] ==> x in names;
      DefinedAll(names[1..], attrs);
      assert names == [names[0]] + names[1..];
    }
  }

  lemma {:induction false} DefinedDistinct(names: seq<string>, attrs: set<string>)
    requires Distinct(names)
    ensures Distinct(Defined(names, attrs))
  {
    if names != [] {
      assert names == [names[0]] + names[1..];
      DistinctSuffix([names[0]], names[1..]);
      DistinctHead(names[0], names[1..]);
      DefinedDistinct(names[1..], attrs);
      var rest := Defined(names[1..], attrs);
      if names[0] in attrs {
        assert names[0] !in rest;
        forall i, j | 0 <= i < j < |[names[0]] + rest| ensures ([names[0]] + rest)[i] != ([names[0]] + rest)[j] {
          if i == 0 {
            assert ([names[0]] + rest)[j] == rest[j - 1];
          } else {
            assert ([names[0]] + rest)[i] == rest[i - 1] && ([names[0]] + rest)[j] == rest[j - 1];
          }
        }
      } else {
        assert [] + rest == rest;
      }
    }
  }

  /** A word of lower-case ASCII letters. */
  predicate IsLowerWord(m: string) {
    forall i :: 0 <= i < |m| ==> 'a' <= m[i] <= 'z'
  }

  /** Upper-casing and then lower-casing gives a lower-case word back; the
      eight names are such words. */
  lemma LowerUpper(m: string)
    requires IsLowerWord(m) || m in HttpMethods
    ensures Lower(Upper(m)) == m
  {
    if m in HttpMethods {
      HttpMethodsLower(m);
    }
    LowerUpperWord(m);
  }

  lemma {:induction false} LowerUpperWord(m: string)
    requires IsLowerWord(m)
    ensures Lower(Upper(m)) == m
  {
    if m != [] {
      assert forall i :: 0 <= i < |m[1..]| ==> m[1..][i] == m[i + 1];
      LowerUpperWord(m[1..]);
      assert Upper(m)[1..] == Upper(m[1..]);
    }
  }

  /** The eight names are lower-case words. */
  lemma HttpMethodsLower(m: string)
    requires m in HttpMethods
    ensures IsLowerWord(m)
  {
  }
}
