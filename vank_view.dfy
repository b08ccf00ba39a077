/** Class views of the middle generation. A `View` subclass answers with its
    method named like the request's HTTP method in lower case; constructing
    a view class hands out a single instance, kept in the class attribute
    `_View__singleton`. */
module VankView {
  import opened Wrappers
  import opened Text
  import opened Callables
  import opened VankCore
  import opened ViewMethods

  /** A `View` subclass: its `__name__` and the handler methods among its
      attributes, by name. */
  datatype ViewClass = ViewClass(name: string, attrs: map<string, Callable>)

  /** `get_view_methods`: the HTTP method names the view defines, in the
      fixed order, or NoneViewMethodException when there is none. */
  function GetViewMethods(cls: ViewClass): (r: Result<seq<string>, Exc>)
    ensures r.Err? <==> forall m :: m in HttpMethods ==> m !in cls.attrs
    ensures r.Err? ==> r.error == Raise(NoneViewMethodKind)
    ensures r.Ok? ==> (forall m :: m in r.value <==> m in HttpMethods && m in cls.attrs) && Distinct(r.value)
  {
    var ms := Defined(HttpMethods, cls.attrs.Keys);
    if ms == [] then Err(Raise(NoneViewMethodKind))
    else
      assert ms[0] in ms;
      HttpMethodsDistinct();
      DefinedDistinct(HttpMethods, cls.attrs.Keys);
      Ok(ms)
  }

  /** The names keep the fixed order: a view with `get` and `post` lists
      them first, in that order. */
  lemma GetViewMethodsOrder(cls: ViewClass)
    requires "get" in cls.attrs && "post" in cls.attrs
    ensures GetViewMethods(cls).Ok? && GetViewMethods(cls).value[..2] == ["get", "post"]
  {
    GetPostFirst(cls.attrs.Keys);
  }

  /** `get_response(*args, **kwargs)` for a request whose method is `verb`:
      the attribute named by the method in lower case, called with the same
      arguments; AttributeError when there is none. */
  function GetResponse(cls: ViewClass, verb: string, c: Call): Outcome {
    var name := Lower(verb);
    if name in cls.attrs then cls.attrs[name](c) else Err(Raise(AttributeErrorKind))
  }

  /** `__call__` delegates to `get_response` with the same arguments. */
  function CallView(cls: ViewClass, verb: string, c: Call): Outcome {
    GetResponse(cls, verb, c)
  }

  /** A request whose method is one the view lists, spelled in upper case as
      `request.method` gives it, reaches that method with the call's own
      arguments; a method the view does not define is an AttributeError. */
  lemma CallViewDispatch(cls: ViewClass, m: string, c: Call)
    requires GetViewMethods(cls).Ok? && m in GetViewMethods(cls).value
    ensures CallView(cls, Upper(m), c) == cls.attrs[m](c)
  {
    LowerUpper(m);
  }

  lemma CallViewUndefined(cls: ViewClass, verb: string, c: Call)
    requires Lower(verb) !in cls.attrs
    ensures CallView(cls, verb, c).Err? && AttributeErrorKind in CallView(cls, verb, c).error.kinds
  {
  }

  /** The view instance as the router registers it: the instance's identity,
      `__name__` (the class name), and `__call__(*args, **kwargs)`. */
  function InstanceCallback(cls: ViewClass, instance: nat): (f: Callback)
    ensures f.id == instance && f.name == cls.name
    ensures f.varPositional && f.varKeyword && !f.isCoroutine
  {
    Callback(instance, cls.name, ["args", "kwargs"], true, true, false)
  }

  // ---- the singleton slot ---------------------------------------------------

  /** The class whose own `__dict__` holds the attribute first along `mro`
      (the class, its bases, ..., `View`), and the instance stored there;
      None when no class on the way has set it (only `View`'s initial None is
      found). */
  function FirstSet(slots: map<string, nat>, mro: seq<string>): (r: Option<nat>)
    ensures r.Some? <==> exists j :: 0 <= j < |mro| && mro[j] in slots
    ensures r.Some? ==> exists j :: 0 <= j < |mro| && mro[j] in slots && r.value == slots[mro[j]] &&
                                    forall k :: 0 <= k < j ==> mro[k] !in slots
  {
    if mro == [] then None
    else if mro[0] in slots then Some(slots[mro[0]])
    else
      var r := FirstSet(slots, mro[1..]);
      assert forall j :: 1 <= j < |mro| ==> mro[j] == mro[1..][j - 1];
      if r.Some? then
        var j :| 0 <= j < |mro[1..]| && mro[1..][j] in slots && r.value == slots[mro[1..][j]] &&
                 forall k :: 0 <= k < j ==> mro[1..][k] !in slots;
        assert forall k :: 0 <= k < j + 1 ==> mro[k] !in slots by {
          forall k | 0 <= k < j + 1 ensures mro[k] !in slots {
            if k > 0 { assert mro[k] == mro[1..][k - 1]; }
          }
        }
        r
      else r
  }

  /** `View.__new__(cls)` as written: `cls.__singleton` is looked up along
      the class's MRO, so the instance of any base that was constructed
      before is returned; only when none is found is a new instance (the
      next identity, `created`) stored in the class's own attribute. The
      result is the instance, the slots and the count of instances. */
  function NewAsWritten(slots: map<string, nat>, created: nat, cls: string, mro: seq<string>): (nat, map<string, nat>, nat) {
    match FirstSet(slots, mro)
    case Some(i) => (i, slots, created)
    case None => (created, slots[cls := created], created + 1)
  }

  /** The intended per-class singleton: each class's own slot only. */
  function NewOwnSlot(slots: map<string, nat>, created: nat, cls: string): (nat, map<string, nat>, nat) {
    if cls in slots then (slots[cls], slots, created)
    else (created, slots[cls := created], created + 1)
  }

  /** As written, constructing a subclass after its base returns the base's
      instance: with `A` constructed, `B(A)` gets `A`'s object, not one of its
      own, while the per-class slot gives `B` a new one. */
  lemma SubclassGetsBaseInstance()
    ensures var slots := map["A" := 0];
            NewAsWritten(slots, 1, "B", ["B", "A", "View"]).0 == 0 &&
            NewOwnSlot(slots, 1, "B").0 == 1
  {
    var slots := map["A" := 0];
    assert ["B", "A", "View"][1..] == ["A", "View"];
  }

  /** What every registry of slots keeps: each stored instance is one already
      made, and no two classes share one. */
  predicate SlotsValid(slots: map<string, nat>, created: nat) {
    (forall c :: c in slots ==> slots[c] < created) &&
    (forall c, d :: c in slots && d in slots && c != d ==> slots[c] != slots[d])
  }

  /** With the per-class slot, constructing the same class twice gives the
      identical instance, and classes never share one. */
  lemma OwnSlotSingleton(slots: map<string, nat>, created: nat, cls: string, other: string)
    requires SlotsValid(slots, created)
    ensures var (i, s1, n1) := NewOwnSlot(slots, created, cls);
            SlotsValid(s1, n1) && cls in s1 && s1[cls] == i &&
            NewOwnSlot(s1, n1, cls) == (i, s1, n1) &&
            (other != cls && other in s1 ==> s1[other] != i)
  {
  }

  /** As written, constructing the same class twice also gives the identical
      instance, provided the class comes first in its own MRO. */
  lemma AsWrittenSameClassTwice(slots: map<string, nat>, created: nat, cls: string, mro: seq<string>)
    requires |mro| > 0 && mro[0] == cls
    ensures var (i, s1, n1) := NewAsWritten(slots, created, cls, mro);
            NewAsWritten(s1, n1, cls, mro) == (i, s1, n1)
  {
  }

  /** The class-level slots of every view class, and the MRO of each. */
  class ViewClasses {
    const mro: map<string, seq<string>>
    var slots: map<string, nat>
    var created: nat

    predicate Valid()
      reads this
    {
      SlotsValid(slots, created)
    }

    /** Before any view class is constructed every slot is empty. */
    constructor(mro: map<string, seq<string>>)
      ensures this.mro == mro && slots == map[] && created == 0 && Valid()
    {
      this.mro := mro;
      slots := map[];
      created := 0;
    }

    /** `cls()`: one instance per class, kept in the class's own slot. */
    method Construct(cls: string) returns (instance: nat)
      requires Valid()
      modifies this
      ensures Valid()
      ensures (instance, slots, created) == NewOwnSlot(old(slots), old(created), cls)
    {
      if cls in slots {
        return slots[cls];
      }
      instance := created;
      slots := slots[cls := instance];
      created := created + 1;
    }
  }
}
