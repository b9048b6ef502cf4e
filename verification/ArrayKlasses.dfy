/** Creation of array klasses.  Before the array klass itself, those of the element's super and of all its secondary
    supers are created, so that the new klass finds them. */
module ArrayKlasses {
  import opened KlassHierarchy
  import opened Wrappers

  ghost predicate HasArray(u: Universe, elem: Klass) {
    exists k :: 0 <= k < |u| && IsArrayOf(u, k, elem)
  }

  // ---- what is known of a klass does not change when others are defined ----

  ghost predicate Extends(u: Universe, u': Universe) {
    Ordered(u) && Ordered(u') && |u| <= |u'| && forall k :: 0 <= k < |u| ==> u'[k] == u[k]
  }

  lemma {:induction false} SameBottom(u: Universe, u': Universe, k: Klass)
    requires Extends(u, u') && k < |u|
    ensures Bottom(u', k) == Bottom(u, k)
    decreases k
  {
    assert KnownBefore(u, k);
    if u[k].kind.ObjArray? { SameBottom(u, u', u[k].kind.elem); }
  }

  lemma {:induction false} SameDepth(u: Universe, u': Universe, k: Klass)
    requires Extends(u, u') && k < |u|
    ensures Depth(u', k) == Depth(u, k)
    decreases k
  {
    assert KnownBefore(u, k) && KnownBefore(u', k);
    if u[k].super.Some? { SameDepth(u, u', u[k].super.value); }
    if u[k].kind.ObjArray? {
      SameBottom(u, u', k);
      SameDepth(u, u', Bottom(u, k));
    }
  }

  lemma {:induction false} SameCell(u: Universe, u': Universe, k: Klass, i: nat)
    requires Extends(u, u') && k < |u|
    ensures Cell(u', k, i) == Cell(u, k, i)
    decreases k
  {
    assert KnownBefore(u, k) && KnownBefore(u', k);
    SameDepth(u, u', k);
    if u[k].super.Some? { SameCell(u, u', u[k].super.value, i); }
  }

  lemma {:induction false} SameInterfaces(u: Universe, u': Universe, k: Klass)
    requires Extends(u, u') && k < |u|
    ensures Interfaces(u', k) == Interfaces(u, k)
    decreases k, 1, 0
  {
    assert KnownBefore(u, k) && KnownBefore(u', k);
    if u[k].super.Some? { SameInterfaces(u, u', u[k].super.value); }
    SameLocal(u, u', k, |u[k].interfaces|);
  }

  lemma {:induction false} SameLocal(u: Universe, u': Universe, k: Klass, n: nat)
    requires Extends(u, u') && k < |u| && n <= |u[k].interfaces|
    ensures LocalInterfaces(u', k, n) == LocalInterfaces(u, k, n)
    decreases k, 0, n
  {
    assert KnownBefore(u, k) && KnownBefore(u', k);
    if n != 0 {
      SameLocal(u, u', k, n - 1);
      SameInterfaces(u, u', u[k].interfaces[n - 1]);
    }
  }

  lemma {:induction false} SameOverflow(u: Universe, u': Universe, k: Klass, computed: seq<Klass>)
    requires Extends(u, u') && k < |u|
    ensures Overflow(u', k, computed) == Overflow(u, k, computed)
    decreases k
  {
    assert KnownBefore(u, k) && KnownBefore(u', k);
    if u[k].super.Some? {
      SameDepth(u, u', u[k].super.value);
      SameOverflow(u, u', u[k].super.value, computed);
    }
  }

  lemma SameSecondaries(u: Universe, u': Universe, k: Klass)
    requires Extends(u, u') && k < |u|
    ensures Secondaries(u', k) == Secondaries(u, k)
  {
    SameInterfaces(u, u', k);
    SameOverflow(u, u', k, Computed(u, k));
  }

  /** Nor does the subtype relation. */
  lemma {:induction false} SameSubtypes(u: Universe, u': Universe, a: Klass, b: Klass)
    requires Extends(u, u') && a < |u| && b < |u|
    ensures Subtype(u', a, b) <==> Subtype(u, a, b)
    decreases a
  {
    assert KnownBefore(u, a) && KnownBefore(u, b) && KnownBefore(u', a) && KnownBefore(u', b);
    match u[a].kind {
      case ObjArray(elem) => if u[b].kind.ObjArray? { SameSubtypes(u, u', elem, u[b].kind.elem); }
      case TypeArray =>
      case _ =>
        if u[a].super.Some? { SameSubtypes(u, u', u[a].super.value, b); }
        forall i | 0 <= i < |u[a].interfaces|
          ensures Subtype(u', u'[a].interfaces[i], b) <==> Subtype(u, u[a].interfaces[i], b)
        {
          SameSubtypes(u, u', u[a].interfaces[i], b);
        }
    }
  }

  // ---- one more array klass ----

  /** The klass has what it needs to be created. */
  ghost predicate Creatable(u: Universe, d: Decl)
    requires Ordered(u)
  {
    && Bootstrapped(u, |u|) && d.kind.ObjArray? && d.kind.elem < |u| && !HasArray(u, d.kind.elem)
    && Ordered(u + [d]) && WellAllocated(u + [d], |u|)
  }

  lemma StaysPlaced(u: Universe, d: Decl, k: Klass)
    requires WellFormed(u) && Ordered(u + [d]) && k < |u|
    ensures WellPlaced(u + [d], k)
  {
    var u' := u + [d];
    assert KnownBefore(u, k) && KnownBefore(u', k) && WellPlaced(u, k);
    if u[k].kind.ObjArray? {
      var elem, list := u[k].kind.elem, u[k].interfaces;
      assert KnownBefore(u, elem) && KnownBefore(u', elem);
      SameSecondaries(u, u', elem);
      forall i | 2 <= i < |list| ensures IsArrayOf(u', list[i], Secondaries(u', elem)[i - 2]) {
        assert IsArrayOf(u, list[i], Secondaries(u, elem)[i - 2]);
      }
    }
  }

  lemma AddKeeps(u: Universe, d: Decl)
    requires WellFormed(u) && Creatable(u, d)
    ensures WellFormed(u + [d]) && Extends(u, u + [d]) && HasArray(u + [d], d.kind.elem)
  {
    var u' := u + [d];
    assert IsArrayOf(u', |u|, d.kind.elem);
    forall k | 0 <= k < |u'| ensures WellPlaced(u', k) {
      if k < |u| { StaysPlaced(u, d, k); }
    }
    forall k | 0 <= k < |u| ensures u[k].kind != d.kind {
      assert !IsArrayOf(u, k, d.kind.elem);
    }
  }

  // ---- definition of the other klasses ----

  /** Before any other klass there is Object. */
  lemma ObjectIsWellFormed()
    ensures WellFormed([Decl(Class, None, [])])
  {
    var u := [Decl(Class, None, [])];
    assert KnownBefore(u, 0) && WellPlaced(u, 0);
  }

  /** A class extends a class, an interface Object, and both implement interfaces that are there. */
  predicate Definable(u: Universe, d: Decl) {
    && (d.kind.Class? || d.kind.Interface?) && d.super.Some?
    && d.super.value < |u| && u[d.super.value].kind.Class? && (d.kind.Interface? ==> d.super.value == OBJECT)
    && (forall i :: 0 <= i < |d.interfaces| ==> d.interfaces[i] < |u| && u[d.interfaces[i]].kind.Interface?)
  }

  /** A class or interface defined on top of what there is keeps the hierarchy well formed. */
  lemma DefineKeeps(u: Universe, d: Decl)
    requires WellFormed(u) && u != [] && Definable(u, d)
    ensures WellFormed(u + [d])
  {
    var u' := u + [d];
    forall k | 0 <= k < |u'| ensures KnownBefore(u', k) {
      if k < |u| { assert KnownBefore(u, k); }
    }
    forall k | 0 <= k < |u'| ensures WellPlaced(u', k) {
      if k < |u| { StaysPlaced(u, d, k); }
    }
  }

  // ---- array_klass ----

  /** The array klass of an element, if there is one. */
  method ArrayKlassOrNull(u: Universe, elem: Klass) returns (k: Option<Klass>)
    ensures k.Some? ==> k.value < |u| && IsArrayOf(u, k.value, elem)
    ensures k.None? ==> !HasArray(u, elem)
  {
    for i := 0 to |u|
      invariant forall j :: 0 <= j < i ==> !IsArrayOf(u, j, elem)
    {
      if u[i].kind == ObjArray(elem) { return Some(i); }
    }
    return None;
  }

  /** Only array klasses have been added. */
  ghost predicate Grown(u: Universe, u': Universe) {
    && WellFormed(u') && Bootstrapped(u', |u'|) && Extends(u, u')
    && (forall k :: |u| <= k < |u'| ==> u'[k].kind.ObjArray?)
  }

  /** The new klass, made from its super and the array klasses of the element's secondary supers. */
  method Allocate(u: Universe, elem: Klass, super: Klass) returns (u': Universe)
    requires WellFormed(u) && Bootstrapped(u, |u|) && elem < |u| && super < |u| && !HasArray(u, elem)
    requires if u[elem].super.None? then super == OBJECT else IsArrayOf(u, super, u[elem].super.value)
    requires forall x :: x in Secondaries(u, elem) ==> HasArray(u, x)
    ensures Grown(u, u') && HasArray(u', elem) && |u'| == |u| + 1
  {
    var list := Secondaries(u, elem);
    var supers: seq<Klass> := [CLONEABLE, SERIALIZABLE];
    for i := 0 to |list|
      invariant |supers| == i + 2 && supers[0] == CLONEABLE && supers[1] == SERIALIZABLE
      invariant forall j :: 2 <= j < i + 2 ==> supers[j] < |u| && IsArrayOf(u, supers[j], list[j - 2])
    {
      assert list[i] in list;
      var found := ArrayKlassOrNull(u, list[i]);
      supers := supers + [found.value];
    }
    var d := Decl(ObjArray(elem), Some(super), supers);
    u' := u + [d];
    WellMade(u, d);
    AddKeeps(u, d);
  }

  lemma WellMade(u: Universe, d: Decl)
    requires WellFormed(u) && Bootstrapped(u, |u|) && d.kind.ObjArray? && d.kind.elem < |u| && d.super.Some?
    requires d.super.value < |u| && !HasArray(u, d.kind.elem)
    requires if u[d.kind.elem].super.None? then d.super.value == OBJECT
             else IsArrayOf(u, d.super.value, u[d.kind.elem].super.value)
    requires var list := Secondaries(u, d.kind.elem);
             && |d.interfaces| == 2 + |list| && d.interfaces[0] == CLONEABLE && d.interfaces[1] == SERIALIZABLE
             && forall j :: 2 <= j < |d.interfaces| ==>
                  d.interfaces[j] < |u| && IsArrayOf(u, d.interfaces[j], list[j - 2])
    ensures Creatable(u, d)
  {
    var u' := u + [d];
    forall k | 0 <= k < |u'| ensures KnownBefore(u', k) {
      if k < |u| { assert KnownBefore(u, k); }
    }
    SameSecondaries(u, u', d.kind.elem);
    forall i | 2 <= i < |d.interfaces|
      ensures IsArrayOf(u', d.interfaces[i], Secondaries(u', d.kind.elem)[i - 2])
    {
      assert IsArrayOf(u, d.interfaces[i], Secondaries(u, d.kind.elem)[i - 2]);
    }
  }

  /** The array klass of an element, created together with those it needs unless it is there. */
  method ArrayKlass(u: Universe, elem: Klass) returns (u': Universe)
    requires WellFormed(u) && Bootstrapped(u, |u|) && elem < |u|
    ensures Grown(u, u') && HasArray(u', elem)
    ensures HasArray(u, elem) ==> u' == u
    decreases elem, 1
  {
    var found := ArrayKlassOrNull(u, elem);
    if found.Some? { return u; }
    RootOnTop(u, elem);
    assert KnownBefore(u, elem);
    if u[elem].super.None? {
      assert Secondaries(u, elem) == [];
      u' := Allocate(u, elem, OBJECT);
    } else {
      u' := SuperArrays(u, elem);
      SameSecondaries(u, u', elem);
      // the creation starts again, now that the supers exist
      found := ArrayKlassOrNull(u', elem);
      if found.None? {
        found := ArrayKlassOrNull(u', u[elem].super.value);
        u' := Allocate(u', elem, found.value);
      }
    }
  }

  /** The array klasses of the element's super and secondary supers. */
  method SuperArrays(u: Universe, elem: Klass) returns (u': Universe)
    requires WellFormed(u) && Bootstrapped(u, |u|) && elem < |u| && u[elem].super.Some?
    ensures Grown(u, u') && HasArray(u', u[elem].super.value)
    ensures forall x :: x in Secondaries(u, elem) ==> HasArray(u', x)
    decreases elem, 0
  {
    assert KnownBefore(u, elem);
    var list := Secondaries(u, elem);
    u' := ArrayKlass(u, u[elem].super.value);
    for i := |list| downto 0
      invariant Grown(u, u') && HasArray(u', u[elem].super.value)
      invariant forall j :: i <= j < |list| ==> HasArray(u', list[j])
    {
      SecondaryIsSuper(u, elem, list[i]);
      var next := ArrayKlass(u', list[i]);
      StillThere(u', next);
      u' := next;
    }
  }

  lemma StillThere(u: Universe, u': Universe)
    requires Extends(u, u')
    ensures forall x :: HasArray(u, x) ==> HasArray(u', x)
  {
    forall x | HasArray(u, x) ensures HasArray(u', x) {
      var k :| 0 <= k < |u| && IsArrayOf(u, k, x);
      assert IsArrayOf(u', k, x);
    }
  }
}
