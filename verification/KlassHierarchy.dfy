/** Klasses: what each declares, and the supertype display and secondary supers that `initialize_supers` computes for
    the subtype checks.  Klasses are numbered in the order they are defined; an array klass is defined when the first
    array is, and then its supers are too. */
module KlassHierarchy {
  import opened Wrappers

  type Klass = nat

  const OBJECT: Klass := 0
  const CLONEABLE: Klass := 1
  const SERIALIZABLE: Klass := 2

  datatype Kind = Class | Interface | TypeArray | ObjArray(elem: Klass)

  /** For an array klass `interfaces` is what `compute_secondary_supers` found when it was created. */
  datatype Decl = Decl(kind: Kind, super: Option<Klass>, interfaces: seq<Klass>)

  type Universe = seq<Decl>

  const LIMIT: nat := 8

  predicate KnownBefore(u: Universe, k: Klass)
    requires k < |u|
  {
    && (u[k].super.Some? ==> u[k].super.value < k)
    && (u[k].kind.ObjArray? ==> u[k].kind.elem < k)
    && (forall i :: 0 <= i < |u[k].interfaces| ==> u[k].interfaces[i] < k)
  }

  predicate Ordered(u: Universe) {
    forall k :: 0 <= k < |u| ==> KnownBefore(u, k)
  }

  predicate IsArray(kind: Kind) {
    kind.TypeArray? || kind.ObjArray?
  }

  predicate ArrayRoot(k: Klass) {
    k == OBJECT || k == CLONEABLE || k == SERIALIZABLE
  }

  /** The language's subtype relation.  For a class or interface: reflexive, and through every declared super and
      interface.  Arrays of references are covariant, and every array is an Object, Cloneable and Serializable. */
  ghost predicate Subtype(u: Universe, a: Klass, b: Klass)
    requires Ordered(u) && a < |u| && b < |u|
    decreases a
  {
    assert KnownBefore(u, a) && KnownBefore(u, b);
    match u[a].kind
    case ObjArray(elem) => if u[b].kind.ObjArray? then Subtype(u, elem, u[b].kind.elem) else ArrayRoot(b)
    case TypeArray => a == b || ArrayRoot(b)
    case _ =>
      || a == b
      || (u[a].super.Some? && Subtype(u, u[a].super.value, b))
      || exists i :: 0 <= i < |u[a].interfaces| && Subtype(u, u[a].interfaces[i], b)
  }

  // ---- initialize_supers ----

  /** The klass under all dimensions of an array of references. */
  function Bottom(u: Universe, k: Klass): (b: Klass)
    requires Ordered(u) && k < |u|
    ensures b <= k && !u[b].kind.ObjArray? && (u[k].kind.ObjArray? ==> b < k)
    decreases k
  {
    assert KnownBefore(u, k);
    if u[k].kind.ObjArray? then Bottom(u, u[k].kind.elem) else k
  }

  /** How many display cells the klass inherits from its super; the limit when it can not be a primary super. */
  function Depth(u: Universe, k: Klass): (d: nat)
    requires Ordered(u) && k < |u|
    ensures d <= LIMIT
    decreases k
  {
    assert KnownBefore(u, k);
    if u[k].super.None? then 0
    else
      var above := Depth(u, u[k].super.value);
      if u[k].kind.Interface? || (u[k].kind.ObjArray? && Depth(u, Bottom(u, k)) == LIMIT) || above >= LIMIT - 1
      then LIMIT else above + 1
  }

  predicate Primary(u: Universe, k: Klass)
    requires Ordered(u) && k < |u|
  {
    Depth(u, k) < LIMIT
  }

  /** A cell of the display. */
  function Cell(u: Universe, k: Klass, i: nat): (c: Option<Klass>)
    requires Ordered(u) && k < |u|
    ensures c.Some? ==> c.value <= k
    decreases k
  {
    assert KnownBefore(u, k);
    var d := Depth(u, k);
    if i < d && u[k].super.Some? then Cell(u, u[k].super.value, i)
    else if i == d < LIMIT then Some(k)
    else None
  }

  /** The transitive interfaces, those of the super first. */
  function Interfaces(u: Universe, k: Klass): seq<Klass>
    requires Ordered(u) && k < |u|
    decreases k, 1, 0
  {
    assert KnownBefore(u, k);
    (if u[k].super.None? then [] else Interfaces(u, u[k].super.value)) + LocalInterfaces(u, k, |u[k].interfaces|)
  }

  function LocalInterfaces(u: Universe, k: Klass, n: nat): seq<Klass>
    requires Ordered(u) && k < |u| && n <= |u[k].interfaces|
    decreases k, 0, n
  {
    assert KnownBefore(u, k);
    if n == 0 then []
    else
      var i := u[k].interfaces[n - 1];
      LocalInterfaces(u, k, n - 1) + Interfaces(u, i) + [i]
  }

  /** `compute_secondary_supers`. */
  function Computed(u: Universe, k: Klass): seq<Klass>
    requires Ordered(u) && k < |u|
  {
    if IsArray(u[k].kind) then u[k].interfaces else Interfaces(u, k)
  }

  /** The superclasses that overflowed the display, the nearest last, without those that are secondaries anyway. */
  function Overflow(u: Universe, k: Klass, computed: seq<Klass>): seq<Klass>
    requires Ordered(u) && k < |u|
    decreases k
  {
    assert KnownBefore(u, k);
    if u[k].super.None? || Primary(u, u[k].super.value) then []
    else
      var p := u[k].super.value;
      Overflow(u, p, computed) + if p in computed then [] else [p]
  }

  function Secondaries(u: Universe, k: Klass): seq<Klass>
    requires Ordered(u) && k < |u|
  {
    Overflow(u, k, Computed(u, k)) + Computed(u, k)
  }

  // ---- well-formed universes ----

  /** One root class; interfaces extend it; classes extend classes; what is implemented is an interface. */
  predicate WellDeclared(u: Universe, k: Klass)
    requires Ordered(u) && k < |u| && !IsArray(u[k].kind)
  {
    assert KnownBefore(u, k);
    && (u[k].super.None? <==> k == OBJECT)
    && (u[k].kind.Interface? ==> u[k].super == Some(OBJECT))
    && (u[k].super.Some? ==> u[u[k].super.value].kind.Class?)
    && (forall i :: 0 <= i < |u[k].interfaces| ==> u[u[k].interfaces[i]].kind.Interface?)
  }

  predicate IsArrayOf(u: Universe, k: Klass, elem: Klass)
    requires k < |u|
  {
    u[k].kind == ObjArray(elem)
  }

  /** The direct super is the array klass of the element's super, and there is an array klass for every secondary
      super of the element; both were there when the array klass was created. */
  predicate WellAllocated(u: Universe, k: Klass)
    requires Ordered(u) && k < |u| && u[k].kind.ObjArray?
  {
    assert KnownBefore(u, k);
    var elem, list := u[k].kind.elem, u[k].interfaces;
    assert KnownBefore(u, elem);
    && u[k].super.Some?
    && (if u[elem].super.None? then u[k].super.value == OBJECT
        else IsArrayOf(u, u[k].super.value, u[elem].super.value))
    && |list| == 2 + |Secondaries(u, elem)| && list[0] == CLONEABLE && list[1] == SERIALIZABLE
    && (forall i :: 2 <= i < |list| ==> IsArrayOf(u, list[i], Secondaries(u, elem)[i - 2]))
  }

  /** The three supertypes of all arrays are defined. */
  predicate Bootstrapped(u: Universe, k: Klass) {
    && SERIALIZABLE < k <= |u| && u[OBJECT].kind.Class?
    && u[CLONEABLE] == u[SERIALIZABLE] == Decl(Interface, Some(OBJECT), [])
  }

  predicate WellPlaced(u: Universe, k: Klass)
    requires Ordered(u) && k < |u|
  {
    match u[k].kind
    case ObjArray(_) => Bootstrapped(u, k) && WellAllocated(u, k)
    case TypeArray =>
      Bootstrapped(u, k) && u[k].super == Some(OBJECT) && u[k].interfaces == [CLONEABLE, SERIALIZABLE]
    case _ => WellDeclared(u, k)
  }

  predicate WellFormed(u: Universe) {
    && Ordered(u)
    && (forall k :: 0 <= k < |u| ==> WellPlaced(u, k))
    && (forall j, k :: 0 <= j < |u| && 0 <= k < |u| && u[j].kind.ObjArray? && u[k].kind == u[j].kind ==> j == k)
  }

  // ---- depths and cells ----

  lemma {:induction false} RootOnTop(u: Universe, k: Klass)
    requires WellFormed(u) && k < |u|
    ensures Cell(u, k, 0) == Some(OBJECT) && Depth(u, OBJECT) == 0 && u[OBJECT].super.None? && u[OBJECT].kind.Class?
    ensures (u[k].super.None? <==> k == OBJECT) && (Depth(u, k) == 0 <==> k == OBJECT)
    decreases k
  {
    assert KnownBefore(u, k) && WellPlaced(u, k) && KnownBefore(u, OBJECT) && WellPlaced(u, OBJECT);
    if k != OBJECT { RootOnTop(u, u[k].super.value); }
  }

  lemma {:induction false} CellBelowDepth(u: Universe, k: Klass, i: nat)
    requires WellFormed(u) && k < |u| && Cell(u, k, i).Some?
    ensures i <= Depth(u, k) && i < LIMIT
    decreases k
  {
    assert KnownBefore(u, k);
    if i < Depth(u, k) && u[k].super.Some? { CellBelowDepth(u, u[k].super.value, i); }
  }

  /** An array klass is one deeper than its element. */
  lemma {:induction false} ArrayDepth(u: Universe, a: Klass)
    requires WellFormed(u) && a < |u| && u[a].kind.ObjArray? && KnownBefore(u, a)
    ensures var d := Depth(u, u[a].kind.elem);
            Depth(u, a) == if d + 1 < LIMIT then d + 1 else LIMIT
    decreases a
  {
    var e := u[a].kind.elem;
    assert KnownBefore(u, e) && WellPlaced(u, a) && WellPlaced(u, e);
    RootOnTop(u, e);
    if e != OBJECT {
      ArrayDepth(u, u[a].super.value);
      assert Bottom(u, a) == if u[e].kind.ObjArray? then Bottom(u, e) else e;
    }
  }

  /** Each cell of an array klass, but the root's, is the array klass of the element's cell. */
  lemma {:induction false} ArrayCells(u: Universe, a: Klass, i: nat)
    requires WellFormed(u) && a < |u| && u[a].kind.ObjArray? && KnownBefore(u, a) && i + 1 < LIMIT
    ensures var x, y := Cell(u, a, i + 1), Cell(u, u[a].kind.elem, i);
            && (x.Some? <==> y.Some?)
            && (x.Some? ==> IsArrayOf(u, x.value, y.value))
    decreases a
  {
    var e := u[a].kind.elem;
    assert KnownBefore(u, e) && WellPlaced(u, a);
    RootOnTop(u, e);
    ArrayDepth(u, a);
    if i + 1 < Depth(u, a) { ArrayCells(u, u[a].super.value, i); }
  }

  // ---- the super chain ----

  ghost predicate Above(u: Universe, a: Klass, b: Klass)
    requires Ordered(u) && a < |u|
    decreases a
  {
    assert KnownBefore(u, a);
    a == b || (u[a].super.Some? && Above(u, u[a].super.value, b))
  }

  lemma {:induction false} CellAbove(u: Universe, a: Klass, i: nat)
    requires WellFormed(u) && a < |u| && Cell(u, a, i).Some?
    ensures Above(u, a, Cell(u, a, i).value)
    decreases a
  {
    assert KnownBefore(u, a);
    if i < Depth(u, a) && u[a].super.Some? { CellAbove(u, u[a].super.value, i); }
  }

  /** What is above an array klass is the root or the array klass of something above the element. */
  lemma {:induction false} AboveArray(u: Universe, a: Klass, b: Klass)
    requires WellFormed(u) && a < |u| && b < |u| && u[a].kind.ObjArray? && KnownBefore(u, a) && Above(u, a, b)
    ensures b == OBJECT || (u[b].kind.ObjArray? && Above(u, u[a].kind.elem, u[b].kind.elem))
    decreases a
  {
    var e := u[a].kind.elem;
    assert KnownBefore(u, e) && WellPlaced(u, a);
    if a != b {
      RootOnTop(u, OBJECT);
      if u[e].super.Some? { AboveArray(u, u[a].super.value, b); }
    }
  }

  lemma {:induction false} AboveIsSuper(u: Universe, a: Klass, b: Klass)
    requires WellFormed(u) && a < |u| && b < |u| && Above(u, a, b)
    ensures Subtype(u, a, b)
    decreases a
  {
    assert KnownBefore(u, a) && WellPlaced(u, a) && KnownBefore(u, b);
    match u[a].kind {
      case ObjArray(elem) =>
        AboveArray(u, a, b);
        RootOnTop(u, OBJECT);
        if u[b].kind.ObjArray? { AboveIsSuper(u, elem, u[b].kind.elem); }
      case TypeArray => RootOnTop(u, OBJECT);
      case _ => if a != b { AboveIsSuper(u, u[a].super.value, b); }
    }
  }

  // ---- the display decides primary supers ----

  lemma {:induction false} DeclaredSupers(u: Universe, a: Klass, b: Klass)
    requires WellFormed(u) && a < |u| && b < |u| && !IsArray(u[a].kind) && Subtype(u, a, b)
    ensures !IsArray(u[b].kind)
    ensures u[a].kind.Interface? && Primary(u, b) ==> b == OBJECT
    decreases a
  {
    assert KnownBefore(u, a) && WellPlaced(u, a) && KnownBefore(u, OBJECT);
    RootOnTop(u, a);
    if a == b {
    } else if u[a].super.Some? && Subtype(u, u[a].super.value, b) {
      DeclaredSupers(u, u[a].super.value, b);
    } else {
      var i :| 0 <= i < |u[a].interfaces| && Subtype(u, u[a].interfaces[i], b);
      DeclaredSupers(u, u[a].interfaces[i], b);
    }
  }

  lemma {:induction false} SuperInCell(u: Universe, a: Klass, b: Klass)
    requires WellFormed(u) && a < |u| && b < |u| && Primary(u, b) && Subtype(u, a, b)
    ensures Cell(u, a, Depth(u, b)) == Some(b)
    decreases a
  {
    assert KnownBefore(u, a) && WellPlaced(u, a) && KnownBefore(u, b);
    RootOnTop(u, a);
    if u[a].kind.ObjArray? {
      ArraySuperInCell(u, a, b);
    } else if a != b && !u[a].kind.TypeArray? {
      if u[a].super.Some? && Subtype(u, u[a].super.value, b) {
        var s := u[a].super.value;
        SuperInCell(u, s, b);
        CellBelowDepth(u, s, Depth(u, b));
      } else {
        var i :| 0 <= i < |u[a].interfaces| && Subtype(u, u[a].interfaces[i], b);
        DeclaredSupers(u, u[a].interfaces[i], b);
      }
    }
  }

  lemma {:induction false} ArraySuperInCell(u: Universe, a: Klass, b: Klass)
    requires WellFormed(u) && a < |u| && b < |u| && u[a].kind.ObjArray? && Primary(u, b) && Subtype(u, a, b)
    ensures Cell(u, a, Depth(u, b)) == Some(b)
    decreases a, 0
  {
    assert KnownBefore(u, a) && KnownBefore(u, b) && WellPlaced(u, a);
    RootOnTop(u, a);
    if u[b].kind.ObjArray? {
      var f := u[b].kind.elem;
      ArrayDepth(u, b);
      SuperInCell(u, u[a].kind.elem, f);
      ArrayCells(u, a, Depth(u, f));
    }
  }

  /** A primary super is in its cell of the display, and nothing else is. */
  lemma DisplayDecides(u: Universe, a: Klass, b: Klass)
    requires WellFormed(u) && a < |u| && b < |u| && Primary(u, b)
    ensures Subtype(u, a, b) <==> Cell(u, a, Depth(u, b)) == Some(b)
  {
    if Subtype(u, a, b) { SuperInCell(u, a, b); }
    if Cell(u, a, Depth(u, b)) == Some(b) {
      CellAbove(u, a, Depth(u, b));
      AboveIsSuper(u, a, b);
    }
  }

  // ---- the secondaries decide the others ----

  lemma {:induction false} OverflowAbove(u: Universe, a: Klass, computed: seq<Klass>, b: Klass)
    requires Ordered(u) && a < |u| && b in Overflow(u, a, computed)
    ensures b < a && Above(u, a, b)
    decreases a
  {
    assert KnownBefore(u, a);
    if b != u[a].super.value { OverflowAbove(u, u[a].super.value, computed, b); }
  }

  lemma {:induction false} InterfaceIsSuper(u: Universe, a: Klass, b: Klass)
    requires WellFormed(u) && a < |u| && !IsArray(u[a].kind) && b in Interfaces(u, a)
    ensures b < a && Subtype(u, a, b)
    decreases a, 1, 0
  {
    assert KnownBefore(u, a) && WellPlaced(u, a);
    if u[a].super.Some? && b in Interfaces(u, u[a].super.value) {
      InterfaceIsSuper(u, u[a].super.value, b);
    } else {
      LocalIsSuper(u, a, |u[a].interfaces|, b);
    }
  }

  lemma {:induction false} LocalIsSuper(u: Universe, a: Klass, n: nat, b: Klass)
    requires WellFormed(u) && a < |u| && !IsArray(u[a].kind)
    requires n <= |u[a].interfaces| && b in LocalInterfaces(u, a, n)
    ensures b < a && Subtype(u, a, b)
    decreases a, 0, n
  {
    assert KnownBefore(u, a) && WellPlaced(u, a);
    var i := u[a].interfaces[n - 1];
    if b in LocalInterfaces(u, a, n - 1) {
      LocalIsSuper(u, a, n - 1, b);
    } else {
      if b in Interfaces(u, i) { InterfaceIsSuper(u, i, b); }
      assert Subtype(u, i, b);
    }
  }

  lemma {:induction false} SecondaryIsSuper(u: Universe, a: Klass, b: Klass)
    requires WellFormed(u) && a < |u| && b in Secondaries(u, a)
    ensures b < a && Subtype(u, a, b)
    decreases a
  {
    assert KnownBefore(u, a) && WellPlaced(u, a);
    var computed := Computed(u, a);
    if b in Overflow(u, a, computed) {
      OverflowAbove(u, a, computed, b);
      AboveIsSuper(u, a, b);
    } else {
      assert b in computed;
      match u[a].kind {
        case ObjArray(_) => ArraySecondaryIsSuper(u, a, b);
        case TypeArray =>
        case _ => InterfaceIsSuper(u, a, b);
      }
    }
  }

  lemma {:induction false} ArraySecondaryIsSuper(u: Universe, a: Klass, b: Klass)
    requires WellFormed(u) && a < |u| && u[a].kind.ObjArray? && b in u[a].interfaces
    ensures b < a && Subtype(u, a, b)
    decreases a, 0
  {
    assert KnownBefore(u, a) && WellPlaced(u, a);
    var e := u[a].kind.elem;
    var i :| 0 <= i < |u[a].interfaces| && u[a].interfaces[i] == b;
    if i >= 2 {
      var f := Secondaries(u, e)[i - 2];
      assert IsArrayOf(u, b, f);
      SecondaryIsSuper(u, e, f);
    } else {
      assert ArrayRoot(b) && !u[b].kind.ObjArray?;
    }
  }

  lemma {:induction false} LocalContains(u: Universe, a: Klass, n: nat, i: nat, b: Klass)
    requires Ordered(u) && a < |u| && i < n <= |u[a].interfaces|
    requires KnownBefore(u, a) && (b == u[a].interfaces[i] || b in Interfaces(u, u[a].interfaces[i]))
    ensures b in LocalInterfaces(u, a, n)
    decreases n
  {
    if i < n - 1 { LocalContains(u, a, n - 1, i, b); }
  }

  /** Leaving out duplicates loses nothing. */
  lemma {:induction false} OverflowContains(u: Universe, a: Klass, computed: seq<Klass>, b: Klass)
    requires Ordered(u) && a < |u| && b < |u| && a != b && Above(u, a, b) && !Primary(u, b)
    ensures b in Overflow(u, a, computed) + computed
    decreases a
  {
    assert KnownBefore(u, a);
    var p := u[a].super.value;
    if p != b { OverflowContains(u, p, computed, b); }
    NonPrimaryAbove(u, p, b);
  }

  lemma {:induction false} NonPrimaryAbove(u: Universe, a: Klass, b: Klass)
    requires Ordered(u) && a < |u| && b < |u| && Above(u, a, b) && !Primary(u, b)
    ensures !Primary(u, a)
    decreases a
  {
    assert KnownBefore(u, a);
    if a != b { NonPrimaryAbove(u, u[a].super.value, b); }
  }

  /** Of a declared type the other supers are above it or among its interfaces. */
  lemma {:induction false} SuperAboveOrInterface(u: Universe, a: Klass, b: Klass)
    requires WellFormed(u) && a < |u| && b < |u| && !IsArray(u[a].kind) && Subtype(u, a, b)
    ensures Above(u, a, b) || b in Interfaces(u, a)
    decreases a
  {
    assert KnownBefore(u, a) && WellPlaced(u, a);
    if a == b {
    } else if u[a].super.Some? && Subtype(u, u[a].super.value, b) {
      SuperAboveOrInterface(u, u[a].super.value, b);
    } else {
      var i :| 0 <= i < |u[a].interfaces| && Subtype(u, u[a].interfaces[i], b);
      var x := u[a].interfaces[i];
      assert KnownBefore(u, x) && WellPlaced(u, x);
      SuperAboveOrInterface(u, x, b);
      RootAbove(u, a);
      RootOnTop(u, OBJECT);
      if x == b || b in Interfaces(u, x) { LocalContains(u, a, |u[a].interfaces|, i, b); }
    }
  }

  lemma {:induction false} RootAbove(u: Universe, a: Klass)
    requires WellFormed(u) && a < |u|
    ensures Above(u, a, OBJECT)
    decreases a
  {
    assert KnownBefore(u, a);
    RootOnTop(u, a);
    if a != OBJECT { RootAbove(u, u[a].super.value); }
  }

  /** What is above the element has its array klass above the array klass, if it has one. */
  lemma {:induction false} ArrayAbove(u: Universe, a: Klass, b: Klass)
    requires WellFormed(u) && a < |u| && b < |u| && u[a].kind.ObjArray? && u[b].kind.ObjArray?
    requires KnownBefore(u, a) && Above(u, u[a].kind.elem, u[b].kind.elem)
    ensures Above(u, a, b)
    decreases a
  {
    var e := u[a].kind.elem;
    assert KnownBefore(u, e) && WellPlaced(u, a);
    if e != u[b].kind.elem { ArrayAbove(u, u[a].super.value, b); }
  }

  lemma {:induction false} SuperInSecondaries(u: Universe, a: Klass, b: Klass)
    requires WellFormed(u) && a < |u| && b < |u| && !Primary(u, b) && Subtype(u, a, b) && a != b
    ensures b in Secondaries(u, a)
    decreases a
  {
    assert KnownBefore(u, a) && KnownBefore(u, b) && WellPlaced(u, a);
    var computed := Computed(u, a);
    RootOnTop(u, a);
    if u[a].kind.ObjArray? {
      if u[b].kind.ObjArray? {
        ArraySuperInSecondaries(u, a, b);
      } else {
        assert b == u[a].interfaces[0] || b == u[a].interfaces[1];
      }
    } else if u[a].kind.TypeArray? {
      assert b == u[a].interfaces[0] || b == u[a].interfaces[1];
    } else {
      SuperAboveOrInterface(u, a, b);
      if Above(u, a, b) { OverflowContains(u, a, computed, b); }
    }
  }

  /** The element's super is a secondary of the element, or it filled the last cell of its display: then the array
      klass has overflowed. */
  lemma {:induction false} ArraySuperInSecondaries(u: Universe, a: Klass, b: Klass)
    requires WellFormed(u) && a < |u| && b < |u| && u[a].kind.ObjArray? && u[b].kind.ObjArray?
    requires !Primary(u, b) && Subtype(u, a, b) && a != b
    ensures b in Secondaries(u, a)
    decreases a, 0
  {
    assert KnownBefore(u, a) && KnownBefore(u, b) && WellPlaced(u, a);
    var e, f := u[a].kind.elem, u[b].kind.elem;
    if Primary(u, f) {
      SuperInCell(u, e, f);
      CellAbove(u, e, Depth(u, f));
      ArrayAbove(u, a, b);
      OverflowContains(u, a, Computed(u, a), b);
    } else {
      SuperInSecondaries(u, e, f);
      var i :| 0 <= i < |Secondaries(u, e)| && Secondaries(u, e)[i] == f;
      assert IsArrayOf(u, u[a].interfaces[i + 2], f);
      assert u[a].interfaces[i + 2] == b;
    }
  }

  /** Any other super is the klass itself or in its secondary supers, and nothing else is. */
  lemma SecondariesDecide(u: Universe, a: Klass, b: Klass)
    requires WellFormed(u) && a < |u| && b < |u| && !Primary(u, b)
    ensures Subtype(u, a, b) <==> a == b || b in Secondaries(u, a)
  {
    if Subtype(u, a, b) && a != b { SuperInSecondaries(u, a, b); }
    if b in Secondaries(u, a) { SecondaryIsSuper(u, a, b); }
    if a == b { AboveIsSuper(u, a, b); }
  }
}
