/** The whole subtype check, fast path and secondary scan, run by any number of threads that share the one-word
    secondary super cache of each klass.  A step is one access to memory. */
module SubtypeCheck {
  import opened KlassHierarchy
  import opened Wrappers
  import F = SubtypeFastPath

  type Tid = nat

  /** The super check offset of a klass: a cell of the display or the cache. */
  function CheckOffset(u: Universe, k: Klass): nat
    requires Ordered(u) && k < |u|
  {
    if Primary(u, k) then Depth(u, k) else CACHE
  }

  /** Cells come before the cache in the klass. */
  const CACHE: nat := LIMIT

  type Caches = map<Klass, Klass>

  /** The word the fast path loads from the sub klass. */
  function WordAt(u: Universe, caches: Caches, k: Klass, offset: nat): Option<Klass>
    requires Ordered(u) && k < |u|
  {
    if offset == CACHE then (if k in caches then Some(caches[k]) else None) else Cell(u, k, offset)
  }

  datatype Pc =
    | Idle
    | Fast(sub: Klass, super: Klass)
    | Scan(sub: Klass, super: Klass, i: nat)
    | StoreCache(sub: Klass, super: Klass)
    | Done(sub: Klass, super: Klass, answer: bool)

  datatype State = State(caches: Caches, threads: map<Tid, Pc>)

  datatype Event = Check(t: Tid, sub: Klass, super: Klass) | Go(t: Tid)

  /** The decision of the fast path on the word it has loaded. */
  function FastStep(u: Universe, caches: Caches, sub: Klass, super: Klass): Pc
    requires Ordered(u) && sub < |u| && super < |u|
  {
    var offset := CheckOffset(u, super);
    if sub == super || WordAt(u, caches, sub, offset) == Some(super) then Done(sub, super, true)
    else if offset == CACHE then Scan(sub, super, 0)
    else Done(sub, super, false)
  }

  function ScanStep(u: Universe, sub: Klass, super: Klass, i: nat): Pc
    requires Ordered(u) && sub < |u|
  {
    var list := Secondaries(u, sub);
    if i >= |list| then Done(sub, super, false)
    else if list[i] == super then StoreCache(sub, super)
    else Scan(sub, super, i + 1)
  }

  function Step(u: Universe, s: State, e: Event): State
    requires Ordered(u)
  {
    if e.t !in s.threads then s
    else
      var pc := s.threads[e.t];
      match e
      case Check(t, sub, super) =>
        if (pc.Idle? || pc.Done?) && sub < |u| && super < |u|
        then s.(threads := s.threads[t := Fast(sub, super)]) else s
      case Go(t) =>
        match pc
        case Fast(sub, super) =>
          if sub < |u| && super < |u| then s.(threads := s.threads[t := FastStep(u, s.caches, sub, super)]) else s
        case Scan(sub, super, i) =>
          if sub < |u| then s.(threads := s.threads[t := ScanStep(u, sub, super, i)]) else s
        case StoreCache(sub, super) => State(s.caches[sub := super], s.threads[t := Done(sub, super, true)])
        case _ => s
  }

  function Run(u: Universe, s: State, es: seq<Event>): State
    requires Ordered(u)
    decreases |es|
  {
    if es == [] then s else Run(u, Step(u, s, es[0]), es[1..])
  }

  // ---- every run ----

  /** A cache holds nothing but a secondary super of its klass. */
  predicate CachesOk(u: Universe, caches: Caches)
    requires Ordered(u)
  {
    forall k :: k in caches ==> k < |u| && caches[k] in Secondaries(u, k)
  }

  ghost predicate PcOk(u: Universe, pc: Pc)
    requires Ordered(u)
  {
    match pc
    case Idle => true
    case Fast(sub, super) => sub < |u| && super < |u|
    case Scan(sub, super, i) =>
      && sub < |u| && super < |u| && sub != super && !Primary(u, super)
      && i <= |Secondaries(u, sub)| && super !in Secondaries(u, sub)[..i]
    case StoreCache(sub, super) =>
      sub < |u| && super < |u| && !Primary(u, super) && super in Secondaries(u, sub)
    case Done(sub, super, answer) => sub < |u| && super < |u| && (answer <==> Subtype(u, sub, super))
  }

  ghost predicate Inv(u: Universe, s: State)
    requires Ordered(u)
  {
    CachesOk(u, s.caches) && forall t :: t in s.threads ==> PcOk(u, s.threads[t])
  }

  lemma FastStepOk(u: Universe, caches: Caches, sub: Klass, super: Klass)
    requires WellFormed(u) && CachesOk(u, caches) && sub < |u| && super < |u|
    ensures PcOk(u, FastStep(u, caches, sub, super))
  {
    if Primary(u, super) {
      DisplayDecides(u, sub, super);
    } else {
      SecondariesDecide(u, sub, super);
      assert Secondaries(u, sub)[..0] == [];
    }
  }

  lemma ScanStepOk(u: Universe, sub: Klass, super: Klass, i: nat)
    requires WellFormed(u) && PcOk(u, Scan(sub, super, i))
    ensures PcOk(u, ScanStep(u, sub, super, i))
  {
    var list := Secondaries(u, sub);
    SecondariesDecide(u, sub, super);
    if i < |list| {
      assert list[..i + 1] == list[..i] + [list[i]];
    } else {
      assert list[..i] == list;
    }
  }

  lemma StepKeeps(u: Universe, s: State, e: Event)
    requires WellFormed(u) && Inv(u, s)
    ensures Inv(u, Step(u, s, e))
  {
    if e.t in s.threads {
      var pc := s.threads[e.t];
      assert PcOk(u, pc);
      match pc {
        case Fast(sub, super) => FastStepOk(u, s.caches, sub, super);
        case Scan(sub, super, i) => ScanStepOk(u, sub, super, i);
        case StoreCache(sub, super) => SecondariesDecide(u, sub, super);
        case _ =>
      }
    }
  }

  lemma {:induction false} RunKeeps(u: Universe, s: State, es: seq<Event>)
    requires WellFormed(u) && Inv(u, s)
    ensures Inv(u, Run(u, s, es))
    decreases |es|
  {
    if es != [] {
      StepKeeps(u, s, es[0]);
      RunKeeps(u, Step(u, s, es[0]), es[1..]);
    }
  }

  ghost predicate Init(u: Universe, s: State) {
    s.caches == map[] && forall t :: t in s.threads ==> s.threads[t].Idle?
  }

  /** However the checks of all threads interleave, each answers by the declared subtype relation. */
  lemma AnswersAreSubtyping(u: Universe, s0: State, es: seq<Event>, t: Tid)
    requires WellFormed(u) && Init(u, s0)
    requires var s := Run(u, s0, es); t in s.threads && s.threads[t].Done?
    ensures var pc := Run(u, s0, es).threads[t];
            pc.sub < |u| && pc.super < |u| && (pc.answer <==> Subtype(u, pc.sub, pc.super))
  {
    RunKeeps(u, s0, es);
    assert PcOk(u, Run(u, s0, es).threads[t]);
  }

  // ---- and each check ends ----

  /** The steps a check may still take. */
  function Left(u: Universe, pc: Pc): nat
    requires Ordered(u)
  {
    match pc
    case Fast(sub, _) => if sub < |u| then |Secondaries(u, sub)| + 3 else 0
    case Scan(sub, _, i) => if sub < |u| && i <= |Secondaries(u, sub)| then |Secondaries(u, sub)| - i + 2 else 0
    case StoreCache(_, _) => 1
    case _ => 0
  }

  /** Every step of a thread brings its check closer to an answer, whatever the others do. */
  lemma CheckAdvances(u: Universe, s: State, t: Tid)
    requires WellFormed(u) && Inv(u, s) && t in s.threads && !s.threads[t].Idle? && !s.threads[t].Done?
    ensures Left(u, Step(u, s, Go(t)).threads[t]) < Left(u, s.threads[t])
    ensures Left(u, Step(u, s, Go(t)).threads[t]) == 0 ==> Step(u, s, Go(t)).threads[t].Done?
  {
    assert PcOk(u, s.threads[t]);
  }

  /** A thread that goes on alone for as many steps as its check may take has its answer. */
  lemma {:induction false} GoesOn(u: Universe, s: State, t: Tid, n: nat)
    requires WellFormed(u) && Inv(u, s) && t in s.threads && !s.threads[t].Idle? && Left(u, s.threads[t]) <= n
    ensures var s' := Run(u, s, seq(n, _ => Go(t)));
            && Inv(u, s') && t in s'.threads && s'.threads[t].Done?
            && s'.threads[t].sub == s.threads[t].sub && s'.threads[t].super == s.threads[t].super
    decreases n
  {
    assert PcOk(u, s.threads[t]);
    if n != 0 {
      var es := seq(n, _ => Go(t));
      var s1 := Step(u, s, Go(t));
      assert es[0] == Go(t) && es[1..] == seq(n - 1, _ => Go(t));
      StepKeeps(u, s, Go(t));
      if !s.threads[t].Done? { CheckAdvances(u, s, t); }
      GoesOn(u, s1, t, n - 1);
    }
  }

  /** A check that is started and left alone ends with the right answer, after one step more than the scan needs and
      one for the cache. */
  lemma SoloCheck(u: Universe, s: State, t: Tid, sub: Klass, super: Klass)
    requires WellFormed(u) && Inv(u, s) && t in s.threads && (s.threads[t].Idle? || s.threads[t].Done?)
    requires sub < |u| && super < |u|
    ensures var es := [Check(t, sub, super)] + seq(|Secondaries(u, sub)| + 3, _ => Go(t));
            var s' := Run(u, s, es);
            t in s'.threads && s'.threads[t] == Done(sub, super, Subtype(u, sub, super))
  {
    var n := |Secondaries(u, sub)| + 3;
    var es := [Check(t, sub, super)] + seq(n, _ => Go(t));
    assert es[0] == Check(t, sub, super) && es[1..] == seq(n, _ => Go(t));
    var s1 := Step(u, s, Check(t, sub, super));
    StepKeeps(u, s, Check(t, sub, super));
    assert s1.threads[t] == Fast(sub, super);
    GoesOn(u, s1, t, n);
    assert PcOk(u, Run(u, s1, es[1..]).threads[t]);
  }

  // ---- the emitted scan ----

  /** The loop of the slow path in its registers.  The scan pointer is moved before the load, and the trip count is
      decremented, and tested at the top, whether or not the element matched. */
  method ScanLoop(list: seq<Klass>, super: Klass) returns (hit: bool)
    ensures hit <==> super in list
  {
    var scan, count := 0, |list|;
    var zero := count == 0;
    while !zero
      invariant scan + count == |list| && count >= 0 && (zero <==> count == 0)
      invariant super !in list[..scan]
      decreases count
    {
      scan := scan + 1;
      var equal := list[scan - 1] == super;
      count := count - 1;
      zero := count == 0;
      if equal { return true; }
    }
    assert list[..scan] == list;
    return false;
  }

  // ---- the emitted fast path ----

  /** The klasses as the emitted code sees them. */
  function Klasses(u: Universe, caches: Caches): F.Klasses
    requires Ordered(u)
  {
    F.Klasses((k: int) => if 0 <= k < |u| then CheckOffset(u, k) else 0,
              (k: int, offset: int) =>
                if 0 <= k < |u| && 0 <= offset
                then (var w := WordAt(u, caches, k, offset); if w.Some? then w.value else -1) else -1)
  }

  /** The emitted fast path takes the step of the model: it goes to success, failure or the scan as `FastStep`
      does. */
  lemma EmittedFastStep(u: Universe, caches: Caches, o: F.Options, m: F.Machine)
    requires Ordered(u) && F.DistinctRegisters(o) && 0 <= F.Read(m, o.sub) < |u| && 0 <= F.Read(m, o.super) < |u|
    requires F.OffsetValue(o, Klasses(u, caches), m) == CheckOffset(u, F.Read(m, o.super))
    ensures var sub, super := F.Read(m, o.sub), F.Read(m, o.super);
            var pc := FastStep(u, caches, sub, super);
            F.Exec(Klasses(u, caches), m, F.FastPath(o, CACHE)).at
            ==
            F.LabelFor(o, if pc.Scan? then F.Unknown else if pc.answer then F.Yes else F.No)
  {
    F.FastPathDecides(o, Klasses(u, caches), m, CACHE);
  }
}
