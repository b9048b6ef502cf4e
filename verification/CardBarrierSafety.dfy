/** What the card barrier keeps over every run: no reference between regions is lost to the remembered sets, and no
    dirty card to the refinement threads. */
module CardBarrierSafety {
  import opened PtrQueue
  import opened CardBarrier

  // ---- the invariant ----

  /** The thread will still look at the card, or its dirtying store is under way. */
  predicate Pending(m: Mutator, card: nat) {
    m.pc == LoadCard(card) || CardWrite(card) in m.buffer
  }

  predicate ToVisit(x: Refiner, a: Addr) {
    x.Scanning? && x.card == Card(a) && a !in x.done
  }

  ghost predicate SomePending(s: State, card: nat) {
    exists t :: t in s.mutators && Pending(s.mutators[t], card)
  }

  ghost predicate SomeVisit(s: State, a: Addr) {
    exists r :: r in s.refiners && ToVisit(s.refiners[r], a)
  }

  /** A reference between regions is in the remembered set, or its card is dirty or about to be, or a refinement
      thread is about to find it. */
  ghost predicate Covered(s: State, a: Addr)
    requires a in s.heap
  {
    Cross(a, s.heap[a]) ==>
      || Entry(Card(a), Region(s.heap[a])) in s.remembered
      || Card(a) in s.dirty
      || SomePending(s, Card(a))
      || SomeVisit(s, a)
  }

  /** The card is in the thread's log, or is next to go there. */
  predicate Logs(m: Mutator, card: nat) {
    m.pc == Enqueue(card) || (Valid(m.queue) && card in Entries(m.queue))
  }

  predicate Holds(x: Refiner, card: nat) {
    match x
    case Resting => false
    case Holding(cards) => card in cards
    case Cleaning(cards, next) => card == next || card in cards
    case Scanning(cards, _, _) => card in cards
  }

  ghost predicate SomeLogs(s: State, card: nat) {
    exists t :: t in s.mutators && Logs(s.mutators[t], card)
  }

  ghost predicate SomeHolds(s: State, card: nat) {
    exists r :: r in s.refiners && Holds(s.refiners[r], card)
  }

  /** A dirty card is one that was left dirty without being logged (those of young regions), or is logged, or is
      held by a refinement thread. */
  ghost predicate Tracked(young: set<nat>, s: State, card: nat) {
    card in young || SomeLogs(s, card) || SomeHolds(s, card)
  }

  /** A buffered reference between regions still has its card check ahead, unless nobody ever cleans cards. */
  ghost predicate RefWritesOk(c: Config, dirty: set<nat>, m: Mutator) {
    forall a, v :: RefWrite(a, v) in m.buffer && Cross(a, v) ==>
      m.pc == LoadCard(Card(a)) || (c.refiners == {} && (Card(a) in dirty || CardWrite(Card(a)) in m.buffer))
  }

  predicate InCurrent(l: Log, card: nat) {
    Valid(l) && card in l.buf[l.index / OOP_SIZE..]
  }

  /** A buffered card store's card has not left the thread's own log buffer. */
  ghost predicate CardWritesOk(m: Mutator) {
    forall card :: CardWrite(card) in m.buffer ==> m.pc == Enqueue(card) || InCurrent(m.queue, card)
  }

  ghost predicate MutatorOk(c: Config, dirty: set<nat>, m: Mutator) {
    Valid(m.queue) && RefWritesOk(c, dirty, m) && CardWritesOk(m)
  }

  ghost predicate Inv(c: Config, young: set<nat>, s: State) {
    && s.refiners.Keys == c.refiners
    && (forall t :: t in s.mutators ==> MutatorOk(c, s.dirty, s.mutators[t]))
    && (forall a :: a in s.heap ==> Covered(s, a))
    && (forall card :: card in s.dirty ==> Tracked(young, s, card))
  }

  /** The heap starts with a region, which address zero is not in. */
  predicate ValidHeap(c: Config) {
    0 < c.start <= c.end && c.start % GRAIN == 0
  }

  /** The heap is within the reach of C1's filter, and reference stores reach memory before the card is loaded or no
      card is ever cleaned. */
  predicate Safe(c: Config) {
    c.end - c.start <= CLIENT_REACH && (c.ordered || c.refiners == {})
  }

  ghost predicate Init(c: Config, young: set<nat>, s: State) {
    && s.refiners.Keys == c.refiners
    && (forall r :: r in s.refiners ==> s.refiners[r].Resting?)
    && (forall t :: t in s.mutators ==> s.mutators[t].pc.Idle? && s.mutators[t].buffer == [])
    && (forall t :: t in s.mutators ==> Valid(s.mutators[t].queue))
    && (forall a :: a in s.heap ==> Covered(s, a))
    && (forall card :: card in s.dirty ==> Tracked(young, s, card))
  }

  // ---- steps of one mutator ----

  lemma FilteredIsHarmless(c: Config, code: Code, a: Addr, v: Addr)
    requires ValidHeap(c) && c.end - c.start <= CLIENT_REACH && CanStore(c, code, a, v) && Filtered(code, a, v)
    ensures !Cross(a, v)
  {
    match code {
      case NoBarrier =>
      case Assembled => AssembledFilter(a, v);
      case Client => ClientFilterSound(c.start, a, v);
    }
  }

  lemma StoreKeepsMutator(c: Config, s: State, m: Mutator, e: Event)
    requires ValidHeap(c) && Safe(c) && e.Store? && MutatorOk(c, s.dirty, m)
    ensures MutatorOk(c, s.dirty, MutatorStep(c, s, m, e))
  {
    if m.pc.Idle? && CanStore(c, e.code, e.a, e.v) {
      if Filtered(e.code, e.a, e.v) { FilteredIsHarmless(c, e.code, e.a, e.v); }
      var m' := MutatorStep(c, s, m, e);
      forall a, v | RefWrite(a, v) in m'.buffer && Cross(a, v)
        ensures || m'.pc == LoadCard(Card(a))
                || (c.refiners == {} && (Card(a) in s.dirty || CardWrite(Card(a)) in m'.buffer))
      {
        if RefWrite(a, v) in m.buffer { assert c.refiners == {}; }
      }
    }
  }

  lemma GoKeepsMutator(c: Config, s: State, m: Mutator, e: Event)
    requires ValidHeap(c) && Safe(c) && e.Go? && MutatorOk(c, s.dirty, m)
    ensures MutatorOk(c, s.dirty, MutatorStep(c, s, m, e))
  {
    if m.pc.Enqueue? && m.queue.index != 0 {
      PushAdds(m.queue, m.pc.card);
      PushedCurrent(m.queue, m.pc.card);
    }
  }

  lemma PushedCurrent(l: Log, v: nat)
    requires Valid(l) && l.index != 0
    ensures Valid(Pushed(l, v)) && InCurrent(Pushed(l, v), v)
    ensures forall card :: InCurrent(l, card) ==> InCurrent(Pushed(l, v), card)
  {
    PushAdds(l, v);
    var k := l.index / OOP_SIZE - 1;
    assert Pushed(l, v).index / OOP_SIZE == k;
    assert Pushed(l, v).buf[k..] == [v] + l.buf[k + 1..];
  }

  lemma RefillKeepsMutator(c: Config, s: State, m: Mutator, e: Event)
    requires e.Refill? && MutatorOk(c, s.dirty, m)
    ensures MutatorOk(c, s.dirty, MutatorStep(c, s, m, e))
  {
    if m.queue.index == 0 { RefillKeeps(m.queue, e.blank); }
  }

  lemma PendingStays(c: Config, s: State, m: Mutator, e: Event, card: nat)
    requires (e.Store? || e.Go? || e.Refill?) && Pending(m, card)
    ensures Pending(MutatorStep(c, s, m, e), card) || card in s.dirty
  {
  }

  lemma LogsStays(c: Config, s: State, m: Mutator, e: Event, card: nat)
    requires (e.Store? || e.Go? || e.Refill?) && Valid(m.queue) && Logs(m, card)
    ensures Logs(MutatorStep(c, s, m, e), card)
  {
    if e.Go? && m.pc.Enqueue? && m.queue.index != 0 { PushAdds(m.queue, m.pc.card); }
    if e.Refill? && m.queue.index == 0 { RefillKeeps(m.queue, e.blank); }
  }

  // ---- steps of the system ----

  lemma MutatorStepKeeps(c: Config, young: set<nat>, s: State, e: Event)
    requires ValidHeap(c) && Safe(c) && Inv(c, young, s) && (e.Store? || e.Go? || e.Refill?) && e.t in s.mutators
    ensures Inv(c, young, Step(c, s, e))
  {
    var m, s' := s.mutators[e.t], Step(c, s, e);
    assert MutatorOk(c, s.dirty, m);
    match e {
      case Store(_, _, _, _) => StoreKeepsMutator(c, s, m, e);
      case Go(_) => GoKeepsMutator(c, s, m, e);
      case Refill(_, _) => RefillKeepsMutator(c, s, m, e);
    }
    forall a | a in s'.heap ensures Covered(s', a) {
      assert Covered(s, a);
      if SomePending(s, Card(a)) {
        var t :| t in s.mutators && Pending(s.mutators[t], Card(a));
        if t == e.t { PendingStays(c, s, m, e, Card(a)); }
        assert Pending(s'.mutators[t], Card(a)) || Card(a) in s.dirty;
      }
      if SomeVisit(s, a) { assert s'.refiners == s.refiners; }
    }
    forall card | card in s'.dirty ensures Tracked(young, s', card) {
      assert Tracked(young, s, card);
      if SomeLogs(s, card) {
        var t :| t in s.mutators && Logs(s.mutators[t], card);
        if t == e.t { LogsStays(c, s, m, e, card); }
        assert Logs(s'.mutators[t], card);
      }
    }
  }

  lemma DrainedMutator(c: Config, s: State, t: Tid)
    requires t in s.mutators && s.mutators[t].buffer != [] && MutatorOk(c, s.dirty, s.mutators[t])
    ensures MutatorOk(c, Drained(s, t).dirty, Drained(s, t).mutators[t])
  {
    var m := s.mutators[t];
    assert forall w :: w in m.buffer ==> w == m.buffer[0] || w in m.buffer[1..];
  }

  lemma DrainKeepsCovered(c: Config, young: set<nat>, s: State, t: Tid, a: Addr)
    requires Inv(c, young, s) && t in s.mutators && s.mutators[t].buffer != [] && a in Drained(s, t).heap
    ensures Covered(Drained(s, t), a)
  {
    var m, s' := s.mutators[t], Drained(s, t);
    assert MutatorOk(c, s.dirty, m);
    assert forall w :: w in m.buffer ==> w == m.buffer[0] || w in m.buffer[1..];
    if m.buffer[0].RefWrite? && m.buffer[0].a == a {
      if Cross(a, m.buffer[0].v) { assert Card(a) in s'.dirty || Pending(s'.mutators[t], Card(a)); }
    } else {
      assert Covered(s, a);
      if SomePending(s, Card(a)) {
        var u :| u in s.mutators && Pending(s.mutators[u], Card(a));
        assert Pending(s'.mutators[u], Card(a)) || Card(a) in s'.dirty;
      }
    }
  }

  lemma DrainKeepsTracked(c: Config, young: set<nat>, s: State, t: Tid, card: nat)
    requires Inv(c, young, s) && t in s.mutators && s.mutators[t].buffer != [] && card in Drained(s, t).dirty
    ensures Tracked(young, Drained(s, t), card)
  {
    var m, s' := s.mutators[t], Drained(s, t);
    assert MutatorOk(c, s.dirty, m);
    if card in s.dirty {
      assert Tracked(young, s, card);
      if SomeLogs(s, card) {
        var u :| u in s.mutators && Logs(s.mutators[u], card);
        assert Logs(s'.mutators[u], card);
      }
    } else {
      assert Logs(s'.mutators[t], card);
    }
  }

  lemma DrainKeeps(c: Config, young: set<nat>, s: State, t: Tid)
    requires Inv(c, young, s) && t in s.mutators && s.mutators[t].buffer != []
    ensures Inv(c, young, Drained(s, t))
  {
    var s' := Drained(s, t);
    forall u | u in s'.mutators ensures MutatorOk(c, s'.dirty, s'.mutators[u]) {
      assert MutatorOk(c, s.dirty, s.mutators[u]);
      if u == t { DrainedMutator(c, s, t); }
    }
    forall a | a in s'.heap ensures Covered(s', a) { DrainKeepsCovered(c, young, s, t, a); }
    forall card | card in s'.dirty ensures Tracked(young, s', card) { DrainKeepsTracked(c, young, s, t, card); }
  }

  lemma {:induction false} AllWithout(buffers: seq<seq<nat>>, k: nat)
    requires k < |buffers|
    ensures All(buffers) == All(Without(buffers, k)) + multiset(buffers[k])
    decreases |buffers|
  {
    var n := |buffers| - 1;
    var without := Without(buffers, k);
    if k == n {
      assert without == buffers[..n];
    } else {
      var front := buffers[..n];
      AllWithout(front, k);
      assert without == Without(front, k) + [buffers[n]] && front[k] == buffers[k];
      assert without[..n - 1] == Without(front, k) && without[n - 1] == buffers[n];
    }
  }

  lemma TakeKeeps(c: Config, young: set<nat>, s: State, r: Tid, t: Tid, k: nat)
    requires Inv(c, young, s) && r in s.refiners && s.refiners[r].Resting?
    requires t in s.mutators && k < |s.mutators[t].queue.completed|
    ensures Inv(c, young, Taken(s, r, t, k))
  {
    var m, s' := s.mutators[t], Taken(s, r, t, k);
    assert MutatorOk(c, s.dirty, m);
    AllWithout(m.queue.completed, k);
    forall a | a in s'.heap ensures Covered(s', a) {
      assert Covered(s, a);
      if SomePending(s, Card(a)) {
        var u :| u in s.mutators && Pending(s.mutators[u], Card(a));
        assert Pending(s'.mutators[u], Card(a));
      }
      if SomeVisit(s, a) {
        var x :| x in s.refiners && ToVisit(s.refiners[x], a);
        assert ToVisit(s'.refiners[x], a);
      }
    }
    forall card | card in s'.dirty ensures Tracked(young, s', card) {
      assert Tracked(young, s, card);
      if SomeLogs(s, card) {
        var u :| u in s.mutators && Logs(s.mutators[u], card);
        assert Logs(s'.mutators[u], card) || Holds(s'.refiners[r], card);
      }
      if SomeHolds(s, card) {
        var x :| x in s.refiners && Holds(s.refiners[x], card);
        assert Holds(s'.refiners[x], card);
      }
    }
  }

  lemma RefineKeepsCovered(s: State, r: Tid, a: Addr)
    requires r in s.refiners && a in s.heap && Covered(s, a)
    ensures RefineStep(s, r).heap == s.heap && Covered(RefineStep(s, r), a)
  {
    var s' := RefineStep(s, r);
    if SomePending(s, Card(a)) {
      var u :| u in s.mutators && Pending(s.mutators[u], Card(a));
      assert Pending(s'.mutators[u], Card(a));
    }
    if SomeVisit(s, a) {
      var x :| x in s.refiners && ToVisit(s.refiners[x], a);
      assert ToVisit(s'.refiners[x], a);
    }
    if Card(a) in s.dirty && Card(a) !in s'.dirty { assert ToVisit(s'.refiners[r], a); }
  }

  lemma RefineKeepsTracked(young: set<nat>, s: State, r: Tid, card: nat)
    requires r in s.refiners && card in RefineStep(s, r).dirty && Tracked(young, s, card)
    ensures Tracked(young, RefineStep(s, r), card)
  {
    var s' := RefineStep(s, r);
    assert s'.mutators == s.mutators;
    if SomeLogs(s, card) {
      assert SomeLogs(s', card);
    } else if card !in young {
      var x :| x in s.refiners && Holds(s.refiners[x], card);
      assert Holds(s'.refiners[x], card);
    }
  }

  lemma RefineKeeps(c: Config, young: set<nat>, s: State, r: Tid)
    requires ValidHeap(c) && Safe(c) && Inv(c, young, s) && r in s.refiners
    ensures Inv(c, young, RefineStep(s, r))
  {
    var s' := RefineStep(s, r);
    assert r in c.refiners;
    forall t | t in s'.mutators ensures MutatorOk(c, s'.dirty, s'.mutators[t]) {
      assert MutatorOk(c, s.dirty, s.mutators[t]);
    }
    forall a | a in s'.heap ensures Covered(s', a) {
      assert Covered(s, a);
      RefineKeepsCovered(s, r, a);
    }
    forall card | card in s'.dirty ensures Tracked(young, s', card) {
      assert Tracked(young, s, card);
      RefineKeepsTracked(young, s, r, card);
    }
  }

  lemma VisitKeeps(c: Config, young: set<nat>, s: State, r: Tid, a: Addr)
    requires Inv(c, young, s) && r in s.refiners && s.refiners[r].Scanning? && Card(a) == s.refiners[r].card
    ensures Inv(c, young, Visited(s, r, a))
  {
    var s' := Visited(s, r, a);
    forall b | b in s'.heap ensures Covered(s', b) {
      assert Covered(s, b);
      if SomePending(s, Card(b)) {
        var u :| u in s.mutators && Pending(s.mutators[u], Card(b));
        assert Pending(s'.mutators[u], Card(b));
      }
      if SomeVisit(s, b) && a != b {
        var x :| x in s.refiners && ToVisit(s.refiners[x], b);
        assert ToVisit(s'.refiners[x], b);
      }
    }
    forall card | card in s'.dirty ensures Tracked(young, s', card) {
      assert Tracked(young, s, card);
      if SomeLogs(s, card) {
        var u :| u in s.mutators && Logs(s.mutators[u], card);
        assert Logs(s'.mutators[u], card);
      }
      if SomeHolds(s, card) {
        var x :| x in s.refiners && Holds(s.refiners[x], card);
        assert Holds(s'.refiners[x], card);
      }
    }
  }

  lemma StepKeeps(c: Config, young: set<nat>, s: State, e: Event)
    requires ValidHeap(c) && Safe(c) && Inv(c, young, s)
    ensures Inv(c, young, Step(c, s, e))
  {
    match e {
      case Drain(t) => if t in s.mutators && s.mutators[t].buffer != [] { DrainKeeps(c, young, s, t); }
      case Take(r, t, k) =>
        if r in s.refiners && s.refiners[r].Resting? && t in s.mutators && k < |s.mutators[t].queue.completed| {
          TakeKeeps(c, young, s, r, t, k);
        }
      case Refine(r) => if r in s.refiners { RefineKeeps(c, young, s, r); }
      case Visit(r, a) =>
        if r in s.refiners && s.refiners[r].Scanning? && Card(a) == s.refiners[r].card {
          VisitKeeps(c, young, s, r, a);
        }
      case _ => if e.t in s.mutators { MutatorStepKeeps(c, young, s, e); }
    }
  }

  lemma {:induction false} RunKeeps(c: Config, young: set<nat>, s: State, es: seq<Event>)
    requires ValidHeap(c) && Safe(c) && Inv(c, young, s)
    ensures Inv(c, young, Run(c, s, es))
    decreases |es|
  {
    if es != [] {
      StepKeeps(c, young, s, es[0]);
      RunKeeps(c, young, Step(c, s, es[0]), es[1..]);
    }
  }

  lemma InitInv(c: Config, young: set<nat>, s: State)
    requires Init(c, young, s)
    ensures Inv(c, young, s)
  {
  }

  // ---- results ----

  ghost predicate AllCovered(s: State) {
    forall a :: a in s.heap ==> Covered(s, a)
  }

  predicate Quiet(s: State) {
    && (forall t | t in s.mutators :: s.mutators[t].pc.Idle? && s.mutators[t].buffer == [])
    && (forall r | r in s.refiners :: s.refiners[r].Resting?)
  }

  /** When all is quiet, every reference between regions is in the remembered set or on a dirty card, and every dirty
      card is in a log or was left dirty from the start. */
  lemma NoReferenceLost(c: Config, young: set<nat>, s0: State, es: seq<Event>, a: Addr)
    requires ValidHeap(c) && Safe(c) && Init(c, young, s0)
    requires var s := Run(c, s0, es); Quiet(s) && a in s.heap && Cross(a, s.heap[a])
    ensures var s := Run(c, s0, es);
            || Entry(Card(a), Region(s.heap[a])) in s.remembered
            || (Card(a) in s.dirty
                && (Card(a) in young
                    || exists t :: t in s.mutators && Valid(s.mutators[t].queue)
                                   && Card(a) in Entries(s.mutators[t].queue)))
  {
    var s := Run(c, s0, es);
    InitInv(c, young, s0);
    RunKeeps(c, young, s0, es);
    assert Covered(s, a);
    if Card(a) in s.dirty {
      assert Tracked(young, s, Card(a));
      if Card(a) !in young {
        assert SomeLogs(s, Card(a));
        var t :| t in s.mutators && Logs(s.mutators[t], Card(a));
        assert Valid(s.mutators[t].queue) && Card(a) in Entries(s.mutators[t].queue);
      }
    }
  }

  lemma {:induction false} NothingRemembered(c: Config, s: State, es: seq<Event>)
    requires s.refiners == map[]
    ensures Run(c, s, es).refiners == map[] && Run(c, s, es).remembered == s.remembered
    decreases |es|
  {
    if es != [] { NothingRemembered(c, Step(c, s, es[0]), es[1..]); }
  }

  /** Where no card is ever cleaned, each thread's stores, in whatever order they reach memory, end with every
      reference between regions on a dirty card, and that card in a log unless it was left dirty from the start. */
  lemma DirtyCardsComplete(c: Config, young: set<nat>, s0: State, es: seq<Event>, a: Addr)
    requires ValidHeap(c) && c.end - c.start <= CLIENT_REACH && c.refiners == {}
    requires Init(c, young, s0) && s0.remembered == {}
    requires var s := Run(c, s0, es); Quiet(s) && a in s.heap && Cross(a, s.heap[a])
    ensures var s := Run(c, s0, es);
            && Card(a) in s.dirty
            && (Card(a) in young
                || exists t :: t in s.mutators && Valid(s.mutators[t].queue)
                               && Card(a) in Entries(s.mutators[t].queue))
  {
    assert s0.refiners == map[] by { assert s0.refiners.Keys == {}; }
    NothingRemembered(c, s0, es);
    NoReferenceLost(c, young, s0, es, a);
  }

  /** What the first field of the heap comes to hold: a reference into the next region. */
  function Target(c: Config): Addr {
    c.start + GRAIN
  }

  predicate TwoRegions(c: Config) {
    ValidHeap(c) && Target(c) < c.end
  }

  /** One field, one mutator, and all refinement threads but one at rest. */
  function Scene(c: Config, r: Tid, x: Refiner, v: Addr, dirty: set<nat>, pc: Pc, buffer: seq<Write>,
                 completed: seq<seq<nat>>): State {
    var mutator := Mutator(pc, buffer, Log([], 0, completed));
    State(map[c.start := v], dirty, map[0 := mutator], map u | u in c.refiners :: if u == r then x else Resting, {})
  }

  /** A refinement thread finds the field's card dirty in a completed buffer. */
  lemma SceneTaken(c: Config, r: Tid)
    requires r in c.refiners
    ensures var card := Card(c.start);
            Step(c, Step(c, Scene(c, r, Resting, 0, {card}, Idle, [], [[card]]), Take(r, 0, 0)), Refine(r))
            ==
            Scene(c, r, Cleaning([], card), 0, {card}, Idle, [], [])
  {
    var card := Card(c.start);
    var s := Scene(c, r, Resting, 0, {card}, Idle, [], [[card]]);
    var s1 := Step(c, s, Take(r, 0, 0));
    assert Without([[card]], 0) == [];
    assert s1 == Scene(c, r, Holding([card]), 0, {card}, Idle, [], []);
    assert [card][1..] == [];
  }

  /** The mutator stores, finds the card dirty and is done, its store still in the buffer. */
  lemma SceneStored(c: Config, r: Tid)
    requires TwoRegions(c) && r in c.refiners && !c.ordered
    ensures var card := Card(c.start);
            var s := Scene(c, r, Cleaning([], card), 0, {card}, Idle, [], []);
            Step(c, Step(c, s, Store(0, Assembled, c.start, Target(c))), Go(0))
            ==
            s.(mutators := map[0 := Mutator(Idle, [RefWrite(c.start, Target(c))], Log([], 0, []))])
  {
    TargetCrosses(c);
    AssembledFilter(c.start, Target(c));
    var card := Card(c.start);
    var s := Scene(c, r, Cleaning([], card), 0, {card}, Idle, [], []);
    var s1 := Step(c, s, Store(0, Assembled, c.start, Target(c)));
    assert s1.mutators[0] == Mutator(LoadCard(card), [RefWrite(c.start, Target(c))], Log([], 0, []));
  }

  /** The card is cleaned and the field read before the store reaches memory. */
  lemma SceneScanned(c: Config, r: Tid, b: seq<Write>)
    requires r in c.refiners
    ensures var s := Scene(c, r, Cleaning([], Card(c.start)), 0, {Card(c.start)}, Idle, b, []);
            Step(c, Step(c, s, Refine(r)), Visit(r, c.start))
            ==
            Scene(c, r, Scanning([], Card(c.start), {c.start}), 0, {}, Idle, b, [])
  {
    var card := Card(c.start);
    var s := Scene(c, r, Cleaning([], card), 0, {card}, Idle, b, []);
    assert {card} - {card} == {};
    assert Step(c, s, Refine(r)) == Scene(c, r, Scanning([], card, {}), 0, {}, Idle, b, []);
    assert {} + {c.start} == {c.start};
  }

  /** The refinement thread finishes; only then does the store reach memory. */
  lemma SceneDrained(c: Config, r: Tid)
    requires r in c.refiners
    ensures var x := Scanning([], Card(c.start), {c.start});
            var s := Scene(c, r, x, 0, {}, Idle, [RefWrite(c.start, Target(c))], []);
            Step(c, Step(c, Step(c, s, Refine(r)), Refine(r)), Drain(0))
            ==
            Scene(c, r, Resting, Target(c), {}, Idle, [], [])
  {
    var b := [RefWrite(c.start, Target(c))];
    var s := Scene(c, r, Scanning([], Card(c.start), {c.start}), 0, {}, Idle, b, []);
    var s1 := Step(c, s, Refine(r));
    assert s1 == Scene(c, r, Holding([]), 0, {}, Idle, b, []);
    assert Step(c, s1, Refine(r)) == Scene(c, r, Resting, 0, {}, Idle, b, []);
    assert b[1..] == [];
  }

  lemma RunThree(c: Config, s: State, es: seq<Event>)
    requires |es| >= 3
    ensures Run(c, s, es) == Run(c, Step(c, Step(c, Step(c, s, es[0]), es[1]), es[2]), es[3..])
  {
    var s1 := Step(c, s, es[0]);
    var s2 := Step(c, s1, es[1]);
    assert Run(c, s, es) == Run(c, s1, es[1..]);
    assert es[1..][0] == es[1] && es[1..][1..] == es[2..];
    assert Run(c, s1, es[1..]) == Run(c, s2, es[2..]);
    assert es[2..][0] == es[2] && es[2..][1..] == es[3..];
  }

  function LosingRun(c: Config, r: Tid): seq<Event> {
    [Take(r, 0, 0), Refine(r), Store(0, Assembled, c.start, Target(c)), Go(0), Refine(r), Visit(r, c.start),
     Refine(r), Refine(r), Drain(0)]
  }

  lemma LosingRunEnds(c: Config, r: Tid)
    requires TwoRegions(c) && r in c.refiners && !c.ordered
    ensures Run(c, Scene(c, r, Resting, 0, {Card(c.start)}, Idle, [], [[Card(c.start)]]), LosingRun(c, r))
            ==
            Scene(c, r, Resting, Target(c), {}, Idle, [], [])
  {
    SceneTaken(c, r);
    SceneStored(c, r);
    SceneScanned(c, r, [RefWrite(c.start, Target(c))]);
    SceneDrained(c, r);
    RunNine(c, Scene(c, r, Resting, 0, {Card(c.start)}, Idle, [], [[Card(c.start)]]), LosingRun(c, r));
  }

  /** Without the order, any refinement thread can make a quiet state in which a reference is lost. */
  lemma UnorderedLoses(c: Config, r: Tid)
    requires TwoRegions(c) && r in c.refiners && !c.ordered
    ensures exists young, s0, es :: Init(c, young, s0) && !AllCovered(Run(c, s0, es))
  {
    var s0 := Scene(c, r, Resting, 0, {Card(c.start)}, Idle, [], [[Card(c.start)]]);
    InitialScene(c, r);
    LosingRunEnds(c, r);
    LostScene(c, r);
    assert Init(c, {}, s0) && !AllCovered(Run(c, s0, LosingRun(c, r)));
  }

  lemma RunNine(c: Config, s: State, es: seq<Event>)
    requires |es| == 9
    ensures var s3 := Step(c, Step(c, Step(c, s, es[0]), es[1]), es[2]);
            var s6 := Step(c, Step(c, Step(c, s3, es[3]), es[4]), es[5]);
            Run(c, s, es) == Step(c, Step(c, Step(c, s6, es[6]), es[7]), es[8])
  {
    var s3 := Step(c, Step(c, Step(c, s, es[0]), es[1]), es[2]);
    var s6 := Step(c, Step(c, Step(c, s3, es[3]), es[4]), es[5]);
    RunThree(c, s, es);
    RunThree(c, s3, es[3..]);
    assert es[3..][3..] == es[6..];
    RunThree(c, s6, es[6..]);
  }

  lemma InitialScene(c: Config, r: Tid)
    requires r in c.refiners
    ensures Init(c, {}, Scene(c, r, Resting, 0, {Card(c.start)}, Idle, [], [[Card(c.start)]]))
  {
    var card := Card(c.start);
    var s := Scene(c, r, Resting, 0, {card}, Idle, [], [[card]]);
    assert [[card]][..0] == [];
    assert card in Entries(s.mutators[0].queue);
    assert Logs(s.mutators[0], card);
  }

  lemma TargetCrosses(c: Config)
    requires TwoRegions(c)
    ensures Cross(c.start, Target(c))
  {
    RegionFrom(c.start, Target(c));
  }

  lemma LostScene(c: Config, r: Tid)
    requires TwoRegions(c) && r in c.refiners
    ensures Quiet(Scene(c, r, Resting, Target(c), {}, Idle, [], []))
    ensures !AllCovered(Scene(c, r, Resting, Target(c), {}, Idle, [], []))
  {
    TargetCrosses(c);
    assert !Covered(Scene(c, r, Resting, Target(c), {}, Idle, [], []), c.start);
  }

  lemma StoreFiltered(c: Config, s: State, code: Code, a: Addr, v: Addr)
    requires 0 in s.mutators && s.mutators[0].pc.Idle? && CanStore(c, code, a, v) && Filtered(code, a, v)
    ensures var m := s.mutators[0];
            Step(c, s, Store(0, code, a, v)) == WithMutator(s, 0, m.(buffer := m.buffer + [RefWrite(a, v)]))
  {
  }

  lemma SceneBuffered(c: Config, s: State, b: seq<Write>)
    requires s == Scene(c, 0, Resting, 0, {}, Idle, [], [])
    ensures WithMutator(s, 0, s.mutators[0].(buffer := b)) == Scene(c, 0, Resting, 0, {}, Idle, b, [])
  {
  }

  /** In a heap too long for it C1's filter drops a store. */
  lemma SceneDropped(c: Config, s: State, v: Addr)
    requires ValidHeap(c) && v == c.start + CLIENT_REACH < c.end && s == Scene(c, 0, Resting, 0, {}, Idle, [], [])
    ensures Step(c, s, Store(0, Client, c.start, v)) == Scene(c, 0, Resting, 0, {}, Idle, [RefWrite(c.start, v)], [])
  {
    var b := [RefWrite(c.start, v)];
    assert Step(c, s, Store(0, Client, c.start, v)) == WithMutator(s, 0, s.mutators[0].(buffer := b)) by {
      ClientFilterDrops(c.start);
      StoreFiltered(c, s, Client, c.start, v);
      assert s.mutators[0].buffer + b == b;
    }
    SceneBuffered(c, s, b);
  }

  lemma SceneStoreDrained(c: Config, v: Addr)
    ensures Step(c, Scene(c, 0, Resting, 0, {}, Idle, [RefWrite(c.start, v)], []), Drain(0))
            ==
            Scene(c, 0, Resting, v, {}, Idle, [], [])
  {
    assert [RefWrite(c.start, v)][1..] == [];
  }

  lemma DroppedScene(c: Config, v: Addr)
    requires Cross(c.start, v)
    ensures !AllCovered(Scene(c, 0, Resting, v, {}, Idle, [], []))
    ensures Init(c, {}, Scene(c, 0, Resting, 0, {}, Idle, [], []))
  {
    assert !Covered(Scene(c, 0, Resting, v, {}, Idle, [], []), c.start);
  }

  lemma RunTwo(c: Config, s: State, e1: Event, e2: Event)
    ensures Run(c, s, [e1, e2]) == Step(c, Step(c, s, e1), e2)
  {
    assert [e1, e2][1..] == [e2] && [e2][1..] == [];
    assert Run(c, s, [e1, e2]) == Run(c, Step(c, s, e1), [e2]);
  }

  /** So a reference is lost, whatever the order. */
  lemma UnreachedLoses(c: Config)
    requires ValidHeap(c) && c.end - c.start > CLIENT_REACH
    ensures exists young, s0, es :: Init(c, young, s0) && !AllCovered(Run(c, s0, es))
  {
    var v := c.start + CLIENT_REACH;
    var s0, es := Scene(c, 0, Resting, 0, {}, Idle, [], []), [Store(0, Client, c.start, v), Drain(0)];
    SceneDropped(c, s0, v);
    SceneStoreDrained(c, v);
    ClientFilterDrops(c.start);
    DroppedScene(c, v);
    RunTwo(c, s0, es[0], es[1]);
    assert Init(c, {}, s0) && !AllCovered(Run(c, s0, es));
  }

  /** On a machine that buffers stores the barrier, which has no fence of its own, keeps every reference covered over
      every run exactly when something else orders the store before the card load or no card is cleaned, and the heap
      is within the reach of C1's filter. */
  lemma CoveredIffSafe(c: Config)
    requires TwoRegions(c)
    ensures (forall young, s0, es :: Init(c, young, s0) ==> AllCovered(Run(c, s0, es))) <==> Safe(c)
  {
    if Safe(c) {
      forall young, s0, es | Init(c, young, s0) ensures AllCovered(Run(c, s0, es)) {
        InitInv(c, young, s0);
        RunKeeps(c, young, s0, es);
      }
    } else if c.end - c.start > CLIENT_REACH {
      UnreachedLoses(c);
    } else {
      var r :| r in c.refiners;
      UnorderedLoses(c, r);
    }
  }
}
