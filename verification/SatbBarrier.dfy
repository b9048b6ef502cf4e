/** The snapshot-at-the-beginning write barrier (`g1_write_barrier_pre`) in front of reference stores, run by any
    number of threads while the collector marks.  A step is one access to shared memory or to the thread's own
    log queue. */
module SatbBarrier {
  import opened PtrQueue

  type Tid = nat
  /** An object reference; zero is null. */
  type Ref = nat

  datatype Field = Field(obj: Ref, slot: nat)
  type Heap = map<Field, Ref>

  /** Where a thread stands in the barrier and the store that follows it. */
  datatype Pc =
    | Idle
    | LoadActive(f: Field, v: Ref)
    | LoadPrevious(f: Field, v: Ref)
    | LogPrevious(f: Field, v: Ref, previous: Ref)
    | DoStore(f: Field, v: Ref)

  datatype Thread = Thread(pc: Pc, queue: Log)

  datatype State = State(heap: Heap, threads: map<Tid, Thread>)

  /** The flag read from the thread, and the capacity of log buffers. */
  datatype Config = Config(active: bool, capacity: nat)

  datatype Event =
    | Store(t: Tid, f: Field, v: Ref)
    | Allocate(t: Tid, obj: Ref, slots: nat)
    | Refill(t: Tid, buffer: seq<nat>)
    | Go(t: Tid)

  function At(s: State, t: Tid, pc: Pc): State
    requires t in s.threads
  {
    s.(threads := s.threads[t := s.threads[t].(pc := pc)])
  }

  /** A new object: its fields are null. */
  function Allocated(h: Heap, obj: Ref, slots: nat): Heap {
    h + map f | f in FieldsOf(obj, slots) :: 0
  }

  function FieldsOf(obj: Ref, slots: nat): set<Field> {
    set i | 0 <= i < slots :: Field(obj, i)
  }

  predicate Fresh(h: Heap, obj: Ref) {
    obj != 0 && forall f :: f in h ==> f.obj != obj
  }

  function GoStep(c: Config, s: State, t: Tid): State
    requires t in s.threads
  {
    var th := s.threads[t];
    match th.pc
    case Idle => s
    case LoadActive(f, v) => At(s, t, if c.active then LoadPrevious(f, v) else DoStore(f, v))
    case LoadPrevious(f, v) =>
      // a null previous value is filtered out
      At(s, t, if f !in s.heap || s.heap[f] == 0 then DoStore(f, v) else LogPrevious(f, v, s.heap[f]))
    case LogPrevious(f, v, previous) =>
      if Valid(th.queue) && th.queue.index != 0
      then s.(threads := s.threads[t := Thread(DoStore(f, v), Pushed(th.queue, previous))]) else s
    case DoStore(f, v) => State(s.heap[f := v], s.threads[t := th.(pc := Idle)])
  }

  function Step(c: Config, s: State, e: Event): State {
    if e.t !in s.threads then s
    else
      var th := s.threads[e.t];
      match e
      case Store(t, f, v) => if th.pc.Idle? && f in s.heap then At(s, t, LoadActive(f, v)) else s
      case Allocate(t, obj, slots) =>
        if th.pc.Idle? && Fresh(s.heap, obj) then s.(heap := Allocated(s.heap, obj, slots)) else s
      case Refill(t, buffer) =>
        if th.pc.LogPrevious? && th.queue.index == 0 && |buffer| == c.capacity
        then s.(threads := s.threads[t := th.(queue := Refilled(th.queue, buffer))]) else s
      case Go(t) => GoStep(c, s, t)
  }

  function Run(c: Config, s: State, es: seq<Event>): State
    decreases |es|
  {
    if es == [] then s else Run(c, Step(c, s, es[0]), es[1..])
  }

  /** The value is in some thread's log. */
  ghost predicate Logged(s: State, v: Ref) {
    exists t :: t in s.threads && Valid(s.threads[t].queue) && v in Entries(s.threads[t].queue)
  }

  // ---- every run: the snapshot is not lost ----

  /** The field still has its snapshot value, or that value is null or logged. */
  ghost predicate Kept(snap: Heap, s: State, f: Field)
    requires f in snap
  {
    f in s.heap && (s.heap[f] == snap[f] || snap[f] == 0 || Logged(s, snap[f]))
  }

  /** The snapshot value of a field about to be overwritten is safe. */
  ghost predicate Safe(snap: Heap, s: State, f: Field) {
    f in snap ==> snap[f] == 0 || Logged(s, snap[f])
  }

  ghost predicate PcOk(snap: Heap, s: State, pc: Pc) {
    match pc
    case LogPrevious(f, _, previous) => Safe(snap, s, f) || (f in snap && previous == snap[f])
    case DoStore(f, _) => Safe(snap, s, f)
    case _ => true
  }

  ghost predicate Inv(c: Config, snap: Heap, s: State) {
    && c.active
    && (forall t :: t in s.threads ==> Valid(s.threads[t].queue) && PcOk(snap, s, s.threads[t].pc))
    && (forall f :: f in snap ==> Kept(snap, s, f))
  }

  ghost predicate Init(c: Config, s: State) {
    c.active && forall t :: t in s.threads ==> s.threads[t].pc.Idle? && Valid(s.threads[t].queue)
  }

  /** The queue after a step of its thread. */
  lemma QueueAfter(c: Config, s: State, e: Event)
    requires e.t in s.threads
    ensures var th, q' := s.threads[e.t], Step(c, s, e).threads[e.t].queue;
            || q' == th.queue
            || (th.pc.LogPrevious? && Valid(th.queue) && th.queue.index != 0 && q' == Pushed(th.queue, th.pc.previous))
            || (e.Refill? && th.queue.index == 0 && q' == Refilled(th.queue, e.buffer))
  {
  }

  lemma QueueStepGrows(q: Log, q': Log, v: Ref, buffer: seq<nat>)
    requires Valid(q)
    requires q' == q || (q.index != 0 && q' == Pushed(q, v)) || (q.index == 0 && q' == Refilled(q, buffer))
    ensures Valid(q') && Entries(q) <= Entries(q')
  {
    if q.index != 0 { PushAdds(q, v); } else { RefillKeeps(q, buffer); }
  }

  /** A step leaves the entries of every queue in place. */
  lemma QueueGrows(c: Config, s: State, e: Event, t: Tid)
    requires t in s.threads && Valid(s.threads[t].queue)
    ensures t in Step(c, s, e).threads && Valid(Step(c, s, e).threads[t].queue)
    ensures Entries(s.threads[t].queue) <= Entries(Step(c, s, e).threads[t].queue)
  {
    var th, q' := s.threads[t], Step(c, s, e).threads[t].queue;
    if t == e.t {
      QueueAfter(c, s, e);
      var v, buffer := if th.pc.LogPrevious? then th.pc.previous else 0, if e.Refill? then e.buffer else [];
      QueueStepGrows(th.queue, q', v, buffer);
    } else {
      assert q' == th.queue;
    }
  }

  /** Logged values stay logged. */
  lemma LoggedStays(c: Config, s: State, e: Event, v: Ref)
    requires Logged(s, v)
    ensures Logged(Step(c, s, e), v)
  {
    var t :| t in s.threads && Valid(s.threads[t].queue) && v in Entries(s.threads[t].queue);
    QueueGrows(c, s, e, t);
    assert v in Entries(Step(c, s, e).threads[t].queue);
  }

  lemma QueuesStayValid(c: Config, s: State, e: Event)
    requires forall t :: t in s.threads ==> Valid(s.threads[t].queue)
    ensures forall t :: t in Step(c, s, e).threads ==> Valid(Step(c, s, e).threads[t].queue)
  {
    forall t | t in Step(c, s, e).threads ensures Valid(Step(c, s, e).threads[t].queue) { QueueGrows(c, s, e, t); }
  }

  lemma SafeStays(c: Config, snap: Heap, s: State, e: Event, f: Field)
    requires Safe(snap, s, f)
    ensures Safe(snap, Step(c, s, e), f)
  {
    if f in snap && snap[f] != 0 { LoggedStays(c, s, e, snap[f]); }
  }

  /** The thread that steps is where it may be. */
  lemma OwnPcOk(c: Config, snap: Heap, s: State, e: Event)
    requires Inv(c, snap, s) && e.t in s.threads
    ensures PcOk(snap, Step(c, s, e), Step(c, s, e).threads[e.t].pc)
  {
    var th := s.threads[e.t];
    var s' := Step(c, s, e);
    assert PcOk(snap, s, th.pc) && Valid(th.queue);
    match th.pc {
      case LogPrevious(f, v, previous) =>
        if Safe(snap, s, f) {
          SafeStays(c, snap, s, e, f);
        } else if e.Go? && th.queue.index != 0 {
          PushAdds(th.queue, previous);
          assert previous in Entries(s'.threads[e.t].queue);
        }
      case DoStore(f, v) => SafeStays(c, snap, s, e, f);
      case LoadPrevious(f, v) =>
        if f in snap {
          assert Kept(snap, s, f);
          if Safe(snap, s, f) { SafeStays(c, snap, s, e, f); }
        }
      case _ =>
    }
  }

  lemma FieldsStayKept(c: Config, snap: Heap, s: State, e: Event, f: Field)
    requires Inv(c, snap, s) && f in snap
    ensures Kept(snap, Step(c, s, e), f)
  {
    assert Kept(snap, s, f);
    if Safe(snap, s, f) { SafeStays(c, snap, s, e, f); }
    if e.t in s.threads { assert PcOk(snap, s, s.threads[e.t].pc); }
  }

  lemma StepKeeps(c: Config, snap: Heap, s: State, e: Event)
    requires Inv(c, snap, s)
    ensures Inv(c, snap, Step(c, s, e))
  {
    var s' := Step(c, s, e);
    QueuesStayValid(c, s, e);
    forall f | f in snap ensures Kept(snap, s', f) { FieldsStayKept(c, snap, s, e, f); }
    forall t | t in s'.threads ensures PcOk(snap, s', s'.threads[t].pc) {
      if t == e.t {
        OwnPcOk(c, snap, s, e);
      } else {
        var pc := s.threads[t].pc;
        assert s'.threads[t] == s.threads[t] && PcOk(snap, s, pc);
        if (pc.LogPrevious? || pc.DoStore?) && Safe(snap, s, pc.f) { SafeStays(c, snap, s, e, pc.f); }
      }
    }
  }

  lemma {:induction false} RunKeeps(c: Config, snap: Heap, s: State, es: seq<Event>)
    requires Inv(c, snap, s)
    ensures Inv(c, snap, Run(c, s, es))
    decreases |es|
  {
    if es != [] {
      StepKeeps(c, snap, s, es[0]);
      RunKeeps(c, snap, Step(c, s, es[0]), es[1..]);
    }
  }

  /** After any run of barriered stores each field has its snapshot value, or that value is null or logged. */
  lemma SnapshotComplete(c: Config, s0: State, es: seq<Event>, f: Field)
    requires Init(c, s0) && f in s0.heap
    ensures Kept(s0.heap, Run(c, s0, es), f)
  {
    RunKeeps(c, s0.heap, s0, es);
  }

  /** A thread left to itself, with room in its log, does what the store is for: the field gets its value and the
      log just the value overwritten, if that was not null. */
  lemma SoloStore(c: Config, s: State, t: Tid, f: Field, v: Ref)
    requires c.active && t in s.threads && s.threads[t].pc.Idle? && f in s.heap
    requires Valid(s.threads[t].queue) && s.threads[t].queue.index != 0
    ensures var q := s.threads[t].queue;
            var q' := if s.heap[f] == 0 then q else Pushed(q, s.heap[f]);
            Run(c, s, [Store(t, f, v), Go(t), Go(t), Go(t), Go(t)])
            ==
            State(s.heap[f := v], s.threads[t := Thread(Idle, q')])
  {
    var q := s.threads[t].queue;
    var q' := if s.heap[f] == 0 then q else Pushed(q, s.heap[f]);
    var s1 := Step(c, s, Store(t, f, v));
    var s2 := Step(c, s1, Go(t));
    var s3 := Step(c, s2, Go(t));
    var s4 := Step(c, s3, Go(t));
    assert s2.threads[t] == Thread(LoadPrevious(f, v), q) && s2.heap == s.heap;
    var pc := if s.heap[f] == 0 then DoStore(f, v) else LogPrevious(f, v, s.heap[f]);
    assert s3 == State(s.heap, s.threads[t := Thread(pc, q)]);
    assert Step(c, s4, Go(t)) == State(s.heap[f := v], s.threads[t := Thread(Idle, q')]);
    RunFive(c, s, [Store(t, f, v), Go(t), Go(t), Go(t), Go(t)]);
  }

  /** A new object has just its slots, all null; an address that is null or in use is no new object. */
  lemma NewObjectIsNull(c: Config, s: State, t: Tid, obj: Ref, slots: nat)
    requires t in s.threads && s.threads[t].pc.Idle?
    ensures var s' := Step(c, s, Allocate(t, obj, slots));
            if obj == 0 || exists f :: f in s.heap && f.obj == obj then s' == s
            else
              && s'.threads == s.threads
              && (forall f :: f in s'.heap <==> f in s.heap || (f.obj == obj && f.slot < slots))
              && (forall f :: f in s'.heap ==> s'.heap[f] == if f in s.heap then s.heap[f] else 0)
  {
    assert forall f :: f in FieldsOf(obj, slots) <==> f.obj == obj && f.slot < slots;
  }

  /** Outside marking a store is just that, whatever its queue looks like. */
  lemma SoloInactiveStore(c: Config, s: State, t: Tid, f: Field, v: Ref)
    requires !c.active && t in s.threads && s.threads[t].pc.Idle? && f in s.heap
    ensures Run(c, s, [Store(t, f, v), Go(t), Go(t)]) == State(s.heap[f := v], s.threads)
  {
    var s1 := Step(c, s, Store(t, f, v));
    var s2 := Step(c, s1, Go(t));
    assert s2 == At(s, t, DoStore(f, v));
    assert Step(c, s2, Go(t)) == State(s.heap[f := v], s.threads[t := s.threads[t]]);
    assert s.threads[t := s.threads[t]] == s.threads;
    var es := [Store(t, f, v), Go(t), Go(t)];
    assert es[1..] == [Go(t), Go(t)] && es[1..][1..] == [Go(t)] && es[1..][1..][1..] == [];
    assert Run(c, s, es) == Run(c, s1, es[1..]) == Run(c, s2, es[1..][1..]);
  }

  /** With a full queue the previous value goes into a new buffer, and none of the old entries is lost. */
  lemma SoloFullStore(c: Config, s: State, t: Tid, f: Field, v: Ref, buffer: seq<nat>)
    requires c.active && t in s.threads && s.threads[t].pc.Idle? && f in s.heap && s.heap[f] != 0
    requires Valid(s.threads[t].queue) && s.threads[t].queue.index == 0 && |buffer| == c.capacity > 0
    ensures var q := s.threads[t].queue;
            var s' := Run(c, s, [Store(t, f, v), Go(t), Go(t), Refill(t, buffer), Go(t), Go(t)]);
            && s'.heap == s.heap[f := v] && t in s'.threads && s'.threads == s.threads[t := s'.threads[t]]
            && s'.threads[t].pc.Idle? && Valid(s'.threads[t].queue)
            && Entries(s'.threads[t].queue) == Entries(q) + multiset{s.heap[f]}
  {
    var q, es := s.threads[t].queue, [Store(t, f, v), Go(t), Go(t), Refill(t, buffer), Go(t), Go(t)];
    var q1 := Refilled(q, buffer);
    RefillKeeps(q, buffer);
    PushAdds(q1, s.heap[f]);
    var s1 := Step(c, s, es[0]);
    var s2 := Step(c, s1, es[1]);
    assert s2 == At(s, t, LoadPrevious(f, v));
    var s3 := Step(c, s2, es[2]);
    assert s3 == At(s, t, LogPrevious(f, v, s.heap[f]));
    var s4 := Step(c, s3, es[3]);
    assert s4 == State(s.heap, s.threads[t := Thread(LogPrevious(f, v, s.heap[f]), q1)]);
    var s5 := Step(c, s4, es[4]);
    assert s5 == State(s.heap, s.threads[t := Thread(DoStore(f, v), Pushed(q1, s.heap[f]))]);
    RunFive(c, s1, es[1..]);
    assert Run(c, s, es) == Step(c, s5, es[5]);
  }

  lemma RunFive(c: Config, s: State, es: seq<Event>)
    requires |es| == 5
    ensures Run(c, s, es) == Step(c, Step(c, Step(c, Step(c, Step(c, s, es[0]), es[1]), es[2]), es[3]), es[4])
  {
    var s2 := Step(c, Step(c, s, es[0]), es[1]);
    var s4 := Step(c, Step(c, s2, es[2]), es[3]);
    assert es[1..][1..] == es[2..] && es[2..][1..] == es[3..] && es[3..][1..] == es[4..] && es[4..][1..] == [];
    assert Run(c, s, es) == Run(c, s2, es[2..]);
    assert es[2..][0] == es[2] && es[3..][0] == es[3];
    assert Run(c, s2, es[2..]) == Run(c, s4, es[4..]);
  }

  // ---- reachability ----

  /** Following these slots from one object leads to another. */
  ghost predicate Reaches(h: Heap, from: Ref, slots: seq<nat>, to: Ref)
    decreases |slots|
  {
    if slots == [] then from == to
    else
      var f := Field(from, slots[0]);
      f in h && h[f] != 0 && Reaches(h, h[f], slots[1..], to)
  }

  /** The snapshot edges no store has changed. */
  function Unmodified(snap: Heap, now: Heap): Heap {
    map f | f in snap && f in now && now[f] == snap[f] :: snap[f]
  }

  /** Reachable over unmodified snapshot edges from a snapshot root or a logged object. */
  ghost predicate Found(roots: set<Ref>, snap: Heap, s: State, obj: Ref) {
    exists start, slots ::
      (start in roots || Logged(s, start)) && Reaches(Unmodified(snap, s.heap), start, slots, obj)
  }

  lemma {:induction false} OneMore(h: Heap, from: Ref, slots: seq<nat>, mid: Ref, slot: nat)
    requires Reaches(h, from, slots, mid) && Field(mid, slot) in h && h[Field(mid, slot)] != 0
    ensures Reaches(h, from, slots + [slot], h[Field(mid, slot)])
    decreases |slots|
  {
    var longer := slots + [slot];
    if slots == [] {
      assert longer[1..] == [];
      assert Reaches(h, h[Field(mid, slot)], [], h[Field(mid, slot)]);
    } else {
      OneMore(h, h[Field(from, slots[0])], slots[1..], mid, slot);
      assert longer[1..] == slots[1..] + [slot];
    }
  }

  lemma {:induction false} FoundAlong(roots: set<Ref>, snap: Heap, s: State, mid: Ref, slots: seq<nat>, obj: Ref)
    requires forall f :: f in snap ==> Kept(snap, s, f)
    requires Found(roots, snap, s, mid) && Reaches(snap, mid, slots, obj)
    ensures Found(roots, snap, s, obj)
    decreases |slots|
  {
    if slots != [] {
      var f := Field(mid, slots[0]);
      assert Kept(snap, s, f);
      var u := Unmodified(snap, s.heap);
      if s.heap[f] == snap[f] {
        var start, before :| (start in roots || Logged(s, start)) && Reaches(u, start, before, mid);
        OneMore(u, start, before, mid, slots[0]);
      } else {
        assert Reaches(u, snap[f], [], snap[f]);
      }
      assert Found(roots, snap, s, snap[f]);
      FoundAlong(roots, snap, s, snap[f], slots[1..], obj);
    }
  }

  /** Whatever was reachable at the snapshot is still found from the snapshot's roots and the log. */
  lemma SnapshotReachable(c: Config, s0: State, es: seq<Event>, roots: set<Ref>, root: Ref, slots: seq<nat>, obj: Ref)
    requires Init(c, s0) && root in roots && Reaches(s0.heap, root, slots, obj)
    ensures Found(roots, s0.heap, Run(c, s0, es), obj)
  {
    var s := Run(c, s0, es);
    RunKeeps(c, s0.heap, s0, es);
    assert Reaches(Unmodified(s0.heap, s.heap), root, [], root);
    FoundAlong(roots, s0.heap, s, root, slots, obj);
  }

  /** A set of marked objects that is closed under the fields of the heap as it is now. */
  ghost predicate Closed(marked: set<Ref>, h: Heap) {
    forall f :: f in h && f.obj in marked && h[f] != 0 ==> h[f] in marked
  }

  lemma {:induction false} MarkedAlong(marked: set<Ref>, h: Heap, sub: Heap, from: Ref, slots: seq<nat>, to: Ref)
    requires Closed(marked, h) && from in marked && Reaches(sub, from, slots, to)
    requires forall f :: f in sub ==> f in h && h[f] == sub[f]
    ensures to in marked
    decreases |slots|
  {
    if slots != [] {
      MarkedAlong(marked, h, sub, sub[Field(from, slots[0])], slots[1..], to);
    }
  }

  /** Marking from the snapshot's roots and the log over the heap as it is at the end marks every object that was
      reachable at the snapshot. */
  lemma MarkingIsComplete(c: Config, s0: State, es: seq<Event>, roots: set<Ref>, marked: set<Ref>,
                          root: Ref, slots: seq<nat>, obj: Ref)
    requires Init(c, s0) && root in roots && Reaches(s0.heap, root, slots, obj)
    requires Closed(marked, Run(c, s0, es).heap) && roots <= marked
    requires forall v :: Logged(Run(c, s0, es), v) ==> v in marked
    ensures obj in marked
  {
    var s := Run(c, s0, es);
    SnapshotReachable(c, s0, es, roots, root, slots, obj);
    var u := Unmodified(s0.heap, s.heap);
    var start, path :| (start in roots || Logged(s, start)) && Reaches(u, start, path, obj);
    MarkedAlong(marked, s.heap, u, start, path, obj);
  }
}
