/** Safety of the locking protocol over every run: mutual exclusion, conservation of the header word,
    balanced recursion and stability of biases. */
module LockingSafety {
  import opened MarkWord
  import opened Locking

  // ---- the invariant ----

  /** Boxes are aligned addresses on the owner's stack, all different. */
  ghost predicate BoxesOk(c: Config, t: Word, boxes: seq<Word>) {
    && t in c.stacks
    && (forall i :: 0 <= i < |boxes| ==> OnStack(c, t, boxes[i]) && boxes[i] % 8 == 0)
    && (forall i, j :: 0 <= i < j < |boxes| ==> boxes[i] != boxes[j])
  }

  /** What holds of a thread whatever the state of the object. */
  ghost predicate Shape(c: Config, t: Word, th: Thread) {
    && BoxesOk(c, t, th.boxes)
    && (th.pc.Locking? ==>
          && OnStack(c, t, th.pc.box) && th.pc.box % 8 == 0 && th.pc.box !in th.boxes
          && OnStack(c, t, th.pc.sp) && th.pc.sp % 8 == 0
          && (th.pc.client ==> !c.lp64))
    && (th.pc.Unlocking? ==> th.boxes != [])
  }

  /** The thread is the one the header word has gone to. */
  predicate Active(th: Thread) {
    th.boxes != [] || (th.pc.Locking? && (th.pc.stage.SaveWon? || th.pc.stage.Publish?))
  }

  /** The outermost box is the mark and saves the header; every inner box saves zero. */
  ghost predicate Recursive(c: Config, m: Memory, boxes: seq<Word>) {
    boxes != [] ==>
      && boxes[0] == m.mark && m.saved(m.mark) == c.header
      && (forall i :: 1 <= i < |boxes| ==> m.saved(boxes[i]) == 0)
  }

  /** Registers in the lock code while the object is neutral, BUSY or stack-locked. */
  predicate LockOk(c: Config, m: Memory, box: Word, boxes: seq<Word>, stage: LockStage) {
    match stage
    case Load => true
    case RevokeCas(compare) => Biased(compare)
    case BusyCas(mark) => mark % 2 == 1
    case SaveWon(mark) => mark == c.header && m.mark == 0 && boxes == []
    case Publish => m.mark == 0 && m.saved(box) == c.header && boxes == []
    case SaveLost(_, scratch) => scratch == 0 ==> boxes != []
    case SaveRecursion(scratch) => scratch == 0 ==> boxes != []
    case ClientSave(mark) => mark % 2 == 1
    case ClientCas(mark) => mark % 2 == 1 && m.saved(box) == mark
    case _ => false
  }

  predicate ExitOk(c: Config, boxes: seq<Word>, exit: UnlockStage) {
    match exit
    case CheckBias => true
    case LoadMark => true
    case ClientLoadSaved => true
    case LoadSaved(mark) => !MonitorBit(mark)
    case RestoreCas(saved) => saved == c.header && |boxes| == 1
    case _ => false
  }

  ghost predicate StackOk(c: Config, m: Memory, th: Thread) {
    && Recursive(c, m, th.boxes)
    && (th.pc.Locking? ==> LockOk(c, m, th.pc.box, th.boxes, th.pc.stage))
    && (th.pc.Unlocking? ==> ExitOk(c, th.boxes, th.pc.exit))
  }

  ghost predicate StackPhase(c: Config, s: State) {
    && (s.mem.mark == c.header || s.mem.mark % 8 == 0)
    && (forall t :: t in s.threads ==> StackOk(c, s.mem, s.threads[t]))
    && (forall t, u :: t in s.threads && u in s.threads && Active(s.threads[t]) && Active(s.threads[u]) ==> t == u)
    && (s.mem.mark != c.header ==> exists t :: t in s.threads && Active(s.threads[t]))
  }

  /** A thread while the object is biased and its class still is. */
  ghost predicate BiasOk(c: Config, mark: Word, self: Word, th: Thread) {
    && (th.boxes != [] ==> ValidBias(c.lp64, mark, c.proto, self))
    && (th.pc.Locking? ==>
          || th.pc.stage.Load?
          || (th.pc.stage.BiasCas? && BiasOwner(c.lp64, th.pc.stage.compare) == 0
              && ValidBias(c.lp64, th.pc.stage.update, c.proto, self)))
    && (th.pc.Unlocking? ==> th.pc.exit.CheckBias?)
  }

  ghost predicate BiasPhase(c: Config, s: State) {
    && c.useBias && BiasedPrototype(c.lp64, c.proto)
    && (forall t :: t in s.threads ==> BiasOk(c, s.mem.mark, t, s.threads[t]))
  }

  /** A thread while the object is biased although its class no longer is. */
  predicate StaleOk(mark: Word, th: Thread) {
    && th.boxes == []
    && (th.pc.Locking? ==> th.pc.stage.Load? || th.pc.stage == RevokeCas(mark))
  }

  ghost predicate StalePhase(c: Config, s: State) {
    && c.useBias && c.proto == c.header
    && (forall t :: t in s.threads ==> StaleOk(s.mem.mark, s.threads[t]))
  }

  /** A thread while the object has a monitor. */
  predicate MonitorOk(m: Memory, self: Word, th: Thread) {
    && (th.boxes != [] ==> m.owner == self && |th.boxes| == 1 && m.saved(th.boxes[0]) != 0)
    && (th.pc.Locking? ==>
          match th.pc.stage
          case Load => true
          case OwnerCas => true
          case OwnerSave(seen) => seen == 0 ==> m.owner == self && th.boxes == []
          case ClientSave(mark) => mark % 2 == 1
          case ClientCas(mark) => mark % 2 == 1
          case SaveRecursion(scratch) => scratch != 0
          case _ => false)
    && (th.pc.Unlocking? ==>
          && (th.pc.exit.LoadSaved? ==> th.pc.exit.mark == m.mark)
          && (th.pc.exit.StoreOwner? ==> m.owner == self))
  }

  /** The thread has won the CAS of the owner and not yet given the monitor up. */
  predicate Owns(th: Thread) {
    th.boxes != [] || (th.pc.Locking? && th.pc.stage == OwnerSave(0))
  }

  ghost predicate MonitorPhase(s: State) {
    && (forall t :: t in s.threads ==> MonitorOk(s.mem, t, s.threads[t]))
    && (s.mem.owner != 0 ==> s.mem.owner in s.threads && Owns(s.threads[s.mem.owner]))
  }

  ghost predicate Shapes(c: Config, s: State) {
    s.threads.Keys == c.stacks.Keys && forall t :: t in s.threads ==> Shape(c, t, s.threads[t])
  }

  ghost predicate Inv(c: Config, s: State) {
    && ValidConfig(c) && Shapes(c, s)
    && if Biased(s.mem.mark) then BiasPhase(c, s) || StalePhase(c, s)
       else if Inflated(s.mem.mark) then s.mem.mark < Words(c.lp64) && MonitorPhase(s)
       else StackPhase(c, s)
  }

  // ---- shapes ----

  lemma ActShape(c: Config, m: Memory, e: Event, th: Thread)
    requires Shape(c, e.t, th)
    ensures Shape(c, e.t, Act(c, m, e, th).1)
  {
  }

  lemma StepShapes(c: Config, s: State, e: Event)
    requires Shapes(c, s)
    ensures Shapes(c, Step(c, s, e))
  {
    if e.t in s.threads {
      ActShape(c, s.mem, e, s.threads[e.t]);
      var s' := Step(c, s, e);
      assert s'.threads.Keys == s.threads.Keys;
      forall u | u in s'.threads ensures Shape(c, u, s'.threads[u]) {
      }
    }
  }

  // ---- the stack phase ----

  /** An active thread shows in the mark. */
  lemma ActiveMark(c: Config, m: Memory, t: Word, th: Thread)
    requires Shape(c, t, th) && StackOk(c, m, th) && Active(th)
    ensures m.mark % 8 == 0
    ensures m.mark == 0 || OnStack(c, t, m.mark)
    ensures m.mark != 0 ==> th.boxes != []
  {
  }

  /** An inactive thread does not depend on the mark. */
  lemma InactiveStays(c: Config, m: Memory, mark: Word, th: Thread)
    requires !Active(th) && StackOk(c, m, th)
    ensures StackOk(c, m.(mark := mark), th)
  {
  }

  /** A store into a box of one thread is invisible to the others. */
  lemma ForeignSave(c: Config, m: Memory, t: Word, box: Word, value: Word, u: Word, th: Thread)
    requires Separated(c) && t in c.stacks && t != u && OnStack(c, t, box)
    requires Shape(c, u, th) && StackOk(c, m, th)
    ensures StackOk(c, Save(m, box, value), th)
  {
    assert forall b :: OnStack(c, u, b) ==> b != box;
  }

  /** What a mark can be in the stack phase. */
  predicate StackMark(c: Config, mark: Word) {
    mark == c.header || mark % 8 == 0
  }

  // A thread's step in the stack phase, seen from that thread.

  /** Entering the CAS lock with any word that is not a monitor. */
  lemma LocalEnter(c: Config, m: Memory, th: Thread, mark: Word)
    requires th.pc.Locking? && StackOk(c, m, th) && !MonitorBit(mark)
    ensures StackOk(c, m, Leave(th, th.pc.box, th.pc.sp, th.pc.client, Next(AfterBias(th.pc.client, mark))))
  {
    MarkFacts(mark);
  }

  lemma LocalLoad(c: Config, m: Memory, self: Word, th: Thread)
    requires Neutral(c.header) && StackMark(c, m.mark) && StackOk(c, m, th)
    requires th.pc.Locking? && th.pc.stage.Load?
    ensures var r := Advance(c, m, self, th);
            r.0 == m && StackOk(c, m, r.1) && Active(r.1) == Active(th)
  {
    MarkFacts(m.mark);
    LocalEnter(c, m, th, m.mark);
    assert Loaded(c, self, th.pc.client, m.mark) == Next(AfterBias(th.pc.client, m.mark));
  }

  lemma LocalRevoke(c: Config, m: Memory, self: Word, th: Thread)
    requires Neutral(c.header) && StackMark(c, m.mark) && StackOk(c, m, th)
    requires th.pc.Locking? && th.pc.stage.RevokeCas?
    ensures var r := Advance(c, m, self, th);
            r.0 == m && StackOk(c, m, r.1) && Active(r.1) == Active(th)
  {
    LocalEnter(c, m, th, th.pc.stage.compare);
  }

  /** The CAS of the lock code is won only against the header itself. */
  lemma LocalWon(c: Config, m: Memory, self: Word, th: Thread)
    requires Neutral(c.header) && StackMark(c, m.mark) && StackOk(c, m, th) && !Active(th)
    requires th.pc.Locking? && (th.pc.stage.BusyCas? || th.pc.stage.ClientCas?) && m.mark == th.pc.stage.mark
    ensures var r := Advance(c, m, self, th);
            && m.mark == c.header
            && r.0 == m.(mark := if th.pc.stage.BusyCas? then 0 else th.pc.box)
            && StackOk(c, r.0, r.1) && Active(r.1)
  {
  }

  lemma LocalLost(c: Config, m: Memory, self: Word, th: Thread)
    requires StackOk(c, m, th)
    requires th.pc.Locking? && (th.pc.stage.BusyCas? || th.pc.stage.ClientCas?) && m.mark != th.pc.stage.mark
    requires Recursion(c, th.pc.sp, th.pc.client, m.mark) == 0 ==> th.boxes != []
    ensures var r := Advance(c, m, self, th);
            r.0 == m && StackOk(c, m, r.1) && Active(r.1) == Active(th)
  {
  }

  lemma LocalPublish(c: Config, m: Memory, self: Word, th: Thread)
    requires StackOk(c, m, th) && th.pc.Locking? && th.pc.stage.Publish?
    ensures var r := Advance(c, m, self, th);
            r.0 == m.(mark := th.pc.box) && StackOk(c, r.0, r.1) && Active(r.1)
  {
  }

  /** The stages that store into the thread's own new box. */
  lemma LocalSave(c: Config, m: Memory, self: Word, t: Word, th: Thread)
    requires Shape(c, t, th) && StackOk(c, m, th) && th.pc.Locking?
    requires th.pc.stage.SaveWon? || th.pc.stage.SaveLost? || th.pc.stage.ClientSave?
    ensures var r := Advance(c, m, self, th);
            && r.0 == Save(m, th.pc.box, th.pc.stage.mark)
            && StackOk(c, r.0, r.1) && Active(r.1) == Active(th)
  {
  }

  lemma LocalRecursion(c: Config, m: Memory, self: Word, t: Word, th: Thread)
    requires Shape(c, t, th) && StackOk(c, m, th) && th.pc.Locking? && th.pc.stage.SaveRecursion?
    ensures var r := Advance(c, m, self, th);
            && r.0 == Save(m, th.pc.box, th.pc.stage.scratch)
            && StackOk(c, r.0, r.1) && Active(r.1) == Active(th)
  {
  }

  lemma LocalUnlock(c: Config, m: Memory, self: Word, th: Thread)
    requires Neutral(c.header) && StackMark(c, m.mark) && StackOk(c, m, th) && th.boxes != []
    requires th.pc.Unlocking? && (th.pc.exit.CheckBias? || th.pc.exit.LoadMark?)
    ensures var r := Advance(c, m, self, th);
            r.0 == m && StackOk(c, m, r.1) && Active(r.1) == Active(th)
  {
    MarkFacts(m.mark);
  }

  /** A box that saves something other than zero is the outermost one. */
  lemma LocalUnlockSaved(c: Config, m: Memory, self: Word, th: Thread)
    requires Neutral(c.header) && StackOk(c, m, th) && th.boxes != []
    requires th.pc.Unlocking? && (th.pc.exit.LoadSaved? || th.pc.exit.ClientLoadSaved?)
    ensures var r := Advance(c, m, self, th);
            r.0 == m && StackOk(c, m, r.1) && Active(r.1) == Active(th)
  {
  }

  lemma LocalRestore(c: Config, m: Memory, self: Word, t: Word, th: Thread)
    requires Shape(c, t, th) && StackOk(c, m, th) && th.pc.Unlocking? && th.pc.exit.RestoreCas?
    ensures var r := Advance(c, m, self, th);
            r.0 == m.(mark := c.header) && StackOk(c, r.0, r.1) && !Active(r.1)
  {
  }

  // The step seen from the whole system.

  /** Putting a stack-phase state together again after a step of `t` that moved no header. */
  lemma Kept(c: Config, s: State, t: Word, m: Memory, th: Thread)
    requires StackPhase(c, s) && t in s.threads
    requires m.mark == s.mem.mark && Active(th) == Active(s.threads[t]) && StackOk(c, m, th)
    requires forall u :: u in s.threads && u != t ==> StackOk(c, m, s.threads[u])
    ensures StackPhase(c, State(m, s.threads[t := th]))
  {
    var s' := State(m, s.threads[t := th]);
    forall u | u in s'.threads ensures StackOk(c, m, s'.threads[u]) {
    }
    forall u | u in s'.threads ensures Active(s'.threads[u]) == Active(s.threads[u]) {
    }
    if m.mark != c.header {
      var u :| u in s.threads && Active(s.threads[u]);
      assert u in s'.threads && Active(s'.threads[u]);
    }
  }

  /** The same after a step of `t` that moved the header, while all the others are inactive. */
  lemma Moved(c: Config, s: State, t: Word, mark: Word, th: Thread)
    requires StackPhase(c, s) && t in s.threads
    requires forall u :: u in s.threads && u != t ==> !Active(s.threads[u])
    requires StackOk(c, s.mem.(mark := mark), th)
    requires if Active(th) then mark % 8 == 0 else mark == c.header
    ensures StackPhase(c, State(s.mem.(mark := mark), s.threads[t := th]))
  {
    var s' := State(s.mem.(mark := mark), s.threads[t := th]);
    forall u | u in s'.threads ensures StackOk(c, s'.mem, s'.threads[u]) {
      if u != t { InactiveStays(c, s.mem, mark, s.threads[u]); }
    }
    if Active(th) { assert Active(s'.threads[t]); }
  }

  ghost predicate InStackPhase(c: Config, s: State, t: Word) {
    && ValidConfig(c) && Shapes(c, s) && StackPhase(c, s)
    && t in s.threads && t in c.stacks
  }

  lemma OthersInactive(c: Config, s: State, t: Word)
    requires InStackPhase(c, s, t) && (s.mem.mark == c.header || Active(s.threads[t]))
    ensures forall u :: u in s.threads && u != t ==> !Active(s.threads[u])
    ensures s.mem.mark == c.header ==> !Active(s.threads[t])
  {
    forall u | u in s.threads && Active(s.threads[u]) ensures s.mem.mark != c.header {
      ActiveMark(c, s.mem, u, s.threads[u]);
    }
  }

  /** A mark less than a page above a thread's stack pointer is that thread's own box. */
  lemma NearMeansOwner(c: Config, s: State, t: Word, sp: Word)
    requires InStackPhase(c, s, t) && OnStack(c, t, sp)
    requires s.mem.mark != c.header && sp <= s.mem.mark < sp + 4096
    ensures s.threads[t].boxes != []
  {
    var u :| u in s.threads && Active(s.threads[u]);
    ActiveMark(c, s.mem, u, s.threads[u]);
  }

  lemma RecursionNear(c: Config, sp: Word, client: bool, seen: Word)
    requires sp % 8 == 0 && 4096 <= sp <= Words(c.lp64) - 4096 && seen < Words(c.lp64) && (client ==> !c.lp64)
    requires Recursion(c, sp, client, seen) == 0
    ensures sp <= seen < sp + 4096 && seen % 4 == 0
  {
    SubCases(c.lp64, sp, StackBias(c.lp64));
    if client { ClientRecursionIffNear(c.lp64, seen, sp); } else { ServerRecursionIffNear(c.lp64, seen, sp); }
  }

  lemma StackBounds(c: Config, t: Word, a: Word)
    requires Separated(c) && t in c.stacks && OnStack(c, t, a)
    ensures 4096 <= a <= Words(c.lp64) - 4096
  {
  }

  /** The recursion test succeeds only for the thread that already holds the lock. */
  lemma RecursionMeansOwner(c: Config, s: State, t: Word, sp: Word, client: bool)
    requires InStackPhase(c, s, t) && OnStack(c, t, sp) && sp % 8 == 0 && (client ==> !c.lp64)
    requires s.mem.mark < Words(c.lp64) && Recursion(c, sp, client, s.mem.mark) == 0
    ensures s.threads[t].boxes != []
  {
    assert sp <= s.mem.mark < sp + 4096 && s.mem.mark % 4 == 0 by {
      StackBounds(c, t, sp);
      RecursionNear(c, sp, client, s.mem.mark);
    }
    assert s.mem.mark != c.header by { MarkFacts(c.header); }
    NearMeansOwner(c, s, t, sp);
  }

  lemma MarkIsWord(c: Config, s: State, t: Word)
    requires InStackPhase(c, s, t)
    ensures s.mem.mark < Words(c.lp64)
  {
    if s.mem.mark != c.header {
      var u :| u in s.threads && Active(s.threads[u]);
      ActiveMark(c, s.mem, u, s.threads[u]);
    }
  }

  lemma StackCas(c: Config, s: State, t: Word)
    requires InStackPhase(c, s, t) && s.threads[t].pc.Locking?
    requires s.threads[t].pc.stage.BusyCas? || s.threads[t].pc.stage.ClientCas?
    ensures StackPhase(c, Step(c, s, Go(t)))
  {
    var th := s.threads[t];
    var r := Advance(c, s.mem, t, th);
    assert Shape(c, t, th) && StackOk(c, s.mem, th);
    if s.mem.mark == th.pc.stage.mark {
      OthersInactive(c, s, t);
      LocalWon(c, s.mem, t, th);
      Moved(c, s, t, r.0.mark, r.1);
    } else {
      if Recursion(c, th.pc.sp, th.pc.client, s.mem.mark) == 0 {
        MarkIsWord(c, s, t);
        RecursionMeansOwner(c, s, t, th.pc.sp, th.pc.client);
      }
      LocalLost(c, s.mem, t, th);
      Kept(c, s, t, r.0, r.1);
    }
  }

  lemma StackSave(c: Config, s: State, t: Word)
    requires InStackPhase(c, s, t) && s.threads[t].pc.Locking?
    requires var stage := s.threads[t].pc.stage;
             stage.SaveWon? || stage.SaveLost? || stage.ClientSave? || stage.SaveRecursion?
    ensures StackPhase(c, Step(c, s, Go(t)))
  {
    var th := s.threads[t];
    var r := Advance(c, s.mem, t, th);
    assert Shape(c, t, th) && StackOk(c, s.mem, th);
    if th.pc.stage.SaveRecursion? { LocalRecursion(c, s.mem, t, t, th); } else { LocalSave(c, s.mem, t, t, th); }
    forall u | u in s.threads && u != t ensures StackOk(c, r.0, s.threads[u]) {
      ForeignSave(c, s.mem, t, th.pc.box, r.0.saved(th.pc.box), u, s.threads[u]);
    }
    Kept(c, s, t, r.0, r.1);
  }

  lemma StackLock(c: Config, s: State, t: Word)
    requires InStackPhase(c, s, t) && s.threads[t].pc.Locking?
    ensures StackPhase(c, Step(c, s, Go(t)))
  {
    var th := s.threads[t];
    var r := Advance(c, s.mem, t, th);
    assert Shape(c, t, th) && StackOk(c, s.mem, th);
    match th.pc.stage {
      case Load => LocalLoad(c, s.mem, t, th); Kept(c, s, t, r.0, r.1);
      case RevokeCas(_) => LocalRevoke(c, s.mem, t, th); Kept(c, s, t, r.0, r.1);
      case BusyCas(_) => StackCas(c, s, t);
      case ClientCas(_) => StackCas(c, s, t);
      case Publish =>
        OthersInactive(c, s, t);
        LocalPublish(c, s.mem, t, th);
        Moved(c, s, t, th.pc.box, r.1);
      case _ => StackSave(c, s, t);
    }
  }

  lemma StackUnlock(c: Config, s: State, t: Word)
    requires InStackPhase(c, s, t) && s.threads[t].pc.Unlocking?
    ensures StackPhase(c, Step(c, s, Go(t)))
  {
    var th := s.threads[t];
    var r := Advance(c, s.mem, t, th);
    assert Shape(c, t, th) && StackOk(c, s.mem, th);
    if th.pc.exit.RestoreCas? {
      OthersInactive(c, s, t);
      LocalRestore(c, s.mem, t, t, th);
      Moved(c, s, t, c.header, r.1);
    } else {
      if th.pc.exit.CheckBias? || th.pc.exit.LoadMark? {
        LocalUnlock(c, s.mem, t, th);
      } else {
        LocalUnlockSaved(c, s.mem, t, th);
      }
      Kept(c, s, t, r.0, r.1);
    }
  }

  /** A thread entering the code or staying outside. */
  lemma StackEnter(c: Config, s: State, e: Event)
    requires InStackPhase(c, s, e.t) && (e.Go? ==> s.threads[e.t].pc.Idle?)
    ensures StackPhase(c, Step(c, s, e))
  {
    var r := Act(c, s.mem, e, s.threads[e.t]);
    assert StackOk(c, s.mem, s.threads[e.t]);
    Kept(c, s, e.t, r.0, r.1);
  }

  lemma StackStep(c: Config, s: State, e: Event)
    requires ValidConfig(c) && Shapes(c, s) && StackPhase(c, s)
    ensures StackPhase(c, Step(c, s, e))
  {
    if e.t in s.threads {
      if !e.Go? || s.threads[e.t].pc.Idle? {
        StackEnter(c, s, e);
      } else if s.threads[e.t].pc.Locking? {
        StackLock(c, s, e.t);
      } else {
        StackUnlock(c, s, e.t);
      }
    }
  }

  // ---- the bias phase ----

  lemma BiasLocal(c: Config, m: Memory, t: Word, th: Thread)
    requires c.useBias && BiasedPrototype(c.lp64, c.proto) && ThreadPointer(t)
    requires Biased(m.mark) && BiasOk(c, m.mark, t, th) && (th.pc.Unlocking? ==> th.boxes != [])
    ensures var r := Advance(c, m, t, th);
            && Biased(r.0.mark) && BiasOk(c, r.0.mark, t, r.1)
            && (r.0.mark != m.mark ==> BiasOwner(c.lp64, m.mark) == 0)
  {
    if th.pc.Locking? {
      TriageBiasedPrototype(c.lp64, m.mark, c.proto, t);
    }
  }

  /** Steps of the bias phase stay in it, and none replaces a mark that has an owner. */
  lemma BiasStep(c: Config, s: State, e: Event)
    requires ValidConfig(c) && Shapes(c, s) && Biased(s.mem.mark) && BiasPhase(c, s)
    ensures Biased(Step(c, s, e).mem.mark) && BiasPhase(c, Step(c, s, e))
    ensures BiasOwner(c.lp64, s.mem.mark) != 0 ==> Step(c, s, e).mem.mark == s.mem.mark
  {
    if e.t in s.threads {
      var r := Act(c, s.mem, e, s.threads[e.t]);
      assert Shape(c, e.t, s.threads[e.t]) && BiasOk(c, s.mem.mark, e.t, s.threads[e.t]);
      BiasLocal(c, s.mem, e.t, s.threads[e.t]);
      forall u | u in s.threads && u != e.t ensures BiasOk(c, r.0.mark, u, s.threads[u]) {
        assert BiasOk(c, s.mem.mark, u, s.threads[u]);
      }
    }
  }

  // ---- the stale phase ----

  lemma StaleLocal(c: Config, m: Memory, t: Word, th: Thread)
    requires c.useBias && c.proto == c.header && Neutral(c.header) && ThreadPointer(t)
    requires Biased(m.mark) && StaleOk(m.mark, th)
    ensures var r := Advance(c, m, t, th);
            && r.1.boxes == []
            && if th.pc.Locking? && th.pc.stage.RevokeCas?
               then r.0 == m.(mark := c.header) && StackOk(c, r.0, r.1) && !Active(r.1)
               else r.0 == m && (th.pc.Unlocking? || StaleOk(m.mark, r.1))
  {
    MarkFacts(m.mark);
    MarkFacts(c.header);
    if th.pc.Locking? { TriagePlainPrototype(c.lp64, m.mark, c.proto, t); }
  }

  /** The first revocation turns the mark into the header; until then nothing changes it. */
  lemma StaleStep(c: Config, s: State, e: Event)
    requires ValidConfig(c) && Shapes(c, s) && Biased(s.mem.mark) && StalePhase(c, s)
    ensures var s' := Step(c, s, e);
            || (s'.mem.mark == s.mem.mark && StalePhase(c, s'))
            || (s'.mem.mark == c.header && StackPhase(c, s'))
  {
    if e.t in s.threads {
      var th := s.threads[e.t];
      var r := Act(c, s.mem, e, th);
      assert Shape(c, e.t, th) && StaleOk(s.mem.mark, th);
      StaleLocal(c, s.mem, e.t, th);
      if e.Go? && th.pc.Locking? && th.pc.stage.RevokeCas? {
        forall u | u in s.threads && u != e.t
          ensures StackOk(c, r.0, s.threads[u]) && !Active(s.threads[u])
        {
          assert StaleOk(s.mem.mark, s.threads[u]) && Shape(c, u, s.threads[u]);
        }
      }
    }
  }

  // ---- the monitor phase ----

  ghost predicate MonitorKept(c: Config, m: Memory, t: Word, th: Thread, r: (Memory, Thread)) {
    && r.0.mark == m.mark && MonitorOk(r.0, t, r.1)
    && (r.0.owner != m.owner ==> (m.owner == 0 && r.0.owner == t) || (m.owner == t && r.0.owner == 0))
    && (r.0.owner == t && (m.owner == t ==> Owns(th)) ==> Owns(r.1))
    && t in c.stacks && (forall a :: r.0.saved(a) != m.saved(a) ==> OnStack(c, t, a))
  }

  /** C1's CAS is lost, for its compare value is odd. */
  lemma MonitorCasLocal(c: Config, m: Memory, t: Word, th: Thread)
    requires Inflated(m.mark) && Shape(c, t, th) && MonitorOk(m, t, th)
    requires th.pc.Locking? && th.pc.stage.ClientCas? && Recursion(c, th.pc.sp, th.pc.client, m.mark) != 0
    ensures MonitorKept(c, m, t, th, Advance(c, m, t, th))
  {
    var scratch := Recursion(c, th.pc.sp, th.pc.client, m.mark);
    MarkFacts(m.mark);
    assert Advance(c, m, t, th) == (m, th.(pc := th.pc.(stage := SaveRecursion(scratch))));
  }

  lemma NoRecursionOnMonitor(c: Config, t: Word, th: Thread, mark: Word)
    requires Separated(c) && t in c.stacks && Shape(c, t, th) && th.pc.Locking?
    requires Inflated(mark) && mark < Words(c.lp64)
    ensures Recursion(c, th.pc.sp, th.pc.client, mark) != 0
  {
    StackBounds(c, t, th.pc.sp);
    if Recursion(c, th.pc.sp, th.pc.client, mark) == 0 { RecursionNear(c, th.pc.sp, th.pc.client, mark); }
  }

  lemma MonitorSaveLocal(c: Config, m: Memory, t: Word, th: Thread)
    requires Separated(c) && ThreadPointer(t) && Shape(c, t, th) && MonitorOk(m, t, th)
    requires th.pc.Locking? && !th.pc.stage.Load? && !th.pc.stage.ClientCas?
    ensures MonitorKept(c, m, t, th, Advance(c, m, t, th))
  {
    StackBounds(c, t, th.pc.box);
  }

  lemma MonitorLoadLocal(c: Config, m: Memory, t: Word, th: Thread)
    requires Inflated(m.mark) && Shape(c, t, th) && MonitorOk(m, t, th)
    requires th.pc.Locking? && th.pc.stage.Load?
    ensures MonitorKept(c, m, t, th, Advance(c, m, t, th))
  {
    MarkFacts(m.mark);
    assert Loaded(c, t, th.pc.client, m.mark) == Next(AfterBias(th.pc.client, m.mark));
  }

  lemma MonitorUnlockLocal(c: Config, m: Memory, t: Word, th: Thread)
    requires Separated(c) && ThreadPointer(t) && Inflated(m.mark) && Shape(c, t, th) && MonitorOk(m, t, th)
    requires th.pc.Unlocking?
    ensures MonitorKept(c, m, t, th, Advance(c, m, t, th))
  {
    MarkFacts(m.mark);
    assert !Biased(m.mark) && MonitorBit(m.mark) && m.mark % 8 != 0;
  }

  lemma MonitorActLocal(c: Config, m: Memory, e: Event, th: Thread)
    requires Separated(c) && e.t in c.stacks && ThreadPointer(e.t) && Inflated(m.mark) && m.mark < Words(c.lp64)
    requires Shape(c, e.t, th) && MonitorOk(m, e.t, th)
    ensures MonitorKept(c, m, e.t, th, Act(c, m, e, th))
  {
    if e.Go? && th.pc.Locking? {
      if th.pc.stage.Load? {
        MonitorLoadLocal(c, m, e.t, th);
      } else if th.pc.stage.ClientCas? {
        NoRecursionOnMonitor(c, e.t, th, m.mark);
        MonitorCasLocal(c, m, e.t, th);
      } else {
        MonitorSaveLocal(c, m, e.t, th);
      }
    } else if e.Go? && th.pc.Unlocking? {
      MonitorUnlockLocal(c, m, e.t, th);
    }
  }

  lemma MonitorStep(c: Config, s: State, e: Event)
    requires ValidConfig(c) && Shapes(c, s) && Inflated(s.mem.mark) && s.mem.mark < Words(c.lp64) && MonitorPhase(s)
    ensures Step(c, s, e).mem.mark == s.mem.mark && MonitorPhase(Step(c, s, e))
  {
    if e.t in s.threads {
      var th := s.threads[e.t];
      var r := Act(c, s.mem, e, th);
      assert Shape(c, e.t, th) && MonitorOk(s.mem, e.t, th);
      MonitorActLocal(c, s.mem, e, th);
      forall u | u in s.threads && u != e.t ensures MonitorOk(r.0, u, s.threads[u]) {
        assert MonitorOk(s.mem, u, s.threads[u]) && Shape(c, u, s.threads[u]);
      }
    }
  }

  // ---- every run ----

  /** All threads are outside the code and hold nothing.  The object starts neutral; biased (perhaps in an old
      epoch) with a class that still is; biased with a class that no longer is; or with an unowned monitor. */
  ghost predicate Init(c: Config, s: State) {
    && ValidConfig(c) && s.threads.Keys == c.stacks.Keys
    && (forall t :: t in s.threads ==> s.threads[t] == Thread(Idle, []))
    && (|| s.mem.mark == c.header
        || (c.useBias && Biased(s.mem.mark) && BiasedPrototype(c.lp64, c.proto))
        || (c.useBias && Biased(s.mem.mark) && c.proto == c.header)
        || (Inflated(s.mem.mark) && s.mem.mark < Words(c.lp64) && s.mem.owner == 0))
  }

  lemma InitInv(c: Config, s: State)
    requires Init(c, s)
    ensures Inv(c, s)
  {
  }

  lemma StackPhaseInv(c: Config, s: State)
    requires ValidConfig(c) && Shapes(c, s) && StackPhase(c, s)
    ensures Inv(c, s) && !Biased(s.mem.mark) && !Inflated(s.mem.mark)
  {
    MarkFacts(s.mem.mark);
    assert s.mem.mark % 8 == 0 || s.mem.mark == c.header;
  }

  lemma BiasedStepInv(c: Config, s: State, e: Event)
    requires Inv(c, s) && Biased(s.mem.mark)
    ensures Inv(c, Step(c, s, e))
  {
    StepShapes(c, s, e);
    if BiasPhase(c, s) {
      BiasStep(c, s, e);
    } else {
      StaleStep(c, s, e);
      var s' := Step(c, s, e);
      if s'.mem.mark == c.header { StackPhaseInv(c, s'); }
    }
  }

  lemma StepInv(c: Config, s: State, e: Event)
    requires Inv(c, s)
    ensures Inv(c, Step(c, s, e))
    ensures !Biased(s.mem.mark) ==> !Biased(Step(c, s, e).mem.mark)
  {
    StepShapes(c, s, e);
    if Biased(s.mem.mark) {
      BiasedStepInv(c, s, e);
    } else if Inflated(s.mem.mark) {
      MonitorStep(c, s, e);
    } else {
      StackStep(c, s, e);
      StackPhaseInv(c, Step(c, s, e));
    }
  }

  lemma {:induction false} RunInv(c: Config, s: State, es: seq<Event>)
    requires Inv(c, s)
    ensures Inv(c, Run(c, s, es))
    decreases |es|
  {
    if es != [] {
      StepInv(c, s, es[0]);
      RunInv(c, Step(c, s, es[0]), es[1..]);
    }
  }

  /** A state some run leads to. */
  ghost predicate Reachable(c: Config, s: State) {
    exists s0, es :: Init(c, s0) && s == Run(c, s0, es)
  }

  lemma ReachableInv(c: Config, s: State)
    requires Reachable(c, s)
    ensures Inv(c, s)
  {
    var s0, es :| Init(c, s0) && s == Run(c, s0, es);
    InitInv(c, s0);
    RunInv(c, s0, es);
  }

  // ---- theorems ----

  /** At most one thread holds the object, whatever mix of C1, C2, recursive, biased and inflated fast paths ran. */
  lemma MutualExclusion(c: Config, s: State, t: Word, u: Word)
    requires Reachable(c, s) && Holds(s, t) && Holds(s, u)
    ensures t == u
  {
    ReachableInv(c, s);
    if Biased(s.mem.mark) {
      assert BiasPhase(c, s) ==> BiasOk(c, s.mem.mark, t, s.threads[t]) && BiasOk(c, s.mem.mark, u, s.threads[u]);
      assert StalePhase(c, s) ==> StaleOk(s.mem.mark, s.threads[t]);
    } else if Inflated(s.mem.mark) {
      assert MonitorOk(s.mem, t, s.threads[t]) && MonitorOk(s.mem, u, s.threads[u]);
    } else {
      assert Active(s.threads[t]) && Active(s.threads[u]);
    }
  }

  /** The thread has won the CAS of BUSY and has the header in its mark register, then also in its box. */
  predicate Installing(c: Config, s: State, t: Word) {
    && t in s.threads && s.threads[t].pc.Locking?
    && match s.threads[t].pc.stage
       case SaveWon(mark) => mark == c.header
       case Publish => s.mem.saved(s.threads[t].pc.box) == c.header
       case _ => false
  }

  /** The mark is the thread's outermost box, which saves the header; its inner boxes save zero. */
  ghost predicate Displaced(c: Config, s: State, t: Word) {
    && Holds(s, t) && s.threads[t].boxes[0] == s.mem.mark && s.mem.saved(s.mem.mark) == c.header
    && (forall i :: 1 <= i < |s.threads[t].boxes| ==> s.mem.saved(s.threads[t].boxes[i]) == 0)
  }

  /** The header is in the mark and nowhere else. */
  ghost predicate HeaderInMark(c: Config, s: State) {
    s.mem.mark == c.header && forall t :: !Installing(c, s, t) && !Holds(s, t)
  }

  /** The header is with the one thread that installed BUSY. */
  ghost predicate HeaderInRegister(c: Config, s: State) {
    && s.mem.mark == 0 && (forall t :: !Holds(s, t))
    && (exists t :: Installing(c, s, t) && forall u :: u != t ==> !Installing(c, s, u))
  }

  /** The header is in the box the mark points to, the outermost box of the one thread that holds the object. */
  ghost predicate HeaderInBox(c: Config, s: State) {
    && s.mem.mark % 8 == 0 && s.mem.mark != 0 && (forall t :: !Installing(c, s, t))
    && (exists t :: Displaced(c, s, t) && forall u :: u != t ==> !Holds(s, u))
  }

  lemma ActiveHasHeader(c: Config, s: State, t: Word)
    requires InStackPhase(c, s, t) && Active(s.threads[t])
    ensures if Holds(s, t) then Displaced(c, s, t) && !Installing(c, s, t) && s.mem.mark != 0
            else Installing(c, s, t) && s.mem.mark == 0
    ensures s.mem.mark % 8 == 0
  {
    assert Shape(c, t, s.threads[t]) && StackOk(c, s.mem, s.threads[t]);
  }

  lemma InactiveHasNoHeader(c: Config, s: State, t: Word)
    requires t in s.threads ==> !Active(s.threads[t])
    ensures !Installing(c, s, t) && !Holds(s, t)
  {
  }

  /** While the object is neither biased nor inflated its header is in exactly one place: the mark, the registers
      of the one thread that installed BUSY, or the box the mark points to. */
  lemma HeaderConservation(c: Config, s: State)
    requires Reachable(c, s) && !Biased(s.mem.mark) && !Inflated(s.mem.mark)
    ensures HeaderInMark(c, s) || HeaderInRegister(c, s) || HeaderInBox(c, s)
    ensures !(HeaderInMark(c, s) && HeaderInRegister(c, s))
    ensures !(HeaderInMark(c, s) && HeaderInBox(c, s)) && !(HeaderInRegister(c, s) && HeaderInBox(c, s))
  {
    ReachableInv(c, s);
    if s.mem.mark == c.header {
      forall t ensures !Installing(c, s, t) && !Holds(s, t) {
        if t in s.threads { OthersInactive(c, s, t); }
        InactiveHasNoHeader(c, s, t);
      }
    } else {
      var t :| t in s.threads && Active(s.threads[t]);
      ActiveHasHeader(c, s, t);
      forall u | u != t ensures !Installing(c, s, u) && !Holds(s, u) {
        InactiveHasNoHeader(c, s, u);
      }
    }
  }

  /** A monitor's owner is the thread that holds it or is about to, and it has none exactly when no thread does. */
  lemma MonitorConservation(c: Config, s: State)
    requires Reachable(c, s) && Inflated(s.mem.mark)
    ensures forall t :: t in s.threads ==> (s.mem.owner == t <==> Owns(s.threads[t]))
    ensures s.mem.owner == 0 <==> forall t :: t in s.threads ==> !Owns(s.threads[t])
  {
    MarkFacts(s.mem.mark);
    ReachableInv(c, s);
    forall t | t in s.threads ensures s.mem.owner == t <==> Owns(s.threads[t]) {
      assert MonitorOk(s.mem, t, s.threads[t]) && ThreadPointer(t);
    }
  }

  /** Once every thread is outside the code and has unlocked what it locked, an object that started neutral has
      its starting mark again. */
  lemma BalancedRunRestoresMark(c: Config, s: State, es: seq<Event>)
    requires Init(c, s) && s.mem.mark == c.header
    requires var s' := Run(c, s, es); forall t :: t in s'.threads ==> s'.threads[t] == Thread(Idle, [])
    ensures Run(c, s, es).mem.mark == s.mem.mark
  {
    InitInv(c, s);
    NeverInflates(c, s, es);
  }

  lemma {:induction false} NeverInflates(c: Config, s: State, es: seq<Event>)
    requires ValidConfig(c) && Shapes(c, s) && StackPhase(c, s)
    ensures StackPhase(c, Run(c, s, es))
    decreases |es|
  {
    if es != [] {
      StackStep(c, s, es[0]);
      StepShapes(c, s, es[0]);
      NeverInflates(c, Step(c, s, es[0]), es[1..]);
    }
  }

  /** On an object without a monitor the unlock code never has to call the runtime. */
  lemma UnlockNeverFails(c: Config, s: State, t: Word)
    requires Reachable(c, s) && !Inflated(s.mem.mark) && t in s.threads && s.threads[t].pc.Unlocking?
    ensures !s.threads[t].pc.exit.Failed?
  {
    ReachableInv(c, s);
    assert Shape(c, t, s.threads[t]);
    if Biased(s.mem.mark) {
      assert BiasPhase(c, s) ==> BiasOk(c, s.mem.mark, t, s.threads[t]);
      assert StalePhase(c, s) ==> StaleOk(s.mem.mark, s.threads[t]);
    } else {
      assert StackOk(c, s.mem, s.threads[t]);
    }
  }

  lemma {:induction false} BiasRun(c: Config, s: State, es: seq<Event>)
    requires Inv(c, s) && Biased(s.mem.mark) && BiasPhase(c, s) && BiasOwner(c.lp64, s.mem.mark) != 0
    ensures Run(c, s, es).mem.mark == s.mem.mark && BiasPhase(c, Run(c, s, es))
    decreases |es|
  {
    if es != [] {
      StepShapes(c, s, es[0]);
      BiasStep(c, s, es[0]);
      BiasRun(c, Step(c, s, es[0]), es[1..]);
    }
  }

  /** A biased mark that has an owner, in whatever epoch, is never replaced while the class stays biased. */
  lemma OwnedBiasStays(c: Config, s: State, es: seq<Event>)
    requires Reachable(c, s) && Biased(s.mem.mark) && BiasedPrototype(c.lp64, c.proto)
    requires BiasOwner(c.lp64, s.mem.mark) != 0
    ensures Run(c, s, es).mem.mark == s.mem.mark
  {
    ReachableInv(c, s);
    BiasRun(c, s, es);
  }

  /** At most one thread ever gets in through the bias. */
  lemma OneBiasHolder(c: Config, s: State, es: seq<Event>, t: Word, u: Word)
    requires Reachable(c, s) && Biased(s.mem.mark) && BiasedPrototype(c.lp64, c.proto)
    requires Holds(s, t) && Holds(Run(c, s, es), u)
    ensures t == u
    ensures ValidBias(c.lp64, Run(c, s, es).mem.mark, c.proto, t)
  {
    ReachableInv(c, s);
    assert BiasOk(c, s.mem.mark, t, s.threads[t]) && Shape(c, t, s.threads[t]);
    BiasRun(c, s, es);
    RunInv(c, s, es);
    assert BiasOk(c, s.mem.mark, u, Run(c, s, es).threads[u]);
  }

  /** The rebias CAS compares with a word whose owner has been masked away, so a bias left over from an old epoch
      is taken over only if it has no owner; otherwise no fast path ever locks the object again. */
  lemma ExpiredBiasWithOwnerBlocks(c: Config, s: State, es: seq<Event>, t: Word)
    requires Init(c, s) && Biased(s.mem.mark) && BiasedPrototype(c.lp64, c.proto)
    requires BiasOwner(c.lp64, s.mem.mark) != 0 && Epoch(c.lp64, s.mem.mark) != Epoch(c.lp64, c.proto)
    ensures !Holds(Run(c, s, es), t)
  {
    InitInv(c, s);
    BiasRun(c, s, es);
    var s' := Run(c, s, es);
    if t in s'.threads { assert BiasOk(c, s'.mem.mark, t, s'.threads[t]); }
  }

  /** An expired bias without an owner is taken over by the first thread that runs the lock code alone. */
  lemma ExpiredAnonymousBiasIsTaken(c: Config, s: State, t: Word, box: Word, sp: Word, client: bool)
    requires Init(c, s) && c.useBias && Biased(s.mem.mark) && BiasedPrototype(c.lp64, c.proto)
    requires BiasOwner(c.lp64, s.mem.mark) == 0 && Epoch(c.lp64, s.mem.mark) != Epoch(c.lp64, c.proto)
    requires t in s.threads && CanLock(c, t, s.threads[t], box, sp, client)
    ensures var s' := Run(c, s, [Lock(t, box, sp, client), Go(t), Go(t)]);
            Holds(s', t) && s'.mem.mark == t + c.proto
  {
    var start := Thread(Locking(box, sp, client, Load), []);
    var armed := Thread(Locking(box, sp, client, BiasCas(s.mem.mark, t + c.proto)), []);
    assert Advance(c, s.mem, t, start) == (s.mem, armed) by {
      TriageBiasedPrototype(c.lp64, s.mem.mark, c.proto, t);
    }
    assert armed.boxes + [box] == [box];
    assert Advance(c, s.mem, t, armed) == (s.mem.(mark := t + c.proto), Thread(Idle, [box]));
    RunThree(c, s, Lock(t, box, sp, client), Go(t), Go(t));
  }

  lemma RunThree(c: Config, s: State, e1: Event, e2: Event, e3: Event)
    ensures Run(c, s, [e1, e2, e3]) == Step(c, Step(c, Step(c, s, e1), e2), e3)
  {
    var s1 := Step(c, s, e1);
    var s2 := Step(c, s1, e2);
    assert [e1, e2, e3][1..] == [e2, e3] && [e2, e3][1..] == [e3];
    assert Run(c, s, [e1, e2, e3]) == Run(c, s1, [e2, e3]) == Run(c, s2, [e3]) == Run(c, Step(c, s2, e3), [e3][1..]);
  }

  lemma {:induction false} UnbiasedRun(c: Config, s: State, es: seq<Event>)
    requires Inv(c, s) && !Biased(s.mem.mark)
    ensures !Biased(Run(c, s, es).mem.mark)
    decreases |es|
  {
    if es != [] {
      StepInv(c, s, es[0]);
      UnbiasedRun(c, Step(c, s, es[0]), es[1..]);
    }
  }

  /** A mark that is not biased never becomes biased again. */
  lemma NeverBiasedAgain(c: Config, s: State, es: seq<Event>)
    requires Reachable(c, s) && !Biased(s.mem.mark)
    ensures !Biased(Run(c, s, es).mem.mark)
  {
    ReachableInv(c, s);
    UnbiasedRun(c, s, es);
  }
}
