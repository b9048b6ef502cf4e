/** `cas_under_lock`: compare-and-swap emulated under a spin lock, for processors without the instruction.
    Any number of threads run it on any addresses, all under the one lock word; a step is one access to the
    lock word or to memory. */
module EmulatedCas {
  import opened Bits
  import W = RegisterWindows

  type Tid = nat
  type Addr = nat
  type Word = W.Word

  const UNLOCKED: Word := 0
  const LOCKED: Word := 1

  /** The operands of one call: compare memory at `addr` with `compare`, store `update` if equal, and leave the
      old value in the register `result`, which on entry holds `update`. */
  datatype Call = Call(addr: Addr, compare: Word, update: Word, result: W.Reg)

  /** `lockReg` is what the swap exchanges with the lock word; `value` is the word loaded under the lock. */
  datatype Pc =
    | Idle
    | Swap(call: Call, lockReg: Word, spins: nat)
    | LoadValue(call: Call, lockReg: Word)
    | StoreNew(call: Call, lockReg: Word, value: Word)
    | Unlock(call: Call, lockReg: Word, value: Word)

  /** `begin` is the number of operations that had taken effect when the thread's current call started, `at` the
      position of its own once it has taken effect. */
  datatype Thread = Thread(pc: Pc, begin: nat, at: nat)

  /** A call that took effect, and the value it found. */
  datatype Operation = Operation(t: Tid, call: Call, found: Word)

  /** A call that returned: the caller's result register, and the operations before its start, of itself and
      before its end. */
  datatype Return = Return(t: Tid, call: Call, register: Word, begin: nat, at: nat, end: nat)

  datatype State = State(lock: Word, mem: map<Addr, Word>, threads: map<Tid, Thread>,
                         log: seq<Operation>, done: seq<Return>)

  datatype Event = Start(t: Tid, call: Call) | Go(t: Tid)

  /** After this many failed swaps the code yields before trying again. */
  datatype Config = Config(spinCount: nat)

  function Read(mem: map<Addr, Word>, a: Addr): Word {
    if a in mem then mem[a] else 0
  }

  /** What the caller finds in its result register after the restore. */
  function ResultRegister(call: Call, value: Word): Word {
    if W.Visible(call.result) then value else call.update
  }

  /** That is what the code, run in a window of its own, leaves there, whatever it did to the window's own registers. */
  lemma ResultRegisterIsLeft(call: Call, a: W.Reg, b: W.Reg, caller: W.File, locals: nat -> Word, outs: nat -> Word,
                             f: W.File, value: Word)
    requires W.Read(caller, call.result) == call.update
    requires W.OnlyScratch(W.Enter(caller, a, b, call.result, locals, outs), f)
    ensures ResultRegister(call, value) == W.Read(W.Leave(caller, f, call.result, value), call.result)
  {
    W.ResultLeaves(caller, a, b, call.result, locals, outs, f, value, call.result);
  }

  function StepThread(c: Config, s: State, t: Tid): State
    requires t in s.threads
  {
    var th := s.threads[t];
    match th.pc
    case Idle => s
    case Swap(call, lockReg, spins) =>
      // yields first, and forgets the spins, once there have been too many
      var spins' := if spins < c.spinCount then spins else 0;
      var got := s.lock;
      var pc := if got != UNLOCKED then Swap(call, got, spins' + 1) else LoadValue(call, got);
      s.(lock := lockReg, threads := s.threads[t := th.(pc := pc)])
    case LoadValue(call, lockReg) =>
      var value := Read(s.mem, call.addr);
      if value != call.compare
      then s.(log := s.log + [Operation(t, call, value)],
              threads := s.threads[t := Thread(Unlock(call, lockReg, value), th.begin, |s.log|)])
      else s.(threads := s.threads[t := th.(pc := StoreNew(call, lockReg, value))])
    case StoreNew(call, lockReg, value) =>
      s.(mem := s.mem[call.addr := call.update], log := s.log + [Operation(t, call, value)],
         threads := s.threads[t := Thread(Unlock(call, lockReg, value), th.begin, |s.log|)])
    case Unlock(call, lockReg, value) =>
      s.(lock := lockReg, threads := s.threads[t := th.(pc := Idle)],
         done := s.done + [Return(t, call, ResultRegister(call, value), th.begin, th.at, |s.log|)])
  }

  function Step(c: Config, s: State, e: Event): State {
    if e.t !in s.threads then s
    else match e
      case Start(t, call) =>
        if s.threads[t].pc.Idle?
        then s.(threads := s.threads[t := Thread(Swap(call, LOCKED, 0), |s.log|, 0)]) else s
      case Go(t) => StepThread(c, s, t)
  }

  function Run(c: Config, s: State, es: seq<Event>): State
    decreases |es|
  {
    if es == [] then s else Run(c, Step(c, s, es[0]), es[1..])
  }

  // ---- the specification: one atomic instruction ----

  /** Memory after one compare-and-swap. */
  function Cas(mem: map<Addr, Word>, call: Call): map<Addr, Word> {
    if Read(mem, call.addr) == call.compare then mem[call.addr := call.update] else mem
  }

  /** Memory after a sequence of them. */
  function CasAll(mem: map<Addr, Word>, log: seq<Operation>): map<Addr, Word> {
    if log == [] then mem else Cas(CasAll(mem, log[..|log| - 1]), log[|log| - 1].call)
  }

  /** Every operation found what the ones before it left behind. */
  ghost predicate Sequential(mem: map<Addr, Word>, log: seq<Operation>) {
    forall k :: 0 <= k < |log| ==> log[k].found == Read(CasAll(mem, log[..k]), log[k].call.addr)
  }

  // ---- the invariant ----

  predicate InCriticalSection(th: Thread) {
    th.pc.LoadValue? || th.pc.StoreNew? || th.pc.Unlock?
  }

  predicate ThreadOk(s: State, t: Tid, th: Thread) {
    match th.pc
    case Idle => true
    case Swap(_, lockReg, _) => lockReg == LOCKED && th.begin <= |s.log|
    case LoadValue(_, lockReg) => lockReg == UNLOCKED && th.begin <= |s.log|
    case StoreNew(call, lockReg, value) =>
      lockReg == UNLOCKED && th.begin <= |s.log| && value == call.compare == Read(s.mem, call.addr)
    case Unlock(call, lockReg, value) =>
      lockReg == UNLOCKED && th.begin <= th.at < |s.log| && s.log[th.at] == Operation(t, call, value)
  }

  ghost predicate LockOk(s: State) {
    && (s.lock == UNLOCKED || s.lock == LOCKED)
    && (forall t :: t in s.threads && InCriticalSection(s.threads[t]) ==> s.lock == LOCKED)
    && (forall t, u ::
          t in s.threads && u in s.threads && InCriticalSection(s.threads[t]) && InCriticalSection(s.threads[u])
          ==> t == u)
  }

  predicate ReturnOk(s: State, r: Return) {
    && r.begin <= r.at < r.end <= |s.log|
    && s.log[r.at].t == r.t && s.log[r.at].call == r.call
    && r.register == ResultRegister(r.call, s.log[r.at].found)
  }

  /** No two returns, nor a return and a call about to return, stand for the same operation. */
  ghost predicate Injective(s: State) {
    && (forall i, j :: 0 <= i < j < |s.done| ==> s.done[i].at != s.done[j].at)
    && (forall i, t ::
          0 <= i < |s.done| && t in s.threads && s.threads[t].pc.Unlock? ==> s.done[i].at != s.threads[t].at)
  }

  /** An operation is that of a call that returned or is about to. */
  ghost predicate Called(s: State, k: nat) {
    || (exists i :: 0 <= i < |s.done| && s.done[i].at == k)
    || (exists t :: t in s.threads && s.threads[t].pc.Unlock? && s.threads[t].at == k)
  }

  ghost predicate AllCalled(s: State) {
    forall k :: 0 <= k < |s.log| ==> Called(s, k)
  }

  ghost predicate Inv(mem0: map<Addr, Word>, s: State) {
    && LockOk(s)
    && (forall t :: t in s.threads ==> ThreadOk(s, t, s.threads[t]))
    && Sequential(mem0, s.log) && s.mem == CasAll(mem0, s.log)
    && (forall i :: 0 <= i < |s.done| ==> ReturnOk(s, s.done[i]))
    && Injective(s) && AllCalled(s)
  }

  ghost predicate Init(mem0: map<Addr, Word>, s: State) {
    && s.lock == UNLOCKED && s.mem == mem0 && s.log == [] && s.done == []
    && (forall t :: t in s.threads ==> s.threads[t].pc.Idle?)
  }

  /** Appending an operation that found the current value and left the current memory keeps the log sequential. */
  lemma Append(mem0: map<Addr, Word>, log: seq<Operation>, op: Operation)
    requires Sequential(mem0, log) && op.found == Read(CasAll(mem0, log), op.call.addr)
    ensures Sequential(mem0, log + [op])
    ensures CasAll(mem0, log + [op]) == Cas(CasAll(mem0, log), op.call)
  {
    var log' := log + [op];
    assert log'[..|log'| - 1] == log;
    forall k | 0 <= k < |log'| ensures log'[k].found == Read(CasAll(mem0, log'[..k]), log'[k].call.addr) {
      assert log'[..k] == log[..k];
    }
  }

  /** A step of one thread that forgets no return, and names the thread's own operation and the new ones. */
  lemma StaysCalled(s: State, s': State, t: Tid)
    requires AllCalled(s) && t in s.threads && s.done <= s'.done
    requires s.threads.Keys == s'.threads.Keys && forall u :: u in s.threads && u != t ==> s'.threads[u] == s.threads[u]
    requires s.threads[t].pc.Unlock? ==> Called(s', s.threads[t].at)
    requires forall k :: |s.log| <= k < |s'.log| ==> Called(s', k)
    ensures AllCalled(s')
  {
    forall k | 0 <= k < |s.log| ensures Called(s', k) {
      assert Called(s, k);
      if i :| 0 <= i < |s.done| && s.done[i].at == k {
        assert s'.done[i].at == k;
      } else {
        var u :| u in s.threads && s.threads[u].pc.Unlock? && s.threads[u].at == k;
        assert u != t ==> s'.threads[u].at == k;
      }
    }
  }

  lemma StartKeeps(c: Config, mem0: map<Addr, Word>, s: State, t: Tid, call: Call)
    requires Inv(mem0, s) && t in s.threads && s.threads[t].pc.Idle?
    ensures Inv(mem0, Step(c, s, Start(t, call)))
  {
    StaysCalled(s, Step(c, s, Start(t, call)), t);
  }

  lemma SwapKeeps(c: Config, mem0: map<Addr, Word>, s: State, t: Tid)
    requires Inv(mem0, s) && t in s.threads && s.threads[t].pc.Swap?
    ensures Inv(mem0, StepThread(c, s, t))
  {
    StaysCalled(s, StepThread(c, s, t), t);
  }

  /** The step at which a call takes effect. */
  lemma EffectKeeps(mem0: map<Addr, Word>, s: State, t: Tid, call: Call, begin: nat)
    requires Inv(mem0, s) && t in s.threads && begin == s.threads[t].begin <= |s.log|
    requires s.threads[t].pc.LoadValue? || s.threads[t].pc.StoreNew?
    ensures var value := Read(s.mem, call.addr);
            Inv(mem0, s.(mem := Cas(s.mem, call), log := s.log + [Operation(t, call, value)],
                         threads := s.threads[t := Thread(Unlock(call, UNLOCKED, value), begin, |s.log|)]))
  {
    var op := Operation(t, call, Read(s.mem, call.addr));
    Append(mem0, s.log, op);
    var th := Thread(Unlock(call, UNLOCKED, op.found), begin, |s.log|);
    var s' := s.(mem := Cas(s.mem, call), log := s.log + [op], threads := s.threads[t := th]);
    forall u | u in s'.threads ensures ThreadOk(s', u, s'.threads[u]) {
      assert ThreadOk(s, u, s.threads[u]);
      assert u != t ==> !InCriticalSection(s.threads[u]);
    }
    forall i | 0 <= i < |s'.done| ensures ReturnOk(s', s'.done[i]) && s'.done[i].at != |s.log| {
      assert ReturnOk(s, s.done[i]);
    }
    assert Called(s', |s.log|) by { assert s'.threads[t].at == |s.log|; }
    StaysCalled(s, s', t);
  }

  lemma LoadKeeps(c: Config, mem0: map<Addr, Word>, s: State, t: Tid)
    requires Inv(mem0, s) && t in s.threads && s.threads[t].pc.LoadValue?
    ensures Inv(mem0, StepThread(c, s, t))
  {
    var call := s.threads[t].pc.call;
    assert ThreadOk(s, t, s.threads[t]);
    if Read(s.mem, call.addr) != call.compare {
      EffectKeeps(mem0, s, t, call, s.threads[t].begin);
      assert s.mem == Cas(s.mem, call);
    } else {
      StaysCalled(s, StepThread(c, s, t), t);
    }
  }

  lemma StoreKeeps(c: Config, mem0: map<Addr, Word>, s: State, t: Tid)
    requires Inv(mem0, s) && t in s.threads && s.threads[t].pc.StoreNew?
    ensures Inv(mem0, StepThread(c, s, t))
  {
    assert ThreadOk(s, t, s.threads[t]);
    EffectKeeps(mem0, s, t, s.threads[t].pc.call, s.threads[t].begin);
  }

  lemma UnlockKeeps(c: Config, mem0: map<Addr, Word>, s: State, t: Tid)
    requires Inv(mem0, s) && t in s.threads && s.threads[t].pc.Unlock?
    ensures Inv(mem0, StepThread(c, s, t))
  {
    var s' := StepThread(c, s, t);
    assert s'.done[|s.done|].at == s.threads[t].at;
    StaysCalled(s, s', t);
  }

  lemma StepKeeps(c: Config, mem0: map<Addr, Word>, s: State, e: Event)
    requires Inv(mem0, s)
    ensures Inv(mem0, Step(c, s, e))
  {
    if e.Go? && e.t in s.threads {
      match s.threads[e.t].pc {
        case Idle =>
        case Swap(_, _, _) => SwapKeeps(c, mem0, s, e.t);
        case LoadValue(_, _) => LoadKeeps(c, mem0, s, e.t);
        case StoreNew(_, _, _) => StoreKeeps(c, mem0, s, e.t);
        case Unlock(_, _, _) => UnlockKeeps(c, mem0, s, e.t);
      }
    } else if e.Start? && e.t in s.threads && s.threads[e.t].pc.Idle? {
      StartKeeps(c, mem0, s, e.t, e.call);
    }
  }

  lemma {:induction false} RunKeeps(c: Config, mem0: map<Addr, Word>, s: State, es: seq<Event>)
    requires Inv(mem0, s)
    ensures Inv(mem0, Run(c, s, es))
    decreases |es|
  {
    if es != [] {
      StepKeeps(c, mem0, s, es[0]);
      RunKeeps(c, mem0, Step(c, s, es[0]), es[1..]);
    }
  }

  // ---- theorems ----

  /** At most one thread is between getting the lock and releasing it. */
  lemma MutualExclusion(c: Config, s0: State, es: seq<Event>, t: Tid, u: Tid)
    requires Init(s0.mem, s0)
    requires var s := Run(c, s0, es);
             t in s.threads && u in s.threads && InCriticalSection(s.threads[t]) && InCriticalSection(s.threads[u])
    ensures t == u
  {
    RunKeeps(c, s0.mem, s0, es);
  }

  /** The log puts all calls that took effect in one order in which each is an atomic compare-and-swap: it found
      what the calls before it left, memory is what all of them together leave, every call that returned is one
      entry of its own, placed between its start and its end, and there is no entry but those of the calls that
      returned or are about to. */
  lemma Linearizable(c: Config, s0: State, es: seq<Event>)
    requires Init(s0.mem, s0)
    ensures var s := Run(c, s0, es);
            && Sequential(s0.mem, s.log) && s.mem == CasAll(s0.mem, s.log)
            && (forall i :: 0 <= i < |s.done| ==> ReturnOk(s, s.done[i]))
            && (forall t :: t in s.threads && s.threads[t].pc.Unlock? ==> ThreadOk(s, t, s.threads[t]))
            && Injective(s) && AllCalled(s)
  {
    RunKeeps(c, s0.mem, s0, es);
  }

  /** The caller gets the old value exactly when the result register is an out or a global, or the word it wanted
      to store was the old value anyway. */
  lemma ReturnsOldValue(c: Config, s0: State, es: seq<Event>, i: nat)
    requires Init(s0.mem, s0) && i < |Run(c, s0, es).done|
    ensures var s := Run(c, s0, es);
            var r := s.done[i];
            && r.at < |s.log|
            && (r.register == Read(CasAll(s0.mem, s.log[..r.at]), r.call.addr)
                <==> || r.call.result.class_.Global? || r.call.result.class_.Out?
                     || r.call.update == Read(CasAll(s0.mem, s.log[..r.at]), r.call.addr))
  {
    RunKeeps(c, s0.mem, s0, es);
    var s := Run(c, s0, es);
    assert ReturnOk(s, s.done[i]);
  }

  /** A thread left alone with the lock free does return, with the operation done. */
  lemma SoloCallReturns(c: Config, s: State, t: Tid, call: Call)
    requires s.lock == UNLOCKED && t in s.threads && s.threads[t].pc.Idle?
    ensures var s1 := Step(c, s, Start(t, call));
            var s3 := Step(c, Step(c, s1, Go(t)), Go(t));
            var s4 := Step(c, s3, Go(t));
            var s' := if Read(s.mem, call.addr) == call.compare then Step(c, s4, Go(t)) else s4;
            && s'.lock == UNLOCKED && s'.mem == Cas(s.mem, call) && s'.threads[t].pc.Idle?
            && |s'.done| == |s.done| + 1
            && s'.done[|s.done|].register == ResultRegister(call, Read(s.mem, call.addr))
  {
  }

  // ---- spinning ----

  function Spins(s: State, t: Tid, call: Call, spins: nat): State
    requires t in s.threads
  {
    s.(threads := s.threads[t := s.threads[t].(pc := Swap(call, LOCKED, spins))])
  }

  lemma {:induction false} SpinsFrom(c: Config, s: State, t: Tid, call: Call, k: nat, n: nat)
    requires s.lock == LOCKED && t in s.threads && 1 <= k <= c.spinCount
    ensures Run(c, Spins(s, t, call, k), seq(n, _ => Go(t))) == Spins(s, t, call, (k - 1 + n) % c.spinCount + 1)
    decreases n
  {
    var m := c.spinCount;
    if n == 0 {
      DivUnique(k - 1, m, 0, k - 1);
    } else {
      var es := seq(n, _ => Go(t));
      assert es[0] == Go(t) && es[1..] == seq(n - 1, _ => Go(t));
      var next := if k < m then k + 1 else 1;
      assert Step(c, Spins(s, t, call, k), Go(t)) == Spins(s, t, call, next);
      SpinsFrom(c, s, t, call, next, n - 1);
      if k == m { DivUnique(m - 1 + n, m, (n - 1) / m + 1, (n - 1) % m); }
    }
  }

  /** While the lock is taken the count of failed swaps goes round: a thread yields after every so many of them, and
      not before. */
  lemma SpinsGoRound(c: Config, s: State, t: Tid, call: Call, n: nat)
    requires s.lock == LOCKED && t in s.threads && s.threads[t].pc.Idle? && 0 < c.spinCount && 0 < n
    ensures var s1 := Step(c, s, Start(t, call));
            var s' := Run(c, s1, seq(n, _ => Go(t)));
            && t in s'.threads && s' == s.(threads := s.threads[t := s'.threads[t]])
            && s'.threads[t].pc == Swap(call, LOCKED, (n - 1) % c.spinCount + 1)
  {
    var s1 := Step(c, s, Start(t, call));
    var es := seq(n, _ => Go(t));
    assert es[0] == Go(t) && es[1..] == seq(n - 1, _ => Go(t));
    assert s1 == Spins(s1, t, call, 0);
    assert Step(c, s1, Go(t)) == Spins(s1, t, call, 1);
    SpinsFrom(c, s1, t, call, 1, n - 1);
  }
}
