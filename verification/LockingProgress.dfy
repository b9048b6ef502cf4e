/** What one thread's lock and unlock achieve when no other thread intervenes. */
module LockingProgress {
  import opened Bits
  import opened MarkWord
  import opened Locking

  /** A thread left alone for some steps. */
  function Alone(c: Config, m: Memory, self: Word, th: Thread, n: nat): (Memory, Thread)
    decreases n
  {
    if n == 0 then (m, th)
    else
      var r := Advance(c, m, self, th);
      Alone(c, r.0, self, r.1, n - 1)
  }

  function Entered(th: Thread, box: Word, sp: Word, client: bool): Thread {
    th.(pc := Locking(box, sp, client, Load))
  }

  lemma Alone3(c: Config, m: Memory, t: Word, th: Thread)
    ensures var r1 := Advance(c, m, t, th);
            var r2 := Advance(c, r1.0, t, r1.1);
            Alone(c, m, t, th, 3) == Advance(c, r2.0, t, r2.1)
  {
    var r1 := Advance(c, m, t, th);
    var r2 := Advance(c, r1.0, t, r1.1);
    assert Alone(c, m, t, th, 3) == Alone(c, r1.0, t, r1.1, 2) == Alone(c, r2.0, t, r2.1, 1);
  }

  lemma Alone4(c: Config, m: Memory, t: Word, th: Thread)
    ensures var r := Advance(c, m, t, th); Alone(c, m, t, th, 4) == Alone(c, r.0, t, r.1, 3)
  {
  }

  ghost predicate LockedBy(c: Config, m: Memory, box: Word, m': Memory) {
    && m'.mark == box && m'.saved(box) == c.header && m'.owner == m.owner
    && forall a :: a != box ==> m'.saved(a) == m.saved(a)
  }

  lemma SoloServerLock(c: Config, m: Memory, t: Word, th: Thread, box: Word, sp: Word)
    requires Neutral(c.header) && m.mark == c.header
    ensures var r := Alone(c, m, t, Entered(th, box, sp, false), 4);
            r.1 == Thread(Idle, th.boxes + [box]) && LockedBy(c, m, box, r.0)
  {
    var h := c.header;
    MarkFacts(h);
    var th1 := Thread(Locking(box, sp, false, BusyCas(h)), th.boxes);
    Alone4(c, m, t, Entered(th, box, sp, false));
    assert Advance(c, m, t, Entered(th, box, sp, false)) == (m, th1);
    Alone3(c, m, t, th1);
  }

  lemma SoloClientLock(c: Config, m: Memory, t: Word, th: Thread, box: Word, sp: Word)
    requires Neutral(c.header) && m.mark == c.header
    ensures var r := Alone(c, m, t, Entered(th, box, sp, true), 3);
            r.1 == Thread(Idle, th.boxes + [box]) && LockedBy(c, m, box, r.0)
  {
    MarkFacts(c.header);
    Alone3(c, m, t, Entered(th, box, sp, true));
  }

  /** An unlocked object is locked: its header is in the box and its mark points there. */
  lemma SoloLock(c: Config, m: Memory, t: Word, th: Thread, box: Word, sp: Word, client: bool)
    requires Neutral(c.header) && m.mark == c.header && CanLock(c, t, th, box, sp, client)
    ensures var r := Alone(c, m, t, Entered(th, box, sp, client), if client then 3 else 4);
            r.1 == Thread(Idle, th.boxes + [box]) && LockedBy(c, m, box, r.0)
  {
    if client { SoloClientLock(c, m, t, th, box, sp); } else { SoloServerLock(c, m, t, th, box, sp); }
  }

  lemma NearMask(d: Word)
    requires d < 4096 && d % 8 == 0
    ensures RecursionMask(d) == 0
  {
    DivUnique(d, 4096, 0, d);
    DivUnique(d, 4, 2 * (d / 8), 0);
  }

  /** The recursion test accepts every aligned box less than a page above the stack pointer. */
  lemma NearIsRecursion(c: Config, sp: Word, client: bool, seen: Word)
    requires sp % 8 == 0 && seen % 8 == 0 && sp <= seen < sp + 4096 && 4096 <= sp && seen < Words(c.lp64)
    requires client ==> !c.lp64
    ensures Recursion(c, sp, client, seen) == 0
  {
    var bias := StackBias(c.lp64);
    SubCases(c.lp64, sp, bias);
    SubCases(c.lp64, seen, sp);
    SubBoth(c.lp64, seen, sp, bias);
    Offsets(sp, seen);
    NearMask(seen - sp);
  }

  lemma Offsets(a: Word, b: Word)
    requires a % 8 == 0 && b % 8 == 0 && a <= b
    ensures (b - a) % 8 == 0
  {
    DivUnique(b - a, 8, b / 8 - a / 8, 0);
  }

  /** An object the thread has locked in a frame less than a page above is locked again: the new box holds zero and
      the mark stays. */
  lemma SoloRecursiveLock(c: Config, m: Memory, t: Word, th: Thread, box: Word, sp: Word, client: bool)
    requires CanLock(c, t, th, box, sp, client)
    requires m.mark % 8 == 0 && sp <= m.mark < sp + 4096 && 4096 <= sp && m.mark < Words(c.lp64)
    ensures var r := Alone(c, m, t, Entered(th, box, sp, client), 4);
            && r.1 == Thread(Idle, th.boxes + [box])
            && r.0.mark == m.mark && r.0.saved(box) == 0 && r.0.owner == m.owner
            && forall a :: a != box ==> r.0.saved(a) == m.saved(a)
  {
    NearIsRecursion(c, sp, client, m.mark);
    MarkFacts(m.mark);
    var stage := if client then ClientSave(m.mark + 1) else BusyCas(m.mark + 1);
    var th1 := Thread(Locking(box, sp, client, stage), th.boxes);
    Alone4(c, m, t, Entered(th, box, sp, client));
    assert Advance(c, m, t, Entered(th, box, sp, client)) == (m, th1);
    Alone3(c, m, t, th1);
  }

  function Leaving(c: Config, th: Thread, client: bool): Thread {
    th.(pc := Unlocking(client, if c.useBias then CheckBias else AfterUnlockBias(client)))
  }

  /** Biased locking costs the unlock one more look at the mark. */
  function UnlockSteps(c: Config): nat {
    if c.useBias then 4 else 3
  }

  lemma UnlockPastBias(c: Config, m: Memory, t: Word, th: Thread, client: bool)
    requires th.boxes != [] && !Biased(m.mark)
    ensures Alone(c, m, t, Leaving(c, th, client), UnlockSteps(c))
            ==
            Alone(c, m, t, th.(pc := Unlocking(client, AfterUnlockBias(client))), 3)
  {
    if c.useBias {
      Alone4(c, m, t, Leaving(c, th, client));
      assert Advance(c, m, t, Leaving(c, th, client)) == (m, th.(pc := Unlocking(client, AfterUnlockBias(client))));
    }
  }

  /** The innermost lock is released: the outermost one puts the header back, the others leave the mark alone. */
  lemma SoloUnlock(c: Config, m: Memory, t: Word, th: Thread, client: bool)
    requires th.boxes != [] && m.mark % 8 == 0
    requires m.saved(Top(th)) != 0 ==> m.mark == Top(th)
    ensures var r := Alone(c, m, t, Leaving(c, th, client), UnlockSteps(c));
            && r.1 == Thread(Idle, th.boxes[..|th.boxes| - 1])
            && r.0 == m.(mark := if m.saved(Top(th)) == 0 then m.mark else m.saved(Top(th)))
  {
    var th1 := th.(pc := Unlocking(client, AfterUnlockBias(client)));
    MarkFacts(m.mark);
    UnlockPastBias(c, m, t, th, client);
    Alone3(c, m, t, th1);
  }

  /** A lock and its unlock, of either compiler, leave the object as it was. */
  lemma LockThenUnlock(c: Config, m: Memory, t: Word, th: Thread, box: Word, sp: Word, client: bool, client': bool)
    requires Neutral(c.header) && m.mark == c.header && CanLock(c, t, th, box, sp, client)
    ensures var locked := Alone(c, m, t, Entered(th, box, sp, client), if client then 3 else 4);
            var r := Alone(c, locked.0, t, Leaving(c, locked.1, client'), UnlockSteps(c));
            r.1 == th && r.0.mark == m.mark && r.0.owner == m.owner
  {
    SoloLock(c, m, t, th, box, sp, client);
    var locked := Alone(c, m, t, Entered(th, box, sp, client), if client then 3 else 4);
    SoloUnlock(c, locked.0, t, locked.1, client');
    assert (th.boxes + [box])[..|th.boxes|] == th.boxes;
  }

  // ---- locks of other threads ----

  /** What a thread that leaves without the lock changes: at most what it saved in its own box. */
  ghost predicate OnlyBox(m: Memory, box: Word, m': Memory) {
    m'.mark == m.mark && m'.owner == m.owner && forall a :: a != box ==> m'.saved(a) == m.saved(a)
  }

  lemma Alone5(c: Config, m: Memory, t: Word, th: Thread)
    ensures var r := Advance(c, m, t, th); Alone(c, m, t, th, 5) == Alone(c, r.0, t, r.1, 4)
  {
  }

  /** A mark with a lock bit set, or farther from the stack pointer than a page, is no recursive lock. */
  lemma FarIsNoRecursion(c: Config, sp: Word, client: bool, seen: Word)
    requires sp % 8 == 0 && 4096 <= sp <= Words(c.lp64) - 4096 && seen < Words(c.lp64) && (client ==> !c.lp64)
    requires !Near(sp, seen)
    ensures Recursion(c, sp, client, seen) != 0
  {
    SubCases(c.lp64, sp, StackBias(c.lp64));
    if client { ClientRecursionIffNear(c.lp64, seen, sp); } else { ServerRecursionIffNear(c.lp64, seen, sp); }
  }

  lemma ServerCasFails(c: Config, m: Memory, t: Word, boxes: seq<Word>, box: Word, sp: Word, mark: Word)
    requires m.mark != mark && Recursion(c, sp, false, m.mark) != 0
    ensures var r := Alone(c, m, t, Thread(Locking(box, sp, false, BusyCas(mark)), boxes), 3);
            r.1 == Thread(Idle, boxes) && OnlyBox(m, box, r.0) && r.0.saved(box) != 0
  {
    var scratch := Recursion(c, sp, false, m.mark);
    var th0 := Thread(Locking(box, sp, false, BusyCas(mark)), boxes);
    var th1 := Thread(Locking(box, sp, false, SaveLost(mark, scratch)), boxes);
    var th2 := Thread(Locking(box, sp, false, SaveRecursion(scratch)), boxes);
    Alone3(c, m, t, th0);
    assert Advance(c, m, t, th0) == (m, th1);
    assert Advance(c, m, t, th1) == (Save(m, box, mark), th2);
  }

  lemma ClientCasFails(c: Config, m: Memory, t: Word, boxes: seq<Word>, box: Word, sp: Word, mark: Word)
    requires m.mark != mark && Recursion(c, sp, true, m.mark) != 0
    ensures var r := Alone(c, m, t, Thread(Locking(box, sp, true, ClientSave(mark)), boxes), 3);
            r.1 == Thread(Idle, boxes) && OnlyBox(m, box, r.0) && r.0.saved(box) != 0
  {
    var scratch := Recursion(c, sp, true, m.mark);
    var th0 := Thread(Locking(box, sp, true, ClientSave(mark)), boxes);
    var th1 := Thread(Locking(box, sp, true, ClientCas(mark)), boxes);
    var th2 := Thread(Locking(box, sp, true, SaveRecursion(scratch)), boxes);
    var m1 := Save(m, box, mark);
    Alone3(c, m, t, th0);
    assert Advance(c, m, t, th0) == (m1, th1);
    assert Advance(c, m1, t, th1) == (m1, th2);
  }

  /** The CAS lock on a mark that is not the one it expects. */
  lemma CasLockFails(c: Config, m: Memory, t: Word, th: Thread, box: Word, sp: Word, client: bool, mark: Word)
    requires CanLock(c, t, th, box, sp, client) && 4096 <= sp <= Words(c.lp64) - 4096 && m.mark < Words(c.lp64)
    requires m.mark != mark && !Near(sp, m.mark)
    ensures var stage := if client then ClientSave(mark) else BusyCas(mark);
            var r := Alone(c, m, t, Thread(Locking(box, sp, client, stage), th.boxes), 3);
            r.1 == Thread(Idle, th.boxes) && OnlyBox(m, box, r.0) && r.0.saved(box) != 0
  {
    FarIsNoRecursion(c, sp, client, m.mark);
    if client {
      ClientCasFails(c, m, t, th.boxes, box, sp, mark);
    } else {
      ServerCasFails(c, m, t, th.boxes, box, sp, mark);
    }
  }

  /** A lock in another thread's box, or one that thread is about to install: no lock, and nothing changed outside the
      own box. */
  lemma SoloContendedLock(c: Config, m: Memory, t: Word, th: Thread, box: Word, sp: Word, client: bool)
    requires CanLock(c, t, th, box, sp, client) && 4096 <= sp <= Words(c.lp64) - 4096
    requires m.mark % 8 == 0 && m.mark < Words(c.lp64) && !Near(sp, m.mark)
    ensures var r := Alone(c, m, t, Entered(th, box, sp, client), 4);
            r.1 == Thread(Idle, th.boxes) && OnlyBox(m, box, r.0) && r.0.saved(box) != 0
  {
    MarkFacts(m.mark);
    var stage := if client then ClientSave(m.mark + 1) else BusyCas(m.mark + 1);
    Alone4(c, m, t, Entered(th, box, sp, client));
    assert Advance(c, m, t, Entered(th, box, sp, client))
        == (m, Thread(Locking(box, sp, client, stage), th.boxes));
    CasLockFails(c, m, t, th, box, sp, client, m.mark + 1);
  }

  // ---- monitors ----

  /** C2 takes a free monitor by writing itself as the owner, and leaves any other alone; the box is marked as not
      recursive either way. */
  lemma SoloMonitorLock(c: Config, m: Memory, t: Word, th: Thread, box: Word, sp: Word)
    requires CanLock(c, t, th, box, sp, false) && Inflated(m.mark)
    ensures var r := Alone(c, m, t, Entered(th, box, sp, false), 3);
            && r.1 == Thread(Idle, if m.owner == 0 then th.boxes + [box] else th.boxes)
            && r.0.owner == (if m.owner == 0 then t else m.owner)
            && r.0.mark == m.mark && r.0.saved(box) == box && forall a :: a != box ==> r.0.saved(a) == m.saved(a)
  {
    MarkFacts(m.mark);
    assert !Biased(m.mark);
    Alone3(c, m, t, Entered(th, box, sp, false));
  }

  /** C1 leaves every monitor to the runtime. */
  lemma SoloClientMonitorLock(c: Config, m: Memory, t: Word, th: Thread, box: Word, sp: Word)
    requires CanLock(c, t, th, box, sp, true) && 4096 <= sp <= Words(c.lp64) - 4096
    requires Inflated(m.mark) && m.mark < Words(c.lp64)
    ensures var r := Alone(c, m, t, Entered(th, box, sp, true), 4);
            r.1 == Thread(Idle, th.boxes) && OnlyBox(m, box, r.0)
  {
    MarkFacts(m.mark);
    Alone4(c, m, t, Entered(th, box, sp, true));
    assert Advance(c, m, t, Entered(th, box, sp, true))
        == (m, Thread(Locking(box, sp, true, ClientSave(m.mark + 1)), th.boxes));
    CasLockFails(c, m, t, th, box, sp, true, m.mark + 1);
  }

  /** The owner of a monitor nobody waits for gives it up: the innermost box is popped and there is no owner any more.
      With waiters, or another owner, the runtime is left to do it and nothing has changed. */
  lemma SoloMonitorUnlock(c: Config, m: Memory, t: Word, th: Thread)
    requires th.boxes != [] && Inflated(m.mark) && m.saved(Top(th)) != 0
    ensures var r := Alone(c, m, t, Leaving(c, th, false), UnlockSteps(c) + 1);
            if m.owner == t && !c.waiters
            then r.1 == Thread(Idle, th.boxes[..|th.boxes| - 1]) && r.0 == m.(owner := 0)
            else r.1 == Thread(Idle, th.boxes) && r.0 == m
  {
    MarkFacts(m.mark);
    var th1 := th.(pc := Unlocking(false, LoadMark));
    var th2 := th.(pc := Unlocking(false, LoadSaved(m.mark)));
    if c.useBias {
      Alone5(c, m, t, Leaving(c, th, false));
      assert Advance(c, m, t, Leaving(c, th, false)) == (m, th1);
    }
    Alone4(c, m, t, th1);
    assert Advance(c, m, t, th1) == (m, th2);
    Alone3(c, m, t, th2);
  }

  /** C1 leaves the unlock of a monitor to the runtime. */
  lemma SoloClientMonitorUnlock(c: Config, m: Memory, t: Word, th: Thread)
    requires th.boxes != [] && Inflated(m.mark) && m.saved(Top(th)) != 0 && m.mark != Top(th)
    ensures Alone(c, m, t, Leaving(c, th, true), UnlockSteps(c)) == (m, Thread(Idle, th.boxes))
  {
    MarkFacts(m.mark);
    UnlockPastBias(c, m, t, th, true);
    Alone3(c, m, t, th.(pc := Unlocking(true, ClientLoadSaved)));
  }

  /** A free monitor is free again, without waiters, after a lock and an unlock of C2. */
  lemma MonitorLockThenUnlock(c: Config, m: Memory, t: Word, th: Thread, box: Word, sp: Word)
    requires CanLock(c, t, th, box, sp, false) && Inflated(m.mark) && m.owner == 0 && !c.waiters && box != 0
    ensures var locked := Alone(c, m, t, Entered(th, box, sp, false), 3);
            var r := Alone(c, locked.0, t, Leaving(c, locked.1, false), UnlockSteps(c) + 1);
            r.1 == th && OnlyBox(m, box, r.0)
  {
    SoloMonitorLock(c, m, t, th, box, sp);
    var locked := Alone(c, m, t, Entered(th, box, sp, false), 3);
    SoloMonitorUnlock(c, locked.0, t, locked.1);
    assert (th.boxes + [box])[..|th.boxes|] == th.boxes;
  }

  // ---- biases ----

  /** Under a biased prototype: the holder of a current bias gets in without a change, an object biased to nobody is
      taken, with the epoch of the prototype if its own has expired, and a bias with another owner stays. */
  lemma SoloBiasedLock(c: Config, m: Memory, t: Word, th: Thread, box: Word, sp: Word, client: bool)
    requires CanLock(c, t, th, box, sp, client) && c.useBias && ThreadPointer(t)
    requires BiasedPrototype(c.lp64, c.proto) && Biased(m.mark)
    ensures var r := Alone(c, m, t, Entered(th, box, sp, client), 2);
            var current := Epoch(c.lp64, m.mark) == Epoch(c.lp64, c.proto);
            var owner := BiasOwner(c.lp64, m.mark);
            if owner == t && current then r == (m, Thread(Idle, th.boxes + [box]))
            else if owner == 0
            then r == (m.(mark := t + if current then m.mark else c.proto), Thread(Idle, th.boxes + [box]))
            else r == (m, Thread(Idle, th.boxes))
  {
    TriageBiasedPrototype(c.lp64, m.mark, c.proto, t);
    OwnerFreeParts(c.lp64, m.mark);
    var th0 := Entered(th, box, sp, client);
    var r1 := Advance(c, m, t, th0);
    assert Alone(c, m, t, th0, 2) == Alone(c, r1.0, t, r1.1, 1) == Advance(c, r1.0, t, r1.1);
  }

  /** What the CAS lock makes of a biased mark, left in its register by the revocation. */
  lemma BiasedAfterBias(client: bool, mark: Word)
    requires Biased(mark)
    ensures AfterBias(client, mark) == if client then ClientSave(mark) else BusyCas(mark)
  {
    MarkFacts(mark);
    LowBits(mark);
    ModOfMod(mark, 2, 4);
  }

  /** Under a plain prototype the bias is gone after one attempt, which itself gets no lock. */
  lemma SoloRevocation(c: Config, m: Memory, t: Word, th: Thread, box: Word, sp: Word, client: bool)
    requires CanLock(c, t, th, box, sp, client) && 4096 <= sp <= Words(c.lp64) - 4096
    requires c.useBias && ThreadPointer(t) && Neutral(c.proto) && c.proto < Words(c.lp64) && Biased(m.mark)
    ensures var r := Alone(c, m, t, Entered(th, box, sp, client), 5);
            r.1 == Thread(Idle, th.boxes) && OnlyBox(m.(mark := c.proto), box, r.0)
  {
    var th0 := Entered(th, box, sp, client);
    var th1 := Thread(Locking(box, sp, client, RevokeCas(m.mark)), th.boxes);
    var th2 := Thread(Locking(box, sp, client, if client then ClientSave(m.mark) else BusyCas(m.mark)), th.boxes);
    var m2 := m.(mark := c.proto);
    Alone5(c, m, t, th0);
    assert Advance(c, m, t, th0) == (m, th1) by { TriagePlainPrototype(c.lp64, m.mark, c.proto, t); }
    Alone4(c, m, t, th1);
    assert Advance(c, m, t, th1) == (m2, th2) by { BiasedAfterBias(client, m.mark); }
    assert !Near(sp, c.proto) by { MarkFacts(c.proto); }
    CasLockFails(c, m2, t, th, box, sp, client, m.mark);
  }

  /** Unlocking a biased object changes nothing in it. */
  lemma SoloBiasedUnlock(c: Config, m: Memory, t: Word, th: Thread, client: bool)
    requires th.boxes != [] && c.useBias && Biased(m.mark)
    ensures Alone(c, m, t, Leaving(c, th, client), 1) == (m, Thread(Idle, th.boxes[..|th.boxes| - 1]))
  {
  }
}
