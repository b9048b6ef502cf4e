/** Over every run of the allocation protocol, eden below its top is exactly tiled by the objects handed out, the
    fillers, the unused rest of each TLAB and the chunks won but not yet installed. */
module AllocationSafety {
  import opened Allocation
  import opened Bits

  /** The pieces of eden. */
  datatype Piece = Object(i: nat) | Dead(i: nat) | Window(t: Tid) | Chunk(t: Tid)

  predicate Live(s: State, p: Piece) {
    match p
    case Object(i) => i < |s.objects|
    case Dead(i) => i < |s.fillers|
    case Window(t) => t in s.threads && s.threads[t].tlab.top != 0
    case Chunk(t) => t in s.threads && s.threads[t].pc.Install?
  }

  /** The unused part of a TLAB runs to the end of its reserve. */
  function WindowOf(c: Config, tlab: Tlab): Range {
    Range(tlab.top, tlab.end + c.reserveWords * WORD_BYTES)
  }

  function Extent(c: Config, s: State, p: Piece): Range
    requires Live(s, p)
  {
    match p
    case Object(i) => s.objects[i]
    case Dead(i) => s.fillers[i]
    case Window(t) => WindowOf(c, s.threads[t].tlab)
    case Chunk(t) =>
      var th := s.threads[t];
      Range(th.pc.obj, th.pc.obj + th.tlab.desired * WORD_BYTES)
  }

  predicate Disjoint(r: Range, q: Range) {
    r.hi <= q.lo || q.hi <= r.lo
  }

  predicate Inside(c: Config, s: State, r: Range) {
    c.edenStart <= r.lo <= r.hi <= s.top && r.lo % ALIGNMENT == 0 && r.hi % ALIGNMENT == 0
  }

  predicate Contains(r: Range, a: Addr) {
    r.lo <= a < r.hi
  }

  ghost predicate Covered(c: Config, s: State, a: Addr) {
    exists p :: Live(s, p) && Contains(Extent(c, s, p), a)
  }

  /** The pieces tile eden below its top. */
  ghost predicate Partition(c: Config, s: State) {
    && (forall p :: Live(s, p) ==> Inside(c, s, Extent(c, s, p)))
    && (forall p, q :: Live(s, p) && Live(s, q) && p != q ==> Disjoint(Extent(c, s, p), Extent(c, s, q)))
    && (forall a :: c.edenStart <= a < s.top ==> Covered(c, s, a))
  }

  // ---- the invariant ----

  predicate ValidConfig(c: Config) {
    && 0 < c.edenStart <= c.edenEnd && c.edenStart % ALIGNMENT == 0
    && 0 < c.headerWords <= c.reserveWords
  }

  predicate TlabOk(c: Config, tlab: Tlab) {
    && c.reserveWords <= tlab.desired && tlab.desired * WORD_BYTES < TWO_31
    && (if tlab.top == 0 then tlab.end == 0
        else tlab.top <= tlab.end && WindowOf(c, tlab).hi - tlab.top < TWO_31
             && tlab.top % ALIGNMENT == 0 && tlab.end % ALIGNMENT == 0)
  }

  /** The filler, going by the length stored in it, covers the rest of the TLAB to the last word of its reserve. */
  predicate FillerOk(c: Config, tlab: Tlab, f: Filler) {
    if tlab.top == 0 then f.NoFiller? else f.Filler? && FillerRange(c, f) == WindowOf(c, tlab)
  }

  predicate PurposeOk(c: Config, tlab: Tlab, purpose: Purpose) {
    ValidSize(purpose.size) && (purpose.ForTlab? ==> FillerOk(c, tlab, purpose.filler))
  }

  predicate PcOk(c: Config, s: State, th: Thread) {
    match th.pc
    case Idle => true
    case LoadEnd(purpose) => PurposeOk(c, th.tlab, purpose)
    case LoadTop(purpose, end) => PurposeOk(c, th.tlab, purpose) && end == c.edenEnd
    case CasTop(purpose, obj, end) =>
      PurposeOk(c, th.tlab, purpose) && end == obj + Wanted(th.tlab, purpose) && end <= c.edenEnd
    case Install(purpose, obj) => PurposeOk(c, th.tlab, purpose) && purpose.ForTlab? && obj != 0
    case RetryTlab(size) => ValidSize(size)
  }

  predicate ThreadOk(c: Config, s: State, th: Thread) {
    TlabOk(c, th.tlab) && PcOk(c, s, th)
  }

  ghost predicate Inv(c: Config, s: State) {
    && ValidConfig(c) && c.edenStart <= s.top <= c.edenEnd && s.top % ALIGNMENT == 0
    && (forall t :: t in s.threads ==> ThreadOk(c, s, s.threads[t]))
    && Partition(c, s)
  }

  // ---- arithmetic of the 32-bit comparisons ----

  /** Passing the unsigned comparison means there is room, however large the free space is. */
  lemma RoomUnsigned(free: int, size: nat)
    requires 0 <= free && size < TWO_31 && !LessUnsigned(free, size)
    ensures size <= free
  {
  }

  lemma RoomSigned(free: int, size: nat)
    requires 0 <= free && size < TWO_31 && !Less(free, size)
    ensures size <= free
  {
  }

  /** Re-entering `retry` with `end` equal to `obj` never finds room. */
  lemma NoRoomOnRetry(obj: Addr, size: nat)
    requires 0 < size < TWO_31
    ensures LessUnsigned(obj - obj, size)
  {
  }

  lemma WantedSize(c: Config, th: Thread, purpose: Purpose)
    requires ValidConfig(c) && TlabOk(c, th.tlab) && PurposeOk(c, th.tlab, purpose)
    ensures 0 < Wanted(th.tlab, purpose) < TWO_31 && Wanted(th.tlab, purpose) % ALIGNMENT == 0
  {
  }

  /** The length computed from the registers gives a filler that ends with the reserve. */
  lemma FillerCovers(c: Config, tlab: Tlab)
    requires ValidConfig(c) && TlabOk(c, tlab) && tlab.top != 0
    ensures var free := (tlab.end - tlab.top) / WORD_BYTES;
            FillerRange(c, Filler(tlab.top, FillerLength(c, free))) == WindowOf(c, tlab)
  {
    var free := (tlab.end - tlab.top) / WORD_BYTES;
    assert tlab.end - tlab.top == free * WORD_BYTES;
    var length := (free - c.headerWords + c.reserveWords) * 2;
    assert 0 <= length < TWO_32;
    DivUnique(length, TWO_32, 0, length);
    assert Low32(length) == length;
  }

  // ---- how the tiling changes ----

  /** A step that only moves one thread's program counter, not to or from a won chunk, moves no piece. */
  lemma SamePieces(c: Config, s: State, t: Tid, th: Thread)
    requires Inv(c, s) && t in s.threads && ThreadOk(c, s, th)
    requires th.tlab.top == s.threads[t].tlab.top && th.tlab.end == s.threads[t].tlab.end
    requires !th.pc.Install? && !s.threads[t].pc.Install?
    ensures Inv(c, s.(threads := s.threads[t := th]))
  {
    var s' := s.(threads := s.threads[t := th]);
    forall p ensures Live(s', p) == Live(s, p) && (Live(s, p) ==> Extent(c, s', p) == Extent(c, s, p)) {
    }
    forall a | c.edenStart <= a < s'.top ensures Covered(c, s', a) {
      assert Covered(c, s, a);
      var p :| Live(s, p) && Contains(Extent(c, s, p), a);
      assert Live(s', p) && Contains(Extent(c, s', p), a);
    }
  }

  /** One piece splits in two. */
  lemma PieceSplits(c: Config, s: State, s': State, w: Piece, n: Piece, mid: Addr)
    requires Inv(c, s) && SplitOf(c, s, s', w, n, mid)
    requires forall u :: u in s'.threads ==> ThreadOk(c, s', s'.threads[u])
    ensures Inv(c, s')
  {
    SplitCovers(c, s, s', w, n, mid);
    SplitDisjoint(c, s, s', w, n, mid);
  }

  ghost predicate SplitOf(c: Config, s: State, s': State, w: Piece, n: Piece, mid: Addr) {
    && s'.top == s.top && Live(s, w) && !Live(s, n) && Live(s', w) && Live(s', n) && mid % ALIGNMENT == 0
    && Extent(c, s, w).lo <= mid <= Extent(c, s, w).hi
    && Extent(c, s', n) == Range(Extent(c, s, w).lo, mid) && Extent(c, s', w) == Range(mid, Extent(c, s, w).hi)
    && forall p :: p != w && p != n ==>
         Live(s', p) == Live(s, p) && (Live(s, p) ==> Extent(c, s', p) == Extent(c, s, p))
  }

  lemma SplitCovers(c: Config, s: State, s': State, w: Piece, n: Piece, mid: Addr)
    requires Inv(c, s) && SplitOf(c, s, s', w, n, mid)
    ensures forall a :: c.edenStart <= a < s'.top ==> Covered(c, s', a)
    ensures forall p :: Live(s', p) ==> Inside(c, s', Extent(c, s', p))
  {
    forall a | c.edenStart <= a < s'.top ensures Covered(c, s', a) {
      assert Covered(c, s, a);
      var p :| Live(s, p) && Contains(Extent(c, s, p), a);
      var q := if p != w then p else if a < mid then n else w;
      assert Live(s', q) && Contains(Extent(c, s', q), a);
    }
    forall p | Live(s', p) ensures Inside(c, s', Extent(c, s', p)) {
      assert Inside(c, s, Extent(c, s, if p == n then w else p));
    }
  }

  lemma SplitDisjoint(c: Config, s: State, s': State, w: Piece, n: Piece, mid: Addr)
    requires Inv(c, s) && SplitOf(c, s, s', w, n, mid)
    ensures forall p, q :: Live(s', p) && Live(s', q) && p != q ==> Disjoint(Extent(c, s', p), Extent(c, s', q))
  {
    forall p, q | Live(s', p) && Live(s', q) && p != q ensures Disjoint(Extent(c, s', p), Extent(c, s', q)) {
      var p0, q0 := if p == n then w else p, if q == n then w else q;
      assert p0 == q0 || Disjoint(Extent(c, s, p0), Extent(c, s, q0));
    }
  }

  /** Allocation in a TLAB splits its window. */
  lemma WindowSplits(c: Config, s: State, t: Tid, size: nat)
    requires Inv(c, s) && t in s.threads && !s.threads[t].pc.Install? && ValidSize(size)
    requires s.threads[t].tlab.top != 0 && size <= s.threads[t].tlab.end - s.threads[t].tlab.top
    ensures Inv(c, NewObject(s, t, s.threads[t].tlab, size))
  {
    var tlab := s.threads[t].tlab;
    assert ThreadOk(c, s, s.threads[t]) && Inside(c, s, Extent(c, s, Window(t)));
    PieceSplits(c, s, NewObject(s, t, tlab, size), Window(t), Object(|s.objects|), tlab.top + size);
  }

  /** A won CAS adds one piece at the top. */
  lemma TopGrows(c: Config, s: State, s': State, n: Piece)
    requires Inv(c, s) && s.top <= s'.top <= c.edenEnd && s'.top % ALIGNMENT == 0
    requires forall u :: u in s'.threads ==> ThreadOk(c, s', s'.threads[u])
    requires !Live(s, n) && Live(s', n) && Extent(c, s', n) == Range(s.top, s'.top)
    requires forall p :: p != n ==> Live(s', p) == Live(s, p) && (Live(s, p) ==> Extent(c, s', p) == Extent(c, s, p))
    ensures Inv(c, s')
  {
    forall a | c.edenStart <= a < s'.top ensures Covered(c, s', a) {
      if a < s.top {
        assert Covered(c, s, a);
        var p :| Live(s, p) && Contains(Extent(c, s, p), a);
        assert Live(s', p) && Contains(Extent(c, s', p), a);
      } else {
        assert Contains(Extent(c, s', n), a);
      }
    }
    forall p | Live(s', p) ensures Inside(c, s', Extent(c, s', p)) {
      assert p != n ==> Inside(c, s, Extent(c, s, p));
    }
  }

  lemma CasKeeps(c: Config, s: State, t: Tid)
    requires Inv(c, s) && t in s.threads && s.threads[t].pc.CasTop?
    ensures Inv(c, GoStep(c, s, t))
  {
    var th := s.threads[t];
    var purpose := th.pc.purpose;
    assert ThreadOk(c, s, th);
    assert 0 < Wanted(th.tlab, purpose) < TWO_31 && Wanted(th.tlab, purpose) % ALIGNMENT == 0 by {
      WantedSize(c, th, purpose);
    }
    if s.top != th.pc.obj {
      NoRoomOnRetry(s.top, Wanted(th.tlab, purpose));
      SamePieces(c, s, t, th.(pc := Idle));
    } else {
      CasWins(c, s, t);
    }
  }

  lemma CasWins(c: Config, s: State, t: Tid)
    requires Inv(c, s) && t in s.threads && s.threads[t].pc.CasTop? && s.top == s.threads[t].pc.obj
    requires Wanted(s.threads[t].tlab, s.threads[t].pc.purpose) % ALIGNMENT == 0
    ensures Inv(c, GoStep(c, s, t))
  {
    var th := s.threads[t];
    var s' := GoStep(c, s, t);
    assert ThreadOk(c, s, th);
    forall u | u in s'.threads ensures ThreadOk(c, s', s'.threads[u]) {
      assert ThreadOk(c, s, s.threads[u]);
    }
    TopGrows(c, s, s', if th.pc.purpose.ForObject? then Object(|s.objects|) else Chunk(t));
  }

  /** The pieces of one state are those of another under new names: `back` gives the old name. */
  lemma PiecesRenamed(c: Config, s: State, s': State, back: Piece -> Piece, forth: Piece -> Piece)
    requires Inv(c, s) && s'.top == s.top
    requires forall u :: u in s'.threads ==> ThreadOk(c, s', s'.threads[u])
    requires forall p :: Live(s', p) ==> Live(s, back(p)) && Extent(c, s', p) == Extent(c, s, back(p))
    requires forall p, q :: Live(s', p) && Live(s', q) && back(p) == back(q) ==> p == q
    requires forall p :: Live(s, p) ==> Live(s', forth(p)) && back(forth(p)) == p
    ensures Inv(c, s')
  {
    forall a | c.edenStart <= a < s'.top ensures Covered(c, s', a) {
      assert Covered(c, s, a);
      var p :| Live(s, p) && Contains(Extent(c, s, p), a);
      assert Live(s', forth(p)) && Contains(Extent(c, s', forth(p)), a);
    }
  }

  /** Installing turns the chunk into the thread's window, and the old window into a filler. */
  lemma InstallMoves(c: Config, s: State, t: Tid, p: Piece)
    requires ValidConfig(c) && t in s.threads && s.threads[t].pc.Install? && ThreadOk(c, s, s.threads[t])
    ensures var s' := GoStep(c, s, t);
            var back := if p == Window(t) then Chunk(t) else if p == Dead(|s.fillers|) then Window(t) else p;
            Live(s', p) ==> p != Chunk(t) && Live(s, back) && Extent(c, s', p) == Extent(c, s, back)
    ensures var s' := GoStep(c, s, t);
            var forth := if p == Chunk(t) then Window(t) else if p == Window(t) then Dead(|s.fillers|) else p;
            Live(s, p) ==> p != Dead(|s.fillers|) && Live(s', forth)
  {
  }

  lemma InstallKeeps(c: Config, s: State, t: Tid)
    requires Inv(c, s) && t in s.threads && s.threads[t].pc.Install?
    ensures Inv(c, GoStep(c, s, t))
  {
    var s' := GoStep(c, s, t);
    var k, w, n := Chunk(t), Window(t), Dead(|s.fillers|);
    var back := p => if p == w then k else if p == n then w else p;
    var forth := p => if p == k then w else if p == w then n else p;
    assert ThreadOk(c, s, s.threads[t]) && Inside(c, s, Extent(c, s, k));
    forall p ensures Live(s', p) ==> Live(s, back(p)) && Extent(c, s', p) == Extent(c, s, back(p)) && p != k {
      InstallMoves(c, s, t, p);
    }
    forall p ensures Live(s, p) ==> Live(s', forth(p)) && back(forth(p)) == p {
      InstallMoves(c, s, t, p);
    }
    assert ThreadOk(c, s', s'.threads[t]);
    PiecesRenamed(c, s, s', back, forth);
  }

  lemma TlabKeeps(c: Config, s: State, t: Tid, size: nat)
    requires Inv(c, s) && t in s.threads && !s.threads[t].pc.Install? && ValidSize(size)
    ensures Inv(c, TlabStep(s, t, size))
  {
    var th := s.threads[t];
    assert ThreadOk(c, s, th);
    if Less(th.tlab.end - th.tlab.top, size) {
      SamePieces(c, s, t, th.(pc := Idle));
    } else {
      RoomSigned(th.tlab.end - th.tlab.top, size);
      WindowSplits(c, s, t, size);
    }
  }

  lemma GoKeeps(c: Config, s: State, t: Tid)
    requires Inv(c, s) && t in s.threads
    ensures Inv(c, GoStep(c, s, t))
  {
    var th := s.threads[t];
    assert ThreadOk(c, s, th);
    match th.pc {
      case Idle =>
      case LoadEnd(purpose) => SamePieces(c, s, t, th.(pc := LoadTop(purpose, c.edenEnd)));
      case LoadTop(purpose, end) =>
        WantedSize(c, th, purpose);
        if !LessUnsigned(end - s.top, Wanted(th.tlab, purpose)) {
          RoomUnsigned(end - s.top, Wanted(th.tlab, purpose));
        }
        SamePieces(c, s, t, th.(pc := Retry(th, purpose, s.top, end)));
      case CasTop(_, _, _) => CasKeeps(c, s, t);
      case Install(_, _) => InstallKeeps(c, s, t);
      case RetryTlab(size) => TlabKeeps(c, s, t, size);
    }
  }

  lemma RefillKeeps(c: Config, s: State, t: Tid, size: nat)
    requires Inv(c, s) && t in s.threads && s.threads[t].pc.Idle? && ValidSize(size)
    ensures Inv(c, RefillStep(c, s, t, size))
  {
    var th := s.threads[t];
    assert ThreadOk(c, s, th);
    if th.tlab.top != 0 { FillerCovers(c, th.tlab); }
    SamePieces(c, s, t, RefillStep(c, s, t, size).threads[t]);
  }

  lemma StepKeeps(c: Config, s: State, e: Event)
    requires Inv(c, s)
    ensures Inv(c, Step(c, s, e))
  {
    if e.t in s.threads {
      var th := s.threads[e.t];
      assert ThreadOk(c, s, th);
      if e.Go? {
        GoKeeps(c, s, e.t);
      } else if th.pc.Idle? && ValidSize(e.size) {
        match e {
          case TlabAllocate(t, size) => TlabKeeps(c, s, t, size);
          case RefillAndAllocate(t, size) => RefillKeeps(c, s, t, size);
          case EdenAllocate(t, size) => SamePieces(c, s, t, th.(pc := LoadEnd(ForObject(size))));
        }
      }
    }
  }

  lemma {:induction false} RunKeeps(c: Config, s: State, es: seq<Event>)
    requires Inv(c, s)
    ensures Inv(c, Run(c, s, es))
    decreases |es|
  {
    if es != [] {
      StepKeeps(c, s, es[0]);
      RunKeeps(c, Step(c, s, es[0]), es[1..]);
    }
  }

  // ---- theorems ----

  /** Eden is empty, and no thread has a TLAB or is allocating. */
  ghost predicate Init(c: Config, s: State) {
    && ValidConfig(c) && s.top == c.edenStart && s.objects == [] && s.fillers == []
    && (forall t :: t in s.threads ==>
          && s.threads[t].pc.Idle? && s.threads[t].tlab.top == 0 && s.threads[t].tlab.end == 0
          && TlabOk(c, s.threads[t].tlab))
  }

  lemma InitInv(c: Config, s: State)
    requires Init(c, s)
    ensures Inv(c, s)
  {
  }

  ghost predicate Reachable(c: Config, s: State) {
    exists s0, es :: Init(c, s0) && s == Run(c, s0, es)
  }

  lemma ReachableInv(c: Config, s: State)
    requires Reachable(c, s)
    ensures Inv(c, s)
  {
    var s0, es :| Init(c, s0) && s == Run(c, s0, es);
    InitInv(c, s0);
    RunKeeps(c, s0, es);
  }

  /** No two objects handed out overlap, and each is aligned and inside eden. */
  lemma AllocationsDisjoint(c: Config, s: State)
    requires Reachable(c, s)
    ensures forall i, j :: 0 <= i < j < |s.objects| ==> Disjoint(s.objects[i], s.objects[j])
    ensures forall i :: 0 <= i < |s.objects| ==>
              && c.edenStart <= s.objects[i].lo <= s.objects[i].hi <= s.top <= c.edenEnd
              && s.objects[i].lo % ALIGNMENT == 0 && s.objects[i].hi % ALIGNMENT == 0
  {
    ReachableInv(c, s);
    forall i | 0 <= i < |s.objects| ensures Inside(c, s, s.objects[i]) {
      assert Live(s, Object(i)) && Extent(c, s, Object(i)) == s.objects[i];
    }
    forall i, j | 0 <= i < j < |s.objects| ensures Disjoint(s.objects[i], s.objects[j]) {
      assert Live(s, Object(i)) && Live(s, Object(j)) && Object(i) != Object(j);
      assert Disjoint(Extent(c, s, Object(i)), Extent(c, s, Object(j)));
    }
  }

  /** Every address of eden below the top belongs to exactly one object, filler, TLAB remainder or pending chunk,
      and these pieces hold no other address. */
  lemma HeapPartition(c: Config, s: State, a: Addr)
    requires Reachable(c, s)
    ensures c.edenStart <= a < s.top <==> Covered(c, s, a)
    ensures forall p, q :: Live(s, p) && Live(s, q) && Contains(Extent(c, s, p), a) && Contains(Extent(c, s, q), a)
                           ==> p == q
  {
    ReachableInv(c, s);
    if Covered(c, s, a) {
      var p :| Live(s, p) && Contains(Extent(c, s, p), a);
      assert Inside(c, s, Extent(c, s, p));
    }
  }

  /** A thread that loses the CAS has `end` and `obj` in one value and takes the slow case: it never allocates on
      the retry, and nothing but where it stands has changed. */
  lemma LostCasGivesUp(c: Config, s: State, t: Tid)
    requires Reachable(c, s) && t in s.threads && s.threads[t].pc.CasTop? && s.top != s.threads[t].pc.obj
    ensures GoStep(c, s, t) == s.(threads := s.threads[t := Thread(s.threads[t].tlab, Idle)])
  {
    ReachableInv(c, s);
    var th := s.threads[t];
    assert ThreadOk(c, s, th);
    WantedSize(c, th, th.pc.purpose);
    NoRoomOnRetry(s.top, Wanted(th.tlab, th.pc.purpose));
  }

  /** The low 32 bits of the free space reach the size. */
  predicate Room(c: Config, top: Addr, size: nat) {
    (c.edenEnd - top) % TWO_32 >= size
  }

  function Parked(s: State, t: Tid, th: Thread): State {
    s.(threads := s.threads[t := th])
  }

  /** Three steps of `eden_allocate` for an object, from the load of the end on, by a thread alone. */
  lemma SoloEdenSteps(c: Config, s: State, t: Tid, tlab: Tlab, size: nat)
    requires t in s.threads && 0 <= size < TWO_31
    ensures var s1 := Parked(s, t, Thread(tlab, LoadEnd(ForObject(size))));
            GoStep(c, GoStep(c, GoStep(c, s1, t), t), t)
            ==
            if Room(c, s.top, size)
            then State(s.top + size, s.threads[t := Thread(tlab, Idle)], s.objects + [Range(s.top, s.top + size)],
                       s.fillers)
            else Parked(s, t, Thread(tlab, Idle))
  {
    var s1 := Parked(s, t, Thread(tlab, LoadEnd(ForObject(size))));
    var s2 := GoStep(c, s1, t);
    assert s2 == Parked(s, t, Thread(tlab, LoadTop(ForObject(size), c.edenEnd)));
    var pc := if Room(c, s.top, size) then CasTop(ForObject(size), s.top, s.top + size) else Idle;
    assert GoStep(c, s2, t) == Parked(s, t, Thread(tlab, pc)) by { RoomTest(c, s.top, size); }
  }

  lemma RoomTest(c: Config, top: Addr, size: nat)
    requires size < TWO_31
    ensures LessUnsigned(c.edenEnd - top, size) <==> !Room(c, top, size)
  {
  }

  /** Left alone, `eden_allocate` succeeds exactly when the low 32 bits of the free space reach the size. */
  lemma SoloEdenAllocate(c: Config, s: State, t: Tid, size: nat)
    requires t in s.threads && s.threads[t].pc.Idle? && ValidSize(size)
    ensures var s1 := Step(c, s, EdenAllocate(t, size));
            GoStep(c, GoStep(c, GoStep(c, s1, t), t), t)
            ==
            if (c.edenEnd - s.top) % TWO_32 >= size
            then State(s.top + size, s.threads, s.objects + [Range(s.top, s.top + size)], s.fillers)
            else s
  {
    var th := s.threads[t];
    SoloEdenSteps(c, s, t, th.tlab, size);
    assert s.threads[t := th] == s.threads;
  }

  /** `tlab_allocate` hands out the next bytes of the TLAB exactly when they fit, for TLABs below 2^31 bytes. */
  lemma TlabAllocateFits(c: Config, s: State, t: Tid, size: nat)
    requires Reachable(c, s) && t in s.threads && s.threads[t].pc.Idle? && ValidSize(size)
    ensures var tlab := s.threads[t].tlab;
            Step(c, s, TlabAllocate(t, size))
            ==
            if size <= tlab.end - tlab.top
            then State(s.top, s.threads[t := Thread(tlab.(top := tlab.top + size), Idle)],
                       s.objects + [Range(tlab.top, tlab.top + size)], s.fillers)
            else s
  {
    ReachableInv(c, s);
    assert ThreadOk(c, s, s.threads[t]);
    assert s.threads[t := s.threads[t]] == s.threads;
  }

  /** For any TLAB: the test is on the low 32 bits of the free space, as a signed number. */
  lemma TlabAllocateIff(c: Config, s: State, t: Tid, size: nat)
    requires t in s.threads && s.threads[t].pc.Idle? && ValidSize(size)
    ensures var tlab := s.threads[t].tlab;
            Step(c, s, TlabAllocate(t, size)) != s <==> size <= (tlab.end - tlab.top) % TWO_32 < TWO_31
  {
    var s' := Step(c, s, TlabAllocate(t, size));
    assert s.threads[t := s.threads[t]] == s.threads;
    if size <= (s.threads[t].tlab.end - s.threads[t].tlab.top) % TWO_32 < TWO_31 {
      assert |s'.objects| == |s.objects| + 1;
    }
  }

  /** A TLAB with more free words than the waste limit is kept, with a higher limit, and the object is allocated in
      eden if there is room. */
  lemma RefillKeepsTlab(c: Config, s: State, t: Tid, size: nat)
    requires t in s.threads && s.threads[t].pc.Idle? && ValidSize(size)
    requires (s.threads[t].tlab.end - s.threads[t].tlab.top) / WORD_BYTES > s.threads[t].tlab.waste
    ensures var s1 := Step(c, s, RefillAndAllocate(t, size));
            var tlab := s.threads[t].tlab;
            var threads := s.threads[t := Thread(tlab.(waste := tlab.waste + c.wasteStep), Idle)];
            GoStep(c, GoStep(c, GoStep(c, s1, t), t), t)
            ==
            if (c.edenEnd - s.top) % TWO_32 >= size
            then State(s.top + size, threads, s.objects + [Range(s.top, s.top + size)], s.fillers)
            else s.(threads := threads)
  {
    var tlab := s.threads[t].tlab;
    SoloEdenSteps(c, s, t, tlab.(waste := tlab.waste + c.wasteStep), size);
  }

  /** The new TLAB: a chunk of the desired size less the reserve. */
  function Fresh(c: Config, tlab: Tlab, obj: Addr): Tlab {
    tlab.(start := obj, top := obj, end := obj + (tlab.desired - c.reserveWords) * WORD_BYTES)
  }

  /** What is left of the old one is dead, to the end of its reserve. */
  function Retired(c: Config, tlab: Tlab): seq<Range> {
    if tlab.top == 0 then [] else [Range(tlab.top, tlab.end + c.reserveWords * WORD_BYTES)]
  }

  /** The first four steps of a refill that discards the TLAB: a chunk of eden becomes the new one if there is room. */
  lemma SoloRefillSteps(c: Config, s: State, t: Tid, size: nat, filler: Filler)
    requires ValidConfig(c) && t in s.threads && TlabOk(c, s.threads[t].tlab) && FillerOk(c, s.threads[t].tlab, filler)
    ensures var tlab := s.threads[t].tlab;
            var s1 := Parked(s, t, Thread(tlab, LoadEnd(ForTlab(size, filler))));
            var desired := tlab.desired * WORD_BYTES;
            GoStep(c, GoStep(c, GoStep(c, GoStep(c, s1, t), t), t), t)
            ==
            if Room(c, s.top, desired)
            then State(s.top + desired, s.threads[t := Thread(Fresh(c, tlab, s.top), RetryTlab(size))],
                       s.objects, s.fillers + Retired(c, tlab))
            else Parked(s, t, Thread(tlab, Idle))
  {
    var tlab := s.threads[t].tlab;
    var desired, purpose := tlab.desired * WORD_BYTES, ForTlab(size, filler);
    var s1 := Parked(s, t, Thread(tlab, LoadEnd(purpose)));
    var s2 := GoStep(c, s1, t);
    assert s2 == Parked(s, t, Thread(tlab, LoadTop(purpose, c.edenEnd)));
    RoomTest(c, s.top, desired);
    var s3 := GoStep(c, s2, t);
    if Room(c, s.top, desired) {
      assert s3 == Parked(s, t, Thread(tlab, CasTop(purpose, s.top, s.top + desired)));
      var s4 := GoStep(c, s3, t);
      assert s4 == Parked(s, t, Thread(tlab, Install(purpose, s.top))).(top := s.top + desired);
      assert s.fillers + [] == s.fillers;
    } else {
      assert s3 == Parked(s, t, Thread(tlab, Idle));
    }
  }

  /** The refill starts with the filler that covers what is left. */
  lemma RefillDiscards(c: Config, s: State, t: Tid, size: nat) returns (filler: Filler)
    requires ValidConfig(c) && t in s.threads && TlabOk(c, s.threads[t].tlab)
    requires (s.threads[t].tlab.end - s.threads[t].tlab.top) / WORD_BYTES <= s.threads[t].tlab.waste
    ensures FillerOk(c, s.threads[t].tlab, filler)
    ensures RefillStep(c, s, t, size) == Parked(s, t, Thread(s.threads[t].tlab, LoadEnd(ForTlab(size, filler))))
  {
    var tlab := s.threads[t].tlab;
    if tlab.top != 0 { FillerCovers(c, tlab); }
    filler := if tlab.top == 0 then NoFiller
              else Filler(tlab.top, FillerLength(c, (tlab.end - tlab.top) / WORD_BYTES));
  }

  /** The allocation in the new TLAB. */
  lemma RetryFits(c: Config, s: State, t: Tid, size: nat)
    requires t in s.threads && s.threads[t].pc == RetryTlab(size) && size < TWO_31
    requires 0 <= s.threads[t].tlab.end - s.threads[t].tlab.top < TWO_31
    ensures var tlab := s.threads[t].tlab;
            GoStep(c, s, t)
            ==
            if size <= tlab.end - tlab.top
            then State(s.top, s.threads[t := Thread(tlab.(top := tlab.top + size), Idle)],
                       s.objects + [Range(tlab.top, tlab.top + size)], s.fillers)
            else Parked(s, t, Thread(tlab, Idle))
  {
    FitsTest(s.threads[t].tlab.end - s.threads[t].tlab.top, size);
  }

  /** The state a refill that discards the TLAB ends in: what is left of the TLAB is dead, the chunk at eden's top is
      the new one, and the object is the first in it if it fits.  Without room in eden nothing happens. */
  ghost predicate Replaced(c: Config, s: State, t: Tid, size: nat, s': State)
    requires t in s.threads
  {
    var tlab := s.threads[t].tlab;
    var desired, reserve := tlab.desired * WORD_BYTES, c.reserveWords * WORD_BYTES;
    var end := s.top + desired - reserve;
    if (c.edenEnd - s.top) % TWO_32 < desired then s' == s
    else
      && s'.top == s.top + desired
      && s'.fillers == s.fillers + (if tlab.top == 0 then [] else [Range(tlab.top, tlab.end + reserve)])
      && if size <= end - s.top
         then && s'.threads == s.threads[t := Thread(tlab.(start := s.top, top := s.top + size, end := end), Idle)]
              && s'.objects == s.objects + [Range(s.top, s.top + size)]
         else && s'.threads == s.threads[t := Thread(tlab.(start := s.top, top := s.top, end := end), Idle)]
              && s'.objects == s.objects
  }

  lemma RefillAlone(c: Config, s: State, t: Tid, size: nat)
    requires ValidConfig(c) && t in s.threads && TlabOk(c, s.threads[t].tlab)
    requires s.threads[t].pc.Idle? && ValidSize(size)
    requires (s.threads[t].tlab.end - s.threads[t].tlab.top) / WORD_BYTES <= s.threads[t].tlab.waste
    ensures var s1 := RefillStep(c, s, t, size);
            Replaced(c, s, t, size, GoStep(c, GoStep(c, GoStep(c, GoStep(c, GoStep(c, s1, t), t), t), t), t))
  {
    var th := s.threads[t];
    var tlab := th.tlab;
    var filler := RefillDiscards(c, s, t, size);
    SoloRefillSteps(c, s, t, size, filler);
    if Room(c, s.top, tlab.desired * WORD_BYTES) {
      var s5 := State(s.top + tlab.desired * WORD_BYTES,
                      s.threads[t := Thread(Fresh(c, tlab, s.top), RetryTlab(size))], s.objects,
                      s.fillers + Retired(c, tlab));
      RetryFits(c, s5, t, size);
    } else {
      assert s.threads[t := th] == s.threads;
    }
  }

  /** Any other TLAB is discarded and replaced. */
  lemma RefillReplacesTlab(c: Config, s: State, t: Tid, size: nat)
    requires Reachable(c, s) && t in s.threads && s.threads[t].pc.Idle? && ValidSize(size)
    requires (s.threads[t].tlab.end - s.threads[t].tlab.top) / WORD_BYTES <= s.threads[t].tlab.waste
    ensures var s1 := Step(c, s, RefillAndAllocate(t, size));
            Replaced(c, s, t, size, GoStep(c, GoStep(c, GoStep(c, GoStep(c, GoStep(c, s1, t), t), t), t), t))
  {
    ReachableInv(c, s);
    assert ThreadOk(c, s, s.threads[t]);
    RefillAlone(c, s, t, size);
  }

  /** The signed comparison of 32 bits is right below 2^31. */
  lemma FitsTest(free: nat, size: nat)
    requires free < TWO_31 && size < TWO_31
    ensures Less(free, size) <==> free < size
  {
  }

  /** Sizes the array code lets through are valid: aligned, below 2^31, no smaller than the array needs, and with
      less than one alignment unit of padding. */
  lemma ArraySizeIsValid(length: int, log: nat, header: nat)
    requires log <= 3 && 0 < header <= 16 && -(TWO_31 as int) <= length < TWO_31
    ensures var r := ArraySize(length, log, header);
            var factor := if log == 0 then 1 else if log == 1 then 2 else if log == 2 then 4 else 8;
            && (r.0 <==> 0 <= length <= MAX_ARRAY_LENGTH)
            && (r.0 ==> ValidSize(r.1) && 0 <= r.1 - (header * WORD_BYTES + length * factor) < ALIGNMENT)
  {
  }
}
