/** What the card barrier and a refinement thread achieve when no other thread intervenes. */
module CardBarrierProgress {
  import opened Bits
  import opened PtrQueue
  import opened CardBarrier

  // ---- cards ----

  /** A card is an aligned block of 512 bytes, and lies in one region. */
  lemma CardIsBlock(a: Addr, b: Addr)
    ensures Card(a) == Card(b) <==> a - a % 512 == b - b % 512
    ensures Card(a) == Card(b) ==> Region(a) == Region(b)
  {
    assert a - a % 512 == 512 * (a / 512) && b - b % 512 == 512 * (b / 512);
    DivOfDiv(a, 512, 2048);
    DivOfDiv(b, 512, 2048);
  }

  // ---- a store ----

  /** The stores that reach the card table: none of a constant null; from the assembler's code those into another
      region, null being in region zero; from C1's those of a reference into another region. */
  predicate Marks(code: Code, a: Addr, v: Addr) {
    match code
    case NoBarrier => false
    case Assembled => a / 0x10_0000 != v / 0x10_0000
    case Client => v != 0 && a / 0x10_0000 != v / 0x10_0000
  }

  lemma MarksIff(c: Config, code: Code, a: Addr, v: Addr)
    requires c.start % GRAIN == 0 && c.end - c.start <= CLIENT_REACH && CanStore(c, code, a, v)
    ensures Filtered(code, a, v) <==> !Marks(code, a, v)
  {
    match code {
      case NoBarrier =>
      case Assembled => AssembledFilter(a, v);
      case Client =>
        ClientFilter(a, v);
        if Filtered(code, a, v) { ClientFilterSound(c.start, a, v); }
    }
  }

  function Stored(s: State, t: Tid, a: Addr, v: Addr, dirty: set<nat>, m: Mutator): State {
    s.(heap := s.heap[a := v], dirty := dirty, mutators := s.mutators[t := m])
  }

  /** The store and its drain. */
  lemma StoreDrains(c: Config, s: State, t: Tid, code: Code, a: Addr, v: Addr)
    requires t in s.mutators && s.mutators[t].pc.Idle? && s.mutators[t].buffer == [] && CanStore(c, code, a, v)
    ensures var q := s.mutators[t].queue;
            Step(c, Step(c, s, Store(t, code, a, v)), Drain(t))
            ==
            Stored(s, t, a, v, s.dirty,
                   Mutator(if Filtered(code, a, v) then Idle else LoadCard(Card(a)), [], q))
  {
    var q := s.mutators[t].queue;
    var pc := if Filtered(code, a, v) then Idle else LoadCard(Card(a));
    var s1 := Step(c, s, Store(t, code, a, v));
    assert [] + [RefWrite(a, v)] == [RefWrite(a, v)];
    assert s1 == WithMutator(s, t, Mutator(pc, [RefWrite(a, v)], q));
    assert [RefWrite(a, v)][1..] == [];
    assert s1.mutators[t := Mutator(pc, [], q)] == s.mutators[t := Mutator(pc, [], q)];
  }

  /** The look at the card, and the drain of the store into it. */
  lemma CardDrains(c: Config, s: State, t: Tid, card: nat, q: Log)
    requires t in s.mutators && s.mutators[t] == Mutator(LoadCard(card), [], q)
    ensures Step(c, Step(c, s, Go(t)), Drain(t))
            ==
            if card in s.dirty then s.(mutators := s.mutators[t := Mutator(Idle, [], q)])
            else s.(dirty := s.dirty + {card}, mutators := s.mutators[t := Mutator(Enqueue(card), [], q)])
  {
    var s1 := Step(c, s, Go(t));
    if card in s.dirty {
      assert s1 == WithMutator(s, t, Mutator(Idle, [], q));
    } else {
      assert [] + [CardWrite(card)] == [CardWrite(card)];
      assert s1 == WithMutator(s, t, Mutator(Enqueue(card), [CardWrite(card)], q));
      assert [CardWrite(card)][1..] == [];
      assert s1.mutators[t := Mutator(Enqueue(card), [], q)] == s.mutators[t := Mutator(Enqueue(card), [], q)];
    }
  }

  /** A store alone: the field has the value, and if the store marks and its card was clean, the card is dirty and in
      the thread's log; nothing else has changed. */
  lemma SoloStore(c: Config, s: State, t: Tid, code: Code, a: Addr, v: Addr)
    requires t in s.mutators && s.mutators[t].pc.Idle? && s.mutators[t].buffer == [] && CanStore(c, code, a, v)
    requires c.start % GRAIN == 0 && c.end - c.start <= CLIENT_REACH
    requires Valid(s.mutators[t].queue) && s.mutators[t].queue.index != 0
    ensures var q, card := s.mutators[t].queue, Card(a);
            var s2 := Step(c, Step(c, s, Store(t, code, a, v)), Drain(t));
            Step(c, Step(c, Step(c, s2, Go(t)), Drain(t)), Go(t))
            ==
            if Marks(code, a, v) && card !in s.dirty
            then Stored(s, t, a, v, s.dirty + {card}, Mutator(Idle, [], Pushed(q, card)))
            else Stored(s, t, a, v, s.dirty, Mutator(Idle, [], q))
  {
    var q, card := s.mutators[t].queue, Card(a);
    MarksIff(c, code, a, v);
    StoreDrains(c, s, t, code, a, v);
    var s2 := Step(c, Step(c, s, Store(t, code, a, v)), Drain(t));
    if Marks(code, a, v) {
      CardDrains(c, s2, t, card, q);
      AfterCard(c, s, s2, t, a, v, q);
    } else {
      assert s2 == Stored(s, t, a, v, s.dirty, Mutator(Idle, [], q));
      NothingLeft(c, s2, t);
    }
  }

  lemma AfterCard(c: Config, s: State, s2: State, t: Tid, a: Addr, v: Addr, q: Log)
    requires t in s.mutators && Valid(q) && q.index != 0
    requires s2 == Stored(s, t, a, v, s.dirty, Mutator(LoadCard(Card(a)), [], q))
    ensures var card := Card(a);
            var s4 := if card in s.dirty then s2.(mutators := s2.mutators[t := Mutator(Idle, [], q)])
                      else s2.(dirty := s.dirty + {card},
                               mutators := s2.mutators[t := Mutator(Enqueue(card), [], q)]);
            Step(c, s4, Go(t))
            ==
            if card !in s.dirty then Stored(s, t, a, v, s.dirty + {card}, Mutator(Idle, [], Pushed(q, card)))
            else Stored(s, t, a, v, s.dirty, Mutator(Idle, [], q))
  {
    var m := if Card(a) in s.dirty then Mutator(Idle, [], q) else Mutator(Idle, [], Pushed(q, Card(a)));
    assert s2.mutators[t := m] == s.mutators[t := m];
  }

  /** An idle mutator with an empty store buffer stays as it is. */
  lemma NothingLeft(c: Config, s: State, t: Tid)
    requires t in s.mutators && s.mutators[t].pc.Idle? && s.mutators[t].buffer == []
    ensures Step(c, s, Go(t)) == s && Step(c, s, Drain(t)) == s
  {
    assert s.mutators[t := s.mutators[t]] == s.mutators;
  }

  /** With a full log the card goes into a new buffer, and the old one is handed off as it was. */
  lemma SoloFullEnqueue(c: Config, s: State, t: Tid, card: nat, blank: seq<nat>)
    requires t in s.mutators && s.mutators[t].pc == Enqueue(card) && s.mutators[t].buffer == []
    requires Valid(s.mutators[t].queue) && s.mutators[t].queue.index == 0 && |blank| == c.capacity > 0
    ensures var q := s.mutators[t].queue;
            var s' := Step(c, Step(c, s, Refill(t, blank)), Go(t));
            && t in s'.mutators && s' == WithMutator(s, t, s'.mutators[t])
            && s'.mutators[t].pc.Idle? && s'.mutators[t].buffer == [] && Valid(s'.mutators[t].queue)
            && Entries(s'.mutators[t].queue) == Entries(q) + multiset{card}
            && s'.mutators[t].queue.completed == if q.buf == [] then q.completed else q.completed + [q.buf]
  {
    var q := s.mutators[t].queue;
    var q1 := Refilled(q, blank);
    assert Valid(q1) && q1.index != 0 && Entries(q1) == Entries(q) by { RefillKeeps(q, blank); }
    var q2 := Pushed(q1, card);
    assert Valid(q2) && Entries(q2) == Entries(q) + multiset{card} by { PushAdds(q1, card); }
    var s1 := Step(c, s, Refill(t, blank));
    assert s1 == WithMutator(s, t, Mutator(Enqueue(card), [], q1));
    var m := Mutator(Idle, [], q2);
    assert Step(c, s1, Go(t)) == WithMutator(s1, t, m);
    assert s1.mutators[t := m] == s.mutators[t := m];
  }

  // ---- a refinement thread ----

  /** The fields visited in turn. */
  function Scanned(c: Config, s: State, r: Tid, fields: seq<Addr>): State {
    if fields == [] then s
    else Step(c, Scanned(c, s, r, fields[..|fields| - 1]), Visit(r, fields[|fields| - 1]))
  }

  /** The entries that belong to the references between regions on a card. */
  function EntriesOn(heap: map<Addr, Addr>, card: nat, done: set<Addr>): set<Entry> {
    set a | a in heap && a in done && Card(a) == card && Cross(a, heap[a]) :: Entry(card, Region(heap[a]))
  }

  lemma {:induction false} Visits(c: Config, s: State, r: Tid, cards: seq<nat>, card: nat, fields: seq<Addr>)
    requires r in s.refiners && s.refiners[r] == Scanning(cards, card, {})
    requires forall i :: 0 <= i < |fields| ==> Card(fields[i]) == card
    ensures var done := set a | a in fields;
            Scanned(c, s, r, fields)
            ==
            s.(refiners := s.refiners[r := Scanning(cards, card, done)],
               remembered := s.remembered + EntriesOn(s.heap, card, done))
    decreases |fields|
  {
    var done := set a | a in fields;
    if fields == [] {
      assert done == {} && EntriesOn(s.heap, card, done) == {};
      assert s.refiners[r := Scanning(cards, card, done)] == s.refiners;
      assert s.remembered + {} == s.remembered;
    } else {
      var front, a := fields[..|fields| - 1], fields[|fields| - 1];
      var before := set b | b in front;
      Visits(c, s, r, cards, card, front);
      assert done == before + {a};
      OneMoreEntry(s.heap, card, before, a);
    }
  }

  lemma OneMoreEntry(heap: map<Addr, Addr>, card: nat, before: set<Addr>, a: Addr)
    requires Card(a) == card
    ensures EntriesOn(heap, card, before + {a})
            ==
            EntriesOn(heap, card, before)
            + if a in heap && Cross(a, heap[a]) then {Entry(card, Region(heap[a]))} else {}
  {
  }

  /** A refinement thread left alone with a dirty card cleans it, and remembers just the references between regions on
      it; then it goes on with the next card. */
  lemma SoloRefine(c: Config, s: State, r: Tid, card: nat, cards: seq<nat>, fields: seq<Addr>)
    requires r in s.refiners && s.refiners[r] == Holding([card] + cards) && card in s.dirty
    requires forall i :: 0 <= i < |fields| ==> Card(fields[i]) == card
    requires forall a :: a in s.heap && Card(a) == card ==> a in fields
    ensures var s2 := Step(c, Step(c, s, Refine(r)), Refine(r));
            Step(c, Scanned(c, s2, r, fields), Refine(r))
            ==
            s.(dirty := s.dirty - {card}, refiners := s.refiners[r := Holding(cards)],
               remembered := s.remembered + set a | a in s.heap && Card(a) == card && Cross(a, s.heap[a])
                                            :: Entry(card, Region(s.heap[a])))
  {
    assert ([card] + cards)[1..] == cards;
    var s2 := Step(c, Step(c, s, Refine(r)), Refine(r));
    assert s2 == s.(dirty := s.dirty - {card}, refiners := s.refiners[r := Scanning(cards, card, {})]);
    var done := set a | a in fields;
    Visits(c, s2, r, cards, card, fields);
    assert EntriesOn(s.heap, card, done)
        == set a | a in s.heap && Card(a) == card && Cross(a, s.heap[a]) :: Entry(card, Region(s.heap[a]));
  }

  /** A card that is not dirty any more is passed over. */
  lemma SoloSkip(c: Config, s: State, r: Tid, card: nat, cards: seq<nat>)
    requires r in s.refiners && s.refiners[r] == Holding([card] + cards) && card !in s.dirty
    ensures Step(c, s, Refine(r)) == s.(refiners := s.refiners[r := Holding(cards)])
  {
    assert ([card] + cards)[1..] == cards;
  }
}
