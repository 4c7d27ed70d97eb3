/** What every punctual schedule of the ring keeps, and what that means for its users. */
module RingProofs {
  import opened RingArith
  import opened Ring

  function At(s: State, i: nat): Node
    requires WellFormed(s)
  {
    s.mem[Slot(i, Slots(s.order))]
  }

  ghost predicate Window(s: State)
  {
    && WellFormed(s)
    && s.hd <= |s.log| <= s.hd + Slots(s.order)
    && s.head == Word(s.hd)
    && s.tail == Word(|s.log|)
  }

  ghost predicate ProducerOk(s: State, t: Thread)
    requires Window(s)
  {
    match Prod(s, t)
    case HaveHead(_, r, hr) => hr <= s.hd && r == Word(hr)
    case HaveTail(_, r, w, hr, tw) => hr <= s.hd && r == Word(hr) && hr <= tw <= |s.log| && w == Word(tw)
    case Reserved(f, w, pos) =>
      w == Word(pos) && pos in s.owner && s.owner[pos] == t && pos < |s.log| && s.log[pos] == f
    case Filled(w, pos) =>
      w == Word(pos) && pos in s.owner && s.owner[pos] == t && pos < |s.log| && At(s, pos).data == To(s.log[pos])
    case _ => true
  }

  ghost predicate OwnerOk(s: State, i: nat)
    requires Window(s) && i in s.owner
  {
    && s.hd <= i < |s.log|
    && At(s, i).id == 0
    && Owns(Prod(s, s.owner[i])) && Prod(s, s.owner[i]).pos == i
  }

  // Positions in [hd, log) are reserved or committed; every slot outside that range is zero.
  ghost predicate SlotOk(s: State, i: nat)
    requires Window(s)
  {
    if i >= |s.log| || (i == s.hd && s.cons.Zeroed?) then At(s, i) == ZERO
    else i !in s.owner ==> At(s, i) == Node(To(s.log[i]), 1)
  }

  ghost predicate ConsumerOk(s: State)
    requires Window(s)
  {
    && (s.cons.SawHead? ==> s.cons.h == s.head)
    && (s.cons.SawWork? ==> s.hd < |s.log|)
    && (s.cons.Found? || s.cons.Taken? || s.cons.Zeroed? ==> s.hd < |s.log| && s.hd !in s.owner)
    && s.out == (if s.cons.Taken? || s.cons.Zeroed? then s.log[..s.hd + 1] else s.log[..s.hd])
  }

  ghost predicate Inv(s: State)
  {
    && Window(s)
    && (forall t: Thread :: ProducerOk(s, t))
    && (forall i: nat :: i in s.owner ==> OwnerOk(s, i))
    && (forall i: nat :: s.hd <= i < s.hd + Slots(s.order) ==> SlotOk(s, i))
    && ConsumerOk(s)
  }

  lemma InitInv(s: State)
    requires Init(s)
    ensures Inv(s)
  {
    assert Word(0) == 0;
  }

  // The overflow test is exact: it passes only when the slot past the tail is free.
  lemma RoomAtCas(s: State, t: Thread)
    requires Inv(s) && Enabled(s, CasOk(t)) && Punctual(s, CasOk(t))
    ensures |s.log| < s.hd + Slots(s.order)
    ensures Prod(s, t).tw == |s.log|
  {
    var p := Prod(s, t);
    assert ProducerOk(s, t);
    WordsDistinct(p.tw, |s.log|);
    MinusExact(p.hr, p.tw);
  }

  lemma CasWindow(s: State, t: Thread)
    requires Inv(s) && Enabled(s, CasOk(t)) && |s.log| < s.hd + Slots(s.order)
    ensures Window(Do(s, CasOk(t)))
    ensures forall i: nat :: At(Do(s, CasOk(t)), i) == At(s, i)
  {
    WordStep(|s.log|);
  }

  lemma CasProducers(s: State, t: Thread, u: Thread)
    requires Inv(s) && Enabled(s, CasOk(t)) && Window(Do(s, CasOk(t)))
    ensures ProducerOk(Do(s, CasOk(t)), u)
  {
    assert ProducerOk(s, t) && ProducerOk(s, u);
  }

  lemma CasOwners(s: State, t: Thread, i: nat)
    requires Inv(s) && Enabled(s, CasOk(t)) && |s.log| < s.hd + Slots(s.order) && Window(Do(s, CasOk(t)))
    requires i in Do(s, CasOk(t)).owner
    ensures OwnerOk(Do(s, CasOk(t)), i)
  {
    assert SlotOk(s, |s.log|);
    if i != |s.log| {
      assert OwnerOk(s, i);
    }
  }

  lemma CasInv(s: State, t: Thread)
    requires Inv(s) && Enabled(s, CasOk(t)) && |s.log| < s.hd + Slots(s.order)
    ensures Inv(Do(s, CasOk(t)))
  {
    var s' := Do(s, CasOk(t));
    CasWindow(s, t);
    forall u: Thread
      ensures ProducerOk(s', u)
    {
      CasProducers(s, t, u);
    }
    forall i: nat | s'.hd <= i < s'.hd + Slots(s.order)
      ensures SlotOk(s', i)
    {
      assert SlotOk(s, i);
    }
    forall i: nat | i in s'.owner
      ensures OwnerOk(s', i)
    {
      CasOwners(s, t, i);
    }
  }

  /** For any pause whatever: a successful swap keeps the ring intact if and only if the overflow
      test would also pass on the words as they are now. */
  lemma CasSafeIff(s: State, t: Thread)
    requires Inv(s) && Enabled(s, CasOk(t))
    ensures Inv(Do(s, CasOk(t))) <==> !TooFull(s.order, s.head, s.tail)
  {
    var laps := SlotsDivideLap(s.order);
    MinusExact(s.hd, |s.log|);
    if |s.log| < s.hd + Slots(s.order) {
      CasInv(s, t);
    }
  }

  // A store to a live position leaves every other position of the window alone.
  lemma StoreFrame(s: State, pos: nat, node: Node, i: nat)
    requires Window(s)
    requires s.hd <= pos < s.hd + Slots(s.order) && s.hd <= i < s.hd + Slots(s.order) && i != pos
    ensures s.mem[Slot(pos, Slots(s.order)) := node][Slot(i, Slots(s.order))] == At(s, i)
  {
    if i < pos {
      SlotsDistinct(i, pos, Slots(s.order));
    } else {
      SlotsDistinct(pos, i, Slots(s.order));
    }
  }

  lemma StoresFrame(s: State, pos: nat, node: Node)
    requires Window(s) && s.hd <= pos < s.hd + Slots(s.order)
    ensures forall i: nat :: s.hd <= i < s.hd + Slots(s.order) && i != pos ==>
      s.mem[Slot(pos, Slots(s.order)) := node][Slot(i, Slots(s.order))] == At(s, i)
  {
    forall i: nat | s.hd <= i < s.hd + Slots(s.order) && i != pos
      ensures s.mem[Slot(pos, Slots(s.order)) := node][Slot(i, Slots(s.order))] == At(s, i)
    {
      StoreFrame(s, pos, node, i);
    }
  }

  lemma FillInv(s: State, t: Thread)
    requires Inv(s) && Enabled(s, Fill(t))
    ensures Inv(Do(s, Fill(t)))
  {
    var p := Prod(s, t);
    var s' := Do(s, Fill(t));
    assert ProducerOk(s, t) && OwnerOk(s, p.pos);
    IndexOfWord(p.pos, s.order);
    StoresFrame(s, p.pos, At(s, p.pos).(data := To(p.f)));
    forall u: Thread
      ensures ProducerOk(s', u)
    {
      assert ProducerOk(s, u);
      if u != t && Prod(s, u).Filled? {
        assert OwnerOk(s, Prod(s, u).pos);
      }
    }
    forall i: nat | s'.hd <= i < s'.hd + Slots(s.order)
      ensures SlotOk(s', i)
    {
      assert SlotOk(s, i);
    }
    forall i: nat | i in s'.owner
      ensures OwnerOk(s', i)
    {
      assert OwnerOk(s, i);
    }
  }

  lemma CommitInv(s: State, t: Thread)
    requires Inv(s) && Enabled(s, Commit(t))
    ensures Inv(Do(s, Commit(t)))
  {
    var p := Prod(s, t);
    var s' := Do(s, Commit(t));
    assert ProducerOk(s, t) && OwnerOk(s, p.pos);
    IndexOfWord(p.pos, s.order);
    StoresFrame(s, p.pos, At(s, p.pos).(id := 1));
    forall u: Thread
      ensures ProducerOk(s', u)
    {
      assert ProducerOk(s, u);
      if u != t && Owns(Prod(s, u)) {
        assert OwnerOk(s, Prod(s, u).pos);
      }
    }
    forall i: nat | s'.hd <= i < s'.hd + Slots(s.order)
      ensures SlotOk(s', i)
    {
      assert SlotOk(s, i);
    }
    forall i: nat | i in s'.owner
      ensures OwnerOk(s', i)
    {
      assert OwnerOk(s, i);
    }
  }

  lemma ZeroInv(s: State)
    requires Inv(s) && Enabled(s, Zero)
    ensures Inv(Do(s, Zero))
  {
    var s' := Do(s, Zero);
    IndexOfWord(s.hd, s.order);
    StoresFrame(s, s.hd, ZERO);
    forall u: Thread
      ensures ProducerOk(s', u)
    {
      assert ProducerOk(s, u);
      if Prod(s, u).Filled? {
        assert OwnerOk(s, Prod(s, u).pos);
      }
    }
    forall i: nat | s'.hd <= i < s'.hd + Slots(s.order)
      ensures SlotOk(s', i)
    {
      assert SlotOk(s, i);
    }
    forall i: nat | i in s'.owner
      ensures OwnerOk(s', i)
    {
      assert OwnerOk(s, i);
    }
  }

  lemma AdvanceInv(s: State)
    requires Inv(s) && Enabled(s, Advance)
    ensures Inv(Do(s, Advance))
  {
    var s' := Do(s, Advance);
    WordStep(s.hd);
    SlotWraps(s.hd, Slots(s.order));
    forall u: Thread
      ensures ProducerOk(s', u)
    {
      assert ProducerOk(s, u);
    }
    forall i: nat | s'.hd <= i < s'.hd + Slots(s.order)
      ensures SlotOk(s', i)
    {
      assert SlotOk(s, if i == s.hd + Slots(s.order) then s.hd else i);
    }
    forall i: nat | i in s'.owner
      ensures OwnerOk(s', i)
    {
      assert OwnerOk(s, i);
    }
  }

  // A step that touches neither memory nor the counters keeps all but the moving parties.
  lemma SameMemory(s: State, s': State)
    requires Inv(s) && Window(s')
    requires s'.mem == s.mem && s'.order == s.order && s'.hd == s.hd && s'.log == s.log && s'.owner == s.owner
    requires s'.cons.Zeroed? <==> s.cons.Zeroed?
    requires forall t: Thread :: Owns(Prod(s, t)) ==> Prod(s', t) == Prod(s, t)
    ensures forall i: nat :: s.hd <= i < s.hd + Slots(s.order) ==> SlotOk(s', i)
    ensures forall i: nat :: i in s'.owner ==> OwnerOk(s', i)
  {
    forall i: nat | s.hd <= i < s.hd + Slots(s.order)
      ensures SlotOk(s', i)
    {
      assert SlotOk(s, i);
    }
    forall i: nat | i in s'.owner
      ensures OwnerOk(s', i)
    {
      assert OwnerOk(s, i);
    }
  }

  // A producer's step inside `reserve`, or on its way in or out.
  lemma ProducerLocalInv(s: State, st: Step)
    requires Inv(s) && Enabled(s, st)
    requires st.Begin? || st.LoadHead? || st.LoadTail? || st.CheckFull? || st.CasFail? || st.GiveUp? || st.Finish?
    ensures Inv(Do(s, st))
  {
    var s' := Do(s, st);
    SameMemory(s, s');
    forall u: Thread
      ensures ProducerOk(s', u)
    {
      assert ProducerOk(s, u);
    }
  }

  // A consumer's step inside `peek`, or the use of the node.
  lemma ConsumerLocalInv(s: State, st: Step)
    requires Inv(s) && Enabled(s, st)
    requires st.PeekHead? || st.PeekTail? || st.PeekId? || st.Take? || st.Rest?
    ensures Inv(Do(s, st))
  {
    var s' := Do(s, st);
    SameMemory(s, s');
    forall u: Thread
      ensures ProducerOk(s', u)
    {
      assert ProducerOk(s, u);
    }
    if st.PeekTail? {
      var laps := SlotsDivideLap(s.order);
      WordsDistinct(s.hd, |s.log|);
    } else if st.PeekId? || st.Take? {
      IndexOfWord(s.hd, s.order);
      assert SlotOk(s, s.hd);
      if s.hd in s.owner {
        assert OwnerOk(s, s.hd);
      }
    }
  }

  lemma StepInv(s: State, st: Step)
    requires Inv(s) && Enabled(s, st) && Punctual(s, st)
    ensures Inv(Do(s, st))
  {
    match st
    case CasOk(t) => RoomAtCas(s, t); CasInv(s, t);
    case Fill(t) => FillInv(s, t);
    case Commit(t) => CommitInv(s, t);
    case Zero => ZeroInv(s);
    case Advance => AdvanceInv(s);
    case PeekHead => ConsumerLocalInv(s, st);
    case PeekTail => ConsumerLocalInv(s, st);
    case PeekId => ConsumerLocalInv(s, st);
    case Take => ConsumerLocalInv(s, st);
    case Rest => ConsumerLocalInv(s, st);
    case _ => ProducerLocalInv(s, st);
  }

  /** Every state of every punctual schedule satisfies the invariant. */
  lemma {:induction false} ScheduleInv(s: State, steps: seq<Step>)
    requires Inv(s) && Schedule(s, steps) && PunctualSchedule(s, steps)
    ensures Inv(Exec(s, steps)) && Exec(s, steps).order == s.order
    decreases |steps|
  {
    if steps == [] {
    } else {
      StepInv(s, steps[0]);
      ScheduleInv(Do(s, steps[0]), steps[1..]);
    }
  }

  // The queue the ring stands for: published in order of compare-and-swap, not yet taken.
  function Pending(s: State): seq<Functor>
    requires |s.out| <= |s.log|
  {
    s.log[|s.out|..]
  }

  /** Each step is an enqueue of the caller's functor, a dequeue of the oldest one, or invisible. */
  lemma StepRefinesQueue(s: State, st: Step)
    requires Inv(s) && Enabled(s, st) && Punctual(s, st)
    ensures |s.out| <= |s.log| && |Do(s, st).out| <= |Do(s, st).log|
    ensures st.CasOk? ==>
      Pending(Do(s, st)) == Pending(s) + [Prod(s, st.t).f] && Do(s, st).out == s.out
    ensures st.Take? ==>
      exists f :: Pending(s) == [f] + Pending(Do(s, st)) && Do(s, st).out == s.out + [f]
    ensures !st.CasOk? && !st.Take? ==> Pending(Do(s, st)) == Pending(s) && Do(s, st).out == s.out
  {
    StepInv(s, st);
    if st.Take? {
      IndexOfWord(s.hd, s.order);
      assert SlotOk(s, s.hd);
      assert Pending(s) == [s.log[s.hd]] + Pending(Do(s, st));
    }
  }

  /** The ring is FIFO over whole schedules: what came out is a prefix of what was reserved, and no
      more than a ring's worth of functors is ever inside. */
  lemma FifoLog(init: State, steps: seq<Step>)
    requires Init(init) && Schedule(init, steps) && PunctualSchedule(init, steps)
    ensures
      var s := Exec(init, steps);
      && s.hd <= |s.out| <= |s.log| && |s.out| <= s.hd + 1
      && s.out == s.log[..|s.out|]
      && |s.log| - s.hd <= Slots(init.order)
  {
    InitInv(init);
    ScheduleInv(init, steps);
  }

  /** What `Take` reads was committed: no thread still owns that position. */
  lemma TakenWasCommitted(s: State)
    requires Inv(s) && Enabled(s, Take)
    ensures HeadNode(s) == Node(To(s.log[s.hd]), 1)
    ensures forall t: Thread :: Owns(Prod(s, t)) ==> Prod(s, t).pos != s.hd
  {
    IndexOfWord(s.hd, s.order);
    assert SlotOk(s, s.hd);
    forall t: Thread | Owns(Prod(s, t))
      ensures Prod(s, t).pos != s.hd
    {
      assert ProducerOk(s, t);
    }
  }

  /** Two outstanding reservations never point at the same node. */
  lemma ReservationsDisjoint(s: State, t: Thread, u: Thread)
    requires Inv(s) && t != u && Owns(Prod(s, t)) && Owns(Prod(s, u))
    ensures Index(Prod(s, t).w, s.order) != Index(Prod(s, u).w, s.order)
  {
    var p, q := Prod(s, t), Prod(s, u);
    assert ProducerOk(s, t) && ProducerOk(s, u);
    assert OwnerOk(s, p.pos) && OwnerOk(s, q.pos);
    IndexOfWord(p.pos, s.order);
    IndexOfWord(q.pos, s.order);
    if p.pos < q.pos {
      SlotsDistinct(p.pos, q.pos, Slots(s.order));
    } else {
      SlotsDistinct(q.pos, p.pos, Slots(s.order));
    }
  }

  /** No reservation points at the node the consumer has found, is running or is clearing. */
  lemma ConsumerNodeUntouched(s: State, t: Thread)
    requires Inv(s) && Owns(Prod(s, t)) && (s.cons.Found? || s.cons.Taken? || s.cons.Zeroed?)
    ensures Index(Prod(s, t).w, s.order) != Index(s.head, s.order)
  {
    var p := Prod(s, t);
    assert ProducerOk(s, t);
    assert OwnerOk(s, p.pos);
    IndexOfWord(p.pos, s.order);
    IndexOfWord(s.hd, s.order);
    SlotsDistinct(s.hd, p.pos, Slots(s.order));
  }

  /** `peek` sees an empty ring exactly when it is empty, and stops early only at a node whose
      producer is still between its compare-and-swap and its commit. */
  lemma PeekNullExact(s: State)
    requires Inv(s)
    ensures Enabled(s, PeekHead) ==> (Do(s, PeekHead).cons.SawNull? <==> !s.valid)
    ensures Enabled(s, PeekTail) ==> (Do(s, PeekTail).cons.SawNull? <==> |s.log| == s.hd)
    ensures Enabled(s, PeekId) ==> (Do(s, PeekId).cons.SawNull? <==> s.hd in s.owner)
    ensures s.hd in s.owner ==> Owns(Prod(s, s.owner[s.hd])) && Prod(s, s.owner[s.hd]).pos == s.hd
  {
    var laps := SlotsDivideLap(s.order);
    WordsDistinct(s.hd, |s.log|);
    IndexOfWord(s.hd, s.order);
    if s.hd in s.owner {
      assert OwnerOk(s, s.hd);
    } else if s.hd < |s.log| {
      assert SlotOk(s, s.hd);
    }
  }

  /** Fewer than `LAP` minus one ring of reservations between loading the head and the
      compare-and-swap is enough for the schedule to be punctual there. */
  lemma ShortPauseIsPunctual(s: State, t: Thread, between: seq<Step>)
    requires Inv(s) && Enabled(s, LoadHead(t))
    requires var s1 := Do(s, LoadHead(t));
      && Schedule(s1, between) && PunctualSchedule(s1, between)
      && (forall i :: 0 <= i < |between| ==> Mover(between[i]) != Mine(t) || between[i] == LoadTail(t))
      && |Exec(s1, between).log| - |s.log| < LAP - Slots(s.order)
    ensures Punctual(Exec(Do(s, LoadHead(t)), between), CasOk(t))
  {
    var s1 := Do(s, LoadHead(t));
    StepInv(s, LoadHead(t));
    HeadReadKept(s1, t, between);
  }

  // Which thread takes a step; the consumer's steps belong to no producer.
  datatype Who = Mine(t: Thread) | Consuming

  function Mover(st: Step): Who
  {
    match st
    case Begin(t, _) => Mine(t)
    case LoadHead(t) => Mine(t)
    case LoadTail(t) => Mine(t)
    case CheckFull(t) => Mine(t)
    case CasOk(t) => Mine(t)
    case CasFail(t) => Mine(t)
    case Fill(t) => Mine(t)
    case Commit(t) => Mine(t)
    case GiveUp(t) => Mine(t)
    case Finish(t) => Mine(t)
    case _ => Consuming
  }

  lemma {:induction false} HeadReadKept(s: State, t: Thread, steps: seq<Step>)
    requires Prod(s, t).HaveHead? || Prod(s, t).HaveTail?
    requires Schedule(s, steps)
    requires forall i :: 0 <= i < |steps| ==> Mover(steps[i]) != Mine(t) || steps[i] == LoadTail(t)
    ensures
      var p := Prod(Exec(s, steps), t);
      (p.HaveHead? || p.HaveTail?) && p.hr == Prod(s, t).hr
    decreases |steps|
  {
    if steps == [] {
    } else {
      assert Mover(steps[0]) != Mine(t) || steps[0] == LoadTail(t);
      HeadReadKept(Do(s, steps[0]), t, steps[1..]);
    }
  }
}
