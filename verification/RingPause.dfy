/** The pause bound of the ring is needed and cannot be relaxed by one.

For every ring order there is a schedule, punctual up to its last step, in which one producer
sleeps between its overflow test and its compare-and-swap while exactly one lap of reservations
goes by. The swap then succeeds on a full ring and hands out the node of an unread functor.
*/
module RingPause {
  import opened RingArith
  import opened Ring
  import opened RingProofs

  ghost predicate Reaches(s: State, s': State)
  {
    exists steps :: Schedule(s, steps) && PunctualSchedule(s, steps) && Exec(s, steps) == s'
  }

  lemma ReachesSelf(s: State)
    ensures Reaches(s, s)
  {
    assert Schedule(s, []) && PunctualSchedule(s, []) && Exec(s, []) == s;
  }

  lemma {:induction false} Snoc(s: State, steps: seq<Step>, st: Step)
    requires Schedule(s, steps) && PunctualSchedule(s, steps)
    requires Enabled(Exec(s, steps), st) && Punctual(Exec(s, steps), st)
    ensures Schedule(s, steps + [st]) && PunctualSchedule(s, steps + [st])
    ensures Exec(s, steps + [st]) == Do(Exec(s, steps), st)
    decreases |steps|
  {
    if steps == [] {
      assert steps + [st] == [st];
      assert [st][1..] == [];
    } else {
      Snoc(Do(s, steps[0]), steps[1..], st);
      assert (steps + [st])[1..] == steps[1..] + [st];
    }
  }

  lemma ReachStep(s: State, s1: State, st: Step)
    requires Reaches(s, s1) && Enabled(s1, st) && Punctual(s1, st) && Inv(s1)
    ensures Reaches(s, Do(s1, st)) && Inv(Do(s1, st))
  {
    var steps :| Schedule(s, steps) && PunctualSchedule(s, steps) && Exec(s, steps) == s1;
    Snoc(s, steps, st);
    StepInv(s1, st);
  }

  // Thread 0 sleeps after its overflow test, nobody is mid-operation, `k` reserved, `h` consumed.
  ghost predicate Quiet(s: State, f: Functor, k: nat, h: nat)
  {
    && Inv(s)
    && |s.log| == k && s.hd == h
    && s.valid
    && s.owner == map[]
    && Prod(s, 0) == HaveTail(f, 0, 0, 0, 0)
    && Prod(s, 1).Idle?
    && s.cons.Resting?
  }

  // Thread 1 holds a fresh reservation at position `k`.
  ghost predicate Pushing(s: State, f: Functor, k: nat, h: nat)
  {
    && Inv(s)
    && |s.log| == k + 1 && s.hd == h
    && s.valid
    && s.owner == map[k := 1]
    && Prod(s, 0) == HaveTail(f, 0, 0, 0, 0)
    && Prod(s, 1).Reserved? && Prod(s, 1).pos == k
    && s.cons.Resting?
  }

  // Thread 1 has loaded both words for its next reservation.
  ghost predicate Loaded(s: State, f: Functor, k: nat, h: nat)
  {
    && Inv(s)
    && |s.log| == k && s.hd == h
    && s.valid
    && s.owner == map[]
    && Prod(s, 0) == HaveTail(f, 0, 0, 0, 0)
    && Prod(s, 1) == HaveTail(f, Word(h), Word(k), h, k)
    && s.cons.Resting?
  }

  lemma PushLoads(init: State, s: State, f: Functor, k: nat, h: nat) returns (s': State)
    requires Quiet(s, f, k, h) && Reaches(init, s)
    ensures Loaded(s', f, k, h) && s'.order == s.order && Reaches(init, s')
  {
    ReachStep(init, s, Begin(1, f));
    var s1 := Do(s, Begin(1, f));
    ReachStep(init, s1, LoadHead(1));
    var s2 := Do(s1, LoadHead(1));
    ReachStep(init, s2, LoadTail(1));
    s' := Do(s2, LoadTail(1));
  }

  lemma PushReserve(init: State, s: State, f: Functor, k: nat, h: nat) returns (s': State)
    requires Quiet(s, f, k, h) && k < h + Slots(s.order) && Reaches(init, s)
    ensures Pushing(s', f, k, h) && s'.order == s.order && Reaches(init, s')
  {
    var s1 := PushLoads(init, s, f, k, h);
    assert Enabled(s1, CasOk(1)) && Punctual(s1, CasOk(1)) by {
      var laps := SlotsDivideLap(s.order);
      MinusExact(h, k);
    }
    ReachStep(init, s1, CasOk(1));
    s' := Do(s1, CasOk(1));
  }

  lemma PushCommit(init: State, s: State, f: Functor, k: nat, h: nat) returns (s': State)
    requires Pushing(s, f, k, h) && Reaches(init, s)
    ensures Quiet(s', f, k + 1, h) && s'.order == s.order && Reaches(init, s')
  {
    ReachStep(init, s, Fill(1));
    var s1 := Do(s, Fill(1));
    ReachStep(init, s1, Commit(1));
    var s2 := Do(s1, Commit(1));
    ReachStep(init, s2, Finish(1));
    s' := Do(s2, Finish(1));
  }

  // Thread 1 pushes one functor.
  lemma Push(init: State, s: State, f: Functor, k: nat, h: nat) returns (s': State)
    requires Quiet(s, f, k, h) && k < h + Slots(s.order) && Reaches(init, s)
    ensures Quiet(s', f, k + 1, h) && s'.order == s.order && Reaches(init, s')
  {
    var s1 := PushReserve(init, s, f, k, h);
    s' := PushCommit(init, s1, f, k, h);
  }

  // The consumer has found the oldest functor.
  ghost predicate Popping(s: State, f: Functor, k: nat, h: nat)
  {
    && Inv(s)
    && |s.log| == k && s.hd == h
    && s.valid
    && s.owner == map[]
    && Prod(s, 0) == HaveTail(f, 0, 0, 0, 0)
    && Prod(s, 1).Idle?
    && s.cons.Found?
  }

  lemma PopFind(init: State, s: State, f: Functor, k: nat, h: nat) returns (s': State)
    requires Quiet(s, f, k, h) && h < k && Reaches(init, s)
    ensures Popping(s', f, k, h) && s'.order == s.order && Reaches(init, s')
  {
    ReachStep(init, s, PeekHead);
    var s1 := Do(s, PeekHead);
    PeekNullExact(s1);
    ReachStep(init, s1, PeekTail);
    var s2 := Do(s1, PeekTail);
    PeekNullExact(s2);
    ReachStep(init, s2, PeekId);
    s' := Do(s2, PeekId);
  }

  lemma PopClear(init: State, s: State, f: Functor, k: nat, h: nat) returns (s': State)
    requires Popping(s, f, k, h) && Reaches(init, s)
    ensures Quiet(s', f, k, h + 1) && s'.order == s.order && Reaches(init, s')
  {
    ReachStep(init, s, Take);
    var s1 := Do(s, Take);
    ReachStep(init, s1, Zero);
    var s2 := Do(s1, Zero);
    ReachStep(init, s2, Advance);
    s' := Do(s2, Advance);
  }

  // The consumer pops one functor.
  lemma Pop(init: State, s: State, f: Functor, k: nat, h: nat) returns (s': State)
    requires Quiet(s, f, k, h) && h < k && Reaches(init, s)
    ensures Quiet(s', f, k, h + 1) && s'.order == s.order && Reaches(init, s')
  {
    var s1 := PopFind(init, s, f, k, h);
    s' := PopClear(init, s1, f, k, h);
  }

  lemma {:induction false} Cycle(init: State, s: State, f: Functor, k: nat, target: nat) returns (s': State)
    requires Quiet(s, f, k, k) && k <= target && Reaches(init, s)
    ensures Quiet(s', f, target, target) && s'.order == s.order && Reaches(init, s')
    decreases target - k
  {
    if k == target {
      s' := s;
    } else {
      var s1 := Push(init, s, f, k, k);
      var s2 := Pop(init, s1, f, k + 1, k);
      s' := Cycle(init, s2, f, k + 1, target);
    }
  }

  lemma {:induction false} FillUp(init: State, s: State, f: Functor, k: nat, h: nat) returns (s': State)
    requires Quiet(s, f, k, h) && Reaches(init, s)
    ensures Quiet(s', f, h + Slots(s.order), h) && s'.order == s.order && Reaches(init, s')
    decreases h + Slots(s.order) - k
  {
    if k == h + Slots(s.order) {
      s' := s;
    } else {
      var s1 := Push(init, s, f, k, h);
      s' := FillUp(init, s1, f, k + 1, h);
    }
  }

  // Thread 0 loads head and tail of the empty ring and falls asleep.
  lemma FallAsleep(init: State, f: Functor) returns (s: State)
    requires Init(init) && init.valid
    ensures Quiet(s, f, 0, 0) && s.order == init.order && Reaches(init, s)
  {
    InitInv(init);
    ReachesSelf(init);
    ReachStep(init, init, Begin(0, f));
    var s1 := Do(init, Begin(0, f));
    ReachStep(init, s1, LoadHead(0));
    var s2 := Do(s1, LoadHead(0));
    ReachStep(init, s2, LoadTail(0));
    s := Do(s2, LoadTail(0));
  }

  // After exactly one lap the sleeper's stale words match a full ring.
  lemma StaleSwap(s: State, f: Functor)
    requires ValidOrder(s.order) && Slots(s.order) <= LAP && Quiet(s, f, LAP, LAP - Slots(s.order))
    ensures Enabled(s, CasOk(0))
    ensures Index(Prod(s, 0).w, s.order) == Index(s.head, s.order) && HeadNode(s).id == 1
  {
    var n := Slots(s.order);
    WordReturns(0);
    assert s.tail == 0;
    SlotWraps(LAP - n, n);
    IndexOfWord(LAP - n, s.order);
    IndexOfWord(LAP, s.order);
    assert SlotOk(s, s.hd);
  }

  /** One lap is too long a pause: from every initial state a punctual schedule leads to a full
      ring on which a compare-and-swap still succeeds, for the node of a functor not yet run. */
  lemma PauseBoundTight(init: State, f: Functor) returns (s: State)
    requires Init(init) && init.valid
    ensures Reaches(init, s) && s.order == init.order && ValidOrder(s.order)
    ensures Enabled(s, CasOk(0)) && |s.log| == Prod(s, 0).hr + LAP
    ensures |Do(s, CasOk(0)).log| - s.hd == Slots(init.order) + 1
    ensures Index(Prod(s, 0).w, s.order) == Index(s.head, s.order) && HeadNode(s).id == 1
    ensures s.hd < |s.log| && |s.out| == s.hd
  {
    var n := Slots(init.order);
    var laps := SlotsDivideLap(init.order);
    var s1 := FallAsleep(init, f);
    var s2 := Cycle(init, s1, f, 0, LAP - n);
    s := FillUp(init, s2, f, LAP - n, LAP - n);
    StaleSwap(s, f);
  }
}
