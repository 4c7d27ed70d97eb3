/** The guarantees of the hand-off, stated over every schedule from an initial state. */
module HandOffTheorems {
  import opened Ring
  import RingProofs
  import H = HandOff
  import opened HandOff
  import opened P = HandOffProofs
  import opened Q = HandOffPlaces

  lemma Reached(init: H.State, steps: seq<H.Step>)
    requires H.Init(init) && H.Schedule(init, steps)
    ensures P.Inv(H.Exec(init, steps)) && Places(H.Exec(init, steps)) && Ordered(H.Exec(init, steps))
  {
    P.InitInvs(init);
    ScheduleConserves(init, steps);
  }

  /** No lost wakeup: at every poll after the first, a queued functor implies a readable eventfd
      or another thread that has published and is about to write it. */
  lemma NoLostWakeup(init: H.State, steps: seq<H.Step>)
    requires H.Init(init) && H.Schedule(init, steps)
    ensures
      var s := H.Exec(init, steps);
      s.phase == AtPoll(false) && Queued(s) ==>
        s.wake > 0 || exists t: Thread :: t != LOOP && Publishing(s, t)
  {
    Reached(init, steps);
    var s := H.Exec(init, steps);
    if s.phase == AtPoll(false) && Queued(s) && s.wake == 0 {
      assert Signal(s);
      var t: Thread :| Publishing(s, t);
      assert t != LOOP;
    }
  }

  /** A quit request from another thread is never slept through, at any poll. */
  lemma NoLostQuit(init: H.State, steps: seq<H.Step>)
    requires H.Init(init) && H.Schedule(init, steps)
    ensures
      var s := H.Exec(init, steps);
      s.phase.AtPoll? && s.quit ==> s.wake > 0 || s.quitters > 0
  {
    Reached(init, steps);
  }

  /** The first poll is guarded exactly when nothing is queued or another thread took part. */
  lemma FirstPollExact(init: H.State, steps: seq<H.Step>)
    requires H.Init(init) && H.Schedule(init, steps)
    ensures
      var s := H.Exec(init, steps);
      s.phase == AtPoll(true) ==> ((Queued(s) ==> Signal(s)) <==> (!Queued(s) || s.outside))
  {
    Reached(init, steps);
  }

  // ----- the first poll can stall -----

  ghost predicate Reaches(init: H.State, s: H.State)
  {
    exists steps :: H.Schedule(init, steps) && H.Exec(init, steps) == s
  }

  lemma {:induction false} Snoc(s: H.State, steps: seq<H.Step>, st: H.Step)
    requires H.Schedule(s, steps)
    requires H.Enabled(H.Exec(s, steps), st) && H.Punctual(H.Exec(s, steps), st)
    ensures H.Schedule(s, steps + [st]) && H.Exec(s, steps + [st]) == H.Do(H.Exec(s, steps), st)
    decreases |steps|
  {
    if steps == [] {
      assert steps + [st] == [st];
      assert [st][1..] == [];
    } else {
      Snoc(H.Do(s, steps[0]), steps[1..], st);
      assert (steps + [st])[1..] == steps[1..] + [st];
    }
  }

  lemma ReachStep(init: H.State, s: H.State, st: H.Step)
    requires Reaches(init, s) && H.Enabled(s, st) && H.Punctual(s, st)
    ensures Reaches(init, H.Do(s, st))
  {
    var steps :| H.Schedule(init, steps) && H.Exec(init, steps) == s;
    Snoc(init, steps, st);
  }

  // Before the loop, the loop thread is at `p` and is the only thread that has ever acted.
  ghost predicate Early(s: H.State, p: Producer)
  {
    && s.wake == 0 && s.phase.PreLoop? && !s.quit && s.quitters == 0 && !s.outside
    && WellFormed(s.ring) && s.ring.hd == 0 && s.ring.cons.Resting?
    && s.ring.prods == map[LOOP := p]
    && |s.place| == 1 && s.trace == [] && s.batch == [] && s.current.None?
    && (if s.ring.valid then s.fallback == [] else s.ring.log == [])
  }

  lemma EarlyLoads(init: H.State) returns (s: H.State)
    requires H.Init(init) && init.ring.valid
    ensures Reaches(init, s) && Early(s, HaveTail(0, 0, 0, 0, 0)) && s.ring.log == [] && s.ring.tail == 0 && s.ring.valid
  {
    assert H.Schedule(init, []) && H.Exec(init, []) == init;
    ReachStep(init, init, Call(LOOP));
    var s1 := H.Do(init, Call(LOOP));
    ReachStep(init, s1, Move(LOOP, LoadHead(LOOP)));
    var s2 := H.Do(s1, Move(LOOP, LoadHead(LOOP)));
    ReachStep(init, s2, Move(LOOP, LoadTail(LOOP)));
    s := H.Do(s2, Move(LOOP, LoadTail(LOOP)));
  }

  lemma EarlyReserve(init: H.State, s: H.State) returns (s': H.State)
    requires Reaches(init, s) && Early(s, HaveTail(0, 0, 0, 0, 0)) && s.ring.log == [] && s.ring.tail == 0 && s.ring.valid
    ensures Reaches(init, s') && Early(s', Reserved(0, 0, 0)) && s'.ring.log == [0] && s'.ring.valid == s.ring.valid
  {
    ReachStep(init, s, Move(LOOP, CasOk(LOOP)));
    s' := H.Do(s, Move(LOOP, CasOk(LOOP)));
  }

  lemma EarlyFill(init: H.State, s: H.State) returns (s': H.State)
    requires Reaches(init, s) && Early(s, Reserved(0, 0, 0)) && s.ring.log == [0]
    ensures Reaches(init, s') && Early(s', Filled(0, 0)) && s'.ring.log == [0] && s'.ring.valid == s.ring.valid
  {
    ReachStep(init, s, Move(LOOP, Fill(LOOP)));
    s' := H.Do(s, Move(LOOP, Fill(LOOP)));
  }

  lemma EarlyCommit(init: H.State, s: H.State) returns (s': H.State)
    requires Reaches(init, s) && Early(s, Filled(0, 0)) && s.ring.log == [0]
    ensures Reaches(init, s') && Early(s', Returned) && s'.ring.log == [0] && s'.ring.valid == s.ring.valid
  {
    ReachStep(init, s, Move(LOOP, Commit(LOOP)));
    s' := H.Do(s, Move(LOOP, Commit(LOOP)));
  }

  lemma EarlyAppend(init: H.State) returns (s: H.State)
    requires H.Init(init) && !init.ring.valid
    ensures Reaches(init, s) && Early(s, Returned) && s.fallback == [0] && !s.ring.valid
  {
    assert H.Schedule(init, []) && H.Exec(init, []) == init;
    ReachStep(init, init, Call(LOOP));
    var s1 := H.Do(init, Call(LOOP));
    ReachStep(init, s1, Append(LOOP));
    s := H.Do(s1, Append(LOOP));
  }

  lemma EnterAndPoll(init: H.State, s: H.State) returns (s': H.State)
    requires Reaches(init, s) && Early(s, Returned) && Queued(s)
    ensures Reaches(init, s')
    ensures s' == s.(phase := AtPoll(true), ring := s.ring.(prods := map[LOOP := Idle]))
  {
    ReachStep(init, s, Wake(LOOP));
    var s1 := H.Do(s, Wake(LOOP));
    ReachStep(init, s1, EnterLoop);
    var s2 := H.Do(s1, EnterLoop);
    ReachStep(init, s2, CheckQuit);
    s' := H.Do(s2, CheckQuit);
  }

  // At the first poll, with the one functor that was queued before.
  ghost predicate Stalled(s: H.State, valid: bool)
  {
    && s.phase == AtPoll(true) && s.wake == 0 && !s.quit && s.ring.prods == map[LOOP := Idle]
    && s.ring.hd == 0 && s.ring.cons.Resting? && s.ring.valid == valid
    && |s.place| == 1 && s.trace == [] && s.batch == [] && s.current.None?
    && (if valid then s.ring.log == [0] && s.fallback == [] else s.ring.log == [] && s.fallback == [0])
  }

  lemma ReachStalled(init: H.State) returns (s: H.State)
    requires H.Init(init)
    ensures Reaches(init, s) && Stalled(s, init.ring.valid)
  {
    var s1;
    if init.ring.valid {
      s1 := EarlyLoads(init);
      s1 := EarlyReserve(init, s1);
      s1 := EarlyFill(init, s1);
      s1 := EarlyCommit(init, s1);
    } else {
      s1 := EarlyAppend(init);
    }
    s := EnterAndPoll(init, s1);
  }

  /** From every initial state the loop can reach its first poll with a functor queued, the
      eventfd at zero and every thread idle. */
  lemma FirstPollCanStall(init: H.State) returns (s: H.State)
    requires H.Init(init)
    ensures Reaches(init, s) && s.phase == AtPoll(true) && Queued(s) && !Signal(s)
    ensures forall t: Thread :: Prod(s.ring, t).Idle?
  {
    s := ReachStalled(init);
    assert forall t: Thread :: !Publishing(s, t);
  }

  // ----- conservation -----

  function Bit(b: bool): nat
  {
    if b then 1 else 0
  }

  // In how many of the places a functor can be does `f` occur?
  ghost function Occurrences(s: H.State, f: Functor): nat
    requires |s.ring.out| <= |s.ring.log|
  {
    Bit(f in RingPart(s.trace)) + Bit(f in FallbackPart(s.trace)) +
    Bit(f in s.ring.log[|s.ring.out|..]) + Bit(f in s.batch) + Bit(f in s.fallback) +
    Bit(exists t: Thread :: Holds(Prod(s.ring, t), f))
  }

  // One position in a sequence.
  lemma SplitOnce(a: seq<Functor>, b: seq<Functor>, c: seq<Functor>, i: nat, f: Functor)
    requires i < |a + b + c| && (a + b + c)[i] == f
    requires forall j :: 0 <= j < |a + b + c| && j != i ==> (a + b + c)[j] != f
    ensures Bit(f in a) + Bit(f in b) + Bit(f in c) == 1
  {
    var d := a + b + c;
    assert forall j :: 0 <= j < |a| ==> a[j] == d[j];
    assert forall j :: 0 <= j < |b| ==> b[j] == d[|a| + j];
    assert forall j :: 0 <= j < |c| ==> c[j] == d[|a| + |b| + j];
    if i < |a| {
      assert a[i] == f;
    } else if i < |a| + |b| {
      assert b[i - |a|] == f;
    } else {
      assert c[i - |a| - |b|] == f;
    }
  }

  lemma RingOccurrences(s: H.State, f: Functor)
    requires RingProofs.Inv(s.ring) && Places(s) && Ordered(s) && f < |s.place|
    ensures |s.ring.out| <= |s.ring.log|
    ensures Bit(f in RingPart(s.trace)) + Bit(f in s.ring.log[|s.ring.out|..]) == Bit(s.place[f].InRing?)
  {
    var k := |s.ring.out|;
    var log := s.ring.log;
    assert log == log[..k] + [] + log[k..];
    assert s.ring.out == log[..k];
    assert PlaceOk(s, f);
    forall j: nat | j < |log| && log[j] == f
      ensures s.place[f] == InRing(j)
    {
      assert RingOk(s, j);
    }
    if s.place[f].InRing? {
      SplitOnce(log[..k], [], log[k..], s.place[f].i, f);
    } else {
      assert f !in log;
    }
  }

  lemma FallbackOccurrences(s: H.State, f: Functor)
    requires Places(s) && Ordered(s) && f < |s.place|
    ensures Bit(f in FallbackPart(s.trace)) + Bit(f in s.batch) + Bit(f in s.fallback) == Bit(s.place[f].InFallback?)
  {
    assert PlaceOk(s, f);
    forall j: nat | j < |s.fbLog| && s.fbLog[j] == f
      ensures s.place[f] == InFallback(j)
    {
      assert FallbackOk(s, j);
    }
    if s.place[f].InFallback? {
      SplitOnce(FallbackPart(s.trace), s.batch, s.fallback, s.place[f].i, f);
    } else {
      assert f !in s.fbLog;
    }
  }

  lemma HandOccurrences(s: H.State, f: Functor)
    requires Places(s) && f < |s.place|
    ensures (exists t: Thread :: Holds(Prod(s.ring, t), f)) <==> s.place[f].Hand?
    ensures forall t: Thread, u: Thread :: Holds(Prod(s.ring, t), f) && Holds(Prod(s.ring, u), f) ==> t == u
  {
    assert PlaceOk(s, f);
    forall t: Thread | Holds(Prod(s.ring, t), f)
      ensures s.place[f] == Hand(t)
    {
      assert HandOk(s, t);
    }
  }

  /** Functor conservation: whatever the schedule, an accepted functor is in exactly one of:
      started from the ring, started from the fallback batch, waiting in the ring, in the swapped
      batch, in the fallback vector, in the hands of its one caller. */
  lemma EachFunctorOnce(init: H.State, steps: seq<H.Step>, f: Functor)
    requires H.Init(init) && H.Schedule(init, steps)
    ensures
      var s := H.Exec(init, steps);
      && |s.ring.out| <= |s.ring.log|
      && (f < |s.place| ==> Occurrences(s, f) == 1)
      && (f < |s.place| ==> forall t: Thread, u: Thread ::
            Holds(Prod(s.ring, t), f) && Holds(Prod(s.ring, u), f) ==> t == u)
  {
    Reached(init, steps);
    var s := H.Exec(init, steps);
    if f < |s.place| {
      RingOccurrences(s, f);
      FallbackOccurrences(s, f);
      HandOccurrences(s, f);
    }
  }

  lemma {:induction false} TraceMember(trace: seq<Ran>, i: nat)
    requires i < |trace|
    ensures trace[i].FromRing? ==>
      var k := |RingPart(trace[..i])|; k < |RingPart(trace)| && RingPart(trace)[k] == trace[i].f
    ensures trace[i].FromFallback? ==>
      var k := |FallbackPart(trace[..i])|; k < |FallbackPart(trace)| && FallbackPart(trace)[k] == trace[i].f
    decreases |trace|
  {
    var rest := trace[..|trace| - 1];
    if i == |trace| - 1 {
    } else {
      TraceMember(rest, i);
      assert rest[..i] == trace[..i];
    }
  }

  lemma {:induction false} PartGrows(trace: seq<Ran>, i: nat, j: nat)
    requires i < j <= |trace|
    ensures |RingPart(trace[..i])| + Bit(trace[i].FromRing?) <= |RingPart(trace[..j])|
    ensures |FallbackPart(trace[..i])| + Bit(trace[i].FromFallback?) <= |FallbackPart(trace[..j])|
    decreases j
  {
    assert trace[..j][..j - 1] == trace[..j - 1];
    if i == j - 1 {
    } else {
      PartGrows(trace, i, j - 1);
    }
  }

  /** Each functor starts at most once, and each queue hands its functors over in entry order. */
  lemma AtMostOnceInOrder(init: H.State, steps: seq<H.Step>)
    requires H.Init(init) && H.Schedule(init, steps)
    ensures
      var s := H.Exec(init, steps);
      && (forall i, j :: 0 <= i < j < |s.trace| ==> s.trace[i].f != s.trace[j].f)
      && RingPart(s.trace) <= s.ring.log
      && FallbackPart(s.trace) <= s.fbLog
  {
    Reached(init, steps);
    var s := H.Exec(init, steps);
    forall i, j | 0 <= i < j < |s.trace|
      ensures s.trace[i].f != s.trace[j].f
    {
      TraceMember(s.trace, i);
      TraceMember(s.trace, j);
      PartGrows(s.trace, i, j);
      StartedPlace(s, i);
      StartedPlace(s, j);
    }
  }

  // A started functor's place records the position at which it entered its queue.
  lemma StartedPlace(s: H.State, i: nat)
    requires RingProofs.Inv(s.ring) && Places(s) && Ordered(s) && i < |s.trace|
    ensures s.trace[i].f < |s.place|
    ensures s.trace[i].FromRing? ==> s.place[s.trace[i].f] == InRing(|RingPart(s.trace[..i])|)
    ensures s.trace[i].FromFallback? ==> s.place[s.trace[i].f] == InFallback(|FallbackPart(s.trace[..i])|)
  {
    TraceMember(s.trace, i);
    if s.trace[i].FromRing? {
      assert RingOk(s, |RingPart(s.trace[..i])|);
    } else {
      assert FallbackOk(s, |FallbackPart(s.trace[..i])|);
    }
  }

  /** When the loop sleeps in a later poll with the eventfd at zero and every thread idle, every
      functor ever accepted has been started. */
  lemma NothingLeftBehind(init: H.State, steps: seq<H.Step>, f: Functor)
    requires H.Init(init) && H.Schedule(init, steps)
    ensures
      var s := H.Exec(init, steps);
      s.phase == AtPoll(false) && s.wake == 0 && (forall t: Thread :: Prod(s.ring, t).Idle?) && f < |s.place| ==>
        f in RingPart(s.trace) || f in FallbackPart(s.trace)
  {
    NoLostWakeup(init, steps);
    EachFunctorOnce(init, steps, f);
    Reached(init, steps);
    var s := H.Exec(init, steps);
    if s.phase == AtPoll(false) && s.wake == 0 && (forall t: Thread :: Prod(s.ring, t).Idle?) && f < |s.place| {
      assert !Queued(s) by {
        assert forall t: Thread :: !Publishing(s, t);
      }
      OnlyStarted(s, f);
    }
  }

  // With empty queues and idle threads, the one place left for a functor is among the started ones.
  lemma OnlyStarted(s: H.State, f: Functor)
    requires |s.ring.out| <= |s.ring.log| && Occurrences(s, f) == 1
    requires s.ring.log[|s.ring.out|..] == [] && s.batch == [] && s.fallback == []
    requires forall t: Thread :: Prod(s.ring, t).Idle?
    ensures f in RingPart(s.trace) || f in FallbackPart(s.trace)
  {
    assert !exists t: Thread :: Holds(Prod(s.ring, t), f);
  }
}
