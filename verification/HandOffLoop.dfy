/** Which functors take the fallback vector, when the loop stops, and that it gets past its first turn. */
module HandOffLoop {
  import opened Ring
  import RingProofs
  import R = RingReserve
  import H = HandOff
  import opened HandOff
  import opened P = HandOffProofs
  import opened T = HandOffTheorems

  // ----- the fallback vector -----

  // In this step the caller of functor `f` learns that the ring has no node for it.
  ghost predicate Refused(s: H.State, st: H.Step, f: Functor)
    requires RingProofs.Inv(s.ring)
  {
    || (st.Call? && !s.ring.valid && f == |s.place|)
    || (st.Move? && Prod(s.ring, st.t).HaveTail? && Prod(s.ring, st.t).f == f && R.Refused(s.ring, st.st, st.t))
  }

  ghost predicate RefusedIn(s: H.State, steps: seq<H.Step>, f: Functor)
    requires P.Inv(s) && H.Schedule(s, steps)
    decreases |steps|
  {
    steps != [] &&
    (Refused(s, steps[0], f) || (P.StepInv(s, steps[0]); RefusedIn(H.Do(s, steps[0]), steps[1..], f)))
  }

  // `f` went to the fallback vector, or its caller is on the way there.
  ghost predicate Away(s: H.State, f: Functor)
  {
    f in s.fbLog || exists t: Thread :: Prod(s.ring, t) == Full(f)
  }

  lemma MoveAway(s: H.State, t: Thread, rst: Ring.Step, f: Functor)
    requires P.Inv(s) && H.Enabled(s, Move(t, rst))
    ensures Away(H.Do(s, Move(t, rst)), f) <==> Away(s, f) || Refused(s, Move(t, rst), f)
  {
    var s' := H.Do(s, Move(t, rst));
    MoveFrame(s, t, rst);
    NeverInside(s, t, rst);
    R.ReserveNullIff(s.ring, rst, t);
    assert RingProofs.Mover(rst) == RingProofs.Mine(t);
    assert forall u: Thread :: u != t ==> Prod(s'.ring, u) == Prod(s.ring, u);
  }

  lemma AppendAway(s: H.State, t: Thread, f: Functor)
    requires H.Enabled(s, Append(t))
    ensures Away(H.Do(s, Append(t)), f) <==> Away(s, f)
  {
    var s' := H.Do(s, Append(t));
    assert forall u: Thread :: u != t ==> Prod(s'.ring, u) == Prod(s.ring, u);
    assert Prod(s.ring, t) == Full(Prod(s.ring, t).f);
  }

  lemma CallAway(s: H.State, t: Thread, f: Functor)
    requires RingProofs.Inv(s.ring) && H.Enabled(s, Call(t))
    ensures Away(H.Do(s, Call(t)), f) <==> Away(s, f) || Refused(s, Call(t), f)
  {
    var s' := H.Do(s, Call(t));
    assert forall u: Thread :: u != t ==> Prod(s'.ring, u) == Prod(s.ring, u);
    assert Prod(s'.ring, t) == if s.ring.valid then Start(|s.place|) else Full(|s.place|);
  }

  lemma WakeAway(s: H.State, t: Thread, f: Functor)
    requires H.Enabled(s, Wake(t))
    ensures Away(H.Do(s, Wake(t)), f) <==> Away(s, f)
  {
    var s' := H.Do(s, Wake(t));
    assert forall u: Thread :: u != t ==> Prod(s'.ring, u) == Prod(s.ring, u);
  }

  lemma SameAway(s: H.State, s': H.State, f: Functor)
    requires s'.fbLog == s.fbLog && s'.ring.prods == s.ring.prods
    ensures Away(s', f) <==> Away(s, f)
  {
    assert forall u: Thread :: Prod(s'.ring, u) == Prod(s.ring, u);
  }

  lemma StepAway(s: H.State, st: H.Step, f: Functor)
    requires P.Inv(s) && H.Enabled(s, st)
    ensures Away(H.Do(s, st), f) <==> Away(s, f) || Refused(s, st, f)
  {
    if st.Move? {
      MoveAway(s, st.t, st.st, f);
    } else if st.Call? {
      CallAway(s, st.t, f);
    } else if st.Append? {
      AppendAway(s, st.t, f);
    } else if st.Wake? {
      WakeAway(s, st.t, f);
    } else {
      if st.Consume? {
        ConsumeFrame(s, st.st);
      }
      SameAway(s, H.Do(s, st), f);
    }
  }

  lemma {:induction false} RunAway(s: H.State, steps: seq<H.Step>, f: Functor)
    requires P.Inv(s) && H.Schedule(s, steps)
    ensures Away(H.Exec(s, steps), f) <==> Away(s, f) || RefusedIn(s, steps, f)
    decreases |steps|
  {
    if steps == [] {
    } else {
      StepAway(s, steps[0], f);
      P.StepInv(s, steps[0]);
      RunAway(H.Do(s, steps[0]), steps[1..], f);
    }
  }

  /** Over every schedule a functor takes the fallback vector if and only if its caller was refused
      by the ring: the ring is unmapped, or the words it loaded say full. */
  lemma FallbackIffRefused(init: H.State, steps: seq<H.Step>, f: Functor)
    requires H.Init(init) && H.Schedule(init, steps)
    ensures P.Inv(init)
    ensures
      var s := H.Exec(init, steps);
      f in s.fbLog || (exists t: Thread :: Prod(s.ring, t) == Full(f)) <==> RefusedIn(init, steps, f)
  {
    P.InitInvs(init);
    RunAway(init, steps, f);
  }

  // ----- quitting -----

  ghost predicate QuitAsked(steps: seq<H.Step>)
  {
    exists i :: 0 <= i < |steps| && steps[i].QuitStore?
  }

  // The loop looks at the flag after it was set, or finds it set already.
  ghost predicate StopsBy(steps: seq<H.Step>, asked: bool)
    decreases |steps|
  {
    steps != [] && ((asked && steps[0].CheckQuit?) || StopsBy(steps[1..], asked || steps[0].QuitStore?))
  }

  lemma StepFlags(s: H.State, st: H.Step)
    requires H.Enabled(s, st)
    ensures H.Do(s, st).quit == (s.quit || st.QuitStore?)
    ensures H.Do(s, st).phase.Stopped? <==> s.phase.Stopped? || (st.CheckQuit? && s.quit)
    ensures st.CheckQuit? && !s.quit ==> H.Do(s, st).phase == AtPoll(s.phase.first)
  {}

  lemma {:induction false} RunFlags(s: H.State, steps: seq<H.Step>)
    requires H.Schedule(s, steps)
    ensures H.Exec(s, steps).quit <==> s.quit || QuitAsked(steps)
    ensures H.Exec(s, steps).phase.Stopped? <==> s.phase.Stopped? || StopsBy(steps, s.quit)
    decreases |steps|
  {
    if steps == [] {
    } else {
      StepFlags(s, steps[0]);
      RunFlags(H.Do(s, steps[0]), steps[1..]);
      assert QuitAsked(steps) <==> steps[0].QuitStore? || QuitAsked(steps[1..]) by {
        if QuitAsked(steps[1..]) {
          var i :| 0 <= i < |steps[1..]| && steps[1..][i].QuitStore?;
          assert steps[i + 1].QuitStore?;
        }
        if QuitAsked(steps) {
          var i :| 0 <= i < |steps| && steps[i].QuitStore?;
          assert i > 0 ==> steps[1..][i - 1].QuitStore?;
        }
      }
    }
  }

  lemma {:induction false} StopsByMeans(steps: seq<H.Step>, asked: bool)
    ensures StopsBy(steps, asked) <==>
      exists j :: 0 <= j < |steps| && steps[j].CheckQuit? && (asked || QuitAsked(steps[..j]))
    decreases |steps|
  {
    if steps == [] {
    } else {
      var rest, asked' := steps[1..], asked || steps[0].QuitStore?;
      StopsByMeans(rest, asked');
      forall j | 0 <= j < |rest|
        ensures QuitAsked(steps[..j + 1]) <==> steps[0].QuitStore? || QuitAsked(rest[..j])
      {
        AskedFront(steps, j);
      }
      if exists j :: 0 <= j < |rest| && rest[j].CheckQuit? && (asked' || QuitAsked(rest[..j])) {
        var j :| 0 <= j < |rest| && rest[j].CheckQuit? && (asked' || QuitAsked(rest[..j]));
        assert steps[j + 1].CheckQuit? && (asked || QuitAsked(steps[..j + 1]));
      }
      if exists j :: 0 <= j < |steps| && steps[j].CheckQuit? && (asked || QuitAsked(steps[..j])) {
        var j :| 0 <= j < |steps| && steps[j].CheckQuit? && (asked || QuitAsked(steps[..j]));
        if j > 0 {
          assert rest[j - 1].CheckQuit? && QuitAsked(steps[..j - 1 + 1]) == QuitAsked(steps[..j]);
        }
      }
    }
  }

  lemma AskedFront(steps: seq<H.Step>, j: nat)
    requires j < |steps| - 1
    ensures QuitAsked(steps[..j + 1]) <==> steps[0].QuitStore? || QuitAsked(steps[1..][..j])
  {
    var a, b := steps[..j + 1], steps[1..][..j];
    assert forall i :: 0 <= i < j ==> b[i] == a[i + 1];
    if QuitAsked(a) && !a[0].QuitStore? {
      var i :| 0 <= i < |a| && a[i].QuitStore?;
      assert b[i - 1].QuitStore?;
    }
    if QuitAsked(b) {
      var i :| 0 <= i < |b| && b[i].QuitStore?;
      assert a[i + 1].QuitStore?;
    }
    if a[0].QuitStore? {
      assert QuitAsked(a);
    }
  }

  /** The loop runs until it is told to quit, over every schedule: the flag is set exactly if some
      call of quit stored it, and the loop has stopped exactly if it tested the flag after that. */
  lemma StopsExactlyOnQuit(init: H.State, steps: seq<H.Step>)
    requires H.Init(init) && H.Schedule(init, steps)
    ensures
      var s := H.Exec(init, steps);
      && (s.quit <==> exists i :: 0 <= i < |steps| && steps[i].QuitStore?)
      && (s.phase.Stopped? <==>
            exists i, j :: 0 <= i < j < |steps| && steps[i].QuitStore? && steps[j].CheckQuit?)
  {
    RunFlags(init, steps);
    StopsByMeans(steps, false);
    var s := H.Exec(init, steps);
    if s.phase.Stopped? {
      var j :| 0 <= j < |steps| && steps[j].CheckQuit? && QuitAsked(steps[..j]);
      var i :| 0 <= i < |steps[..j]| && steps[..j][i].QuitStore?;
      assert steps[i].QuitStore?;
    }
    if i, j :| 0 <= i < j < |steps| && steps[i].QuitStore? && steps[j].CheckQuit? {
      assert steps[..j][i].QuitStore?;
      assert QuitAsked(steps[..j]);
    }
  }

  // ----- a later poll is reached -----

  lemma ReachedInv(init: H.State, s: H.State)
    requires H.Init(init) && Reaches(init, s)
    ensures P.Inv(s)
  {
    var steps :| H.Schedule(init, steps) && H.Exec(init, steps) == s;
    Reached(init, steps);
  }

  lemma ReachedWell(init: H.State, s: H.State)
    requires H.Init(init) && Reaches(init, s)
    ensures WellFormed(s.ring)
  {
    ReachedInv(init, s);
  }

  // The first poll times out and its handlers end.
  lemma ThroughFirstPoll(init: H.State, s: H.State) returns (s': H.State)
    requires Reaches(init, s) && s.phase == AtPoll(true) && s.ring.prods == map[LOOP := Idle]
    ensures Reaches(init, s') && s' == s.(phase := if s.ring.valid then Drain else Swap)
  {
    ReachStep(init, s, PollReturn(false));
    var s1 := H.Do(s, PollReturn(false));
    ReachStep(init, s1, EndEvents);
    s' := H.Do(s1, EndEvents);
  }

  // The consumer's steps on a mapped ring, in a drain.
  lemma PeekOnce(init: H.State, s: H.State) returns (s': H.State)
    requires H.Init(init) && Reaches(init, s) && s.phase.Drain? && s.ring.cons.Resting? && s.ring.valid
    ensures Reaches(init, s') && s' == s.(ring := s.ring.(cons := SawHead(s.ring.head)))
  {
    ReachedWell(init, s);
    ReachStep(init, s, Consume(PeekHead));
    s' := H.Do(s, Consume(PeekHead));
  }

  lemma PeekBoth(init: H.State, s: H.State) returns (s': H.State)
    requires H.Init(init) && Reaches(init, s) && s.phase.Drain? && s.ring.cons.Resting? && s.ring.valid
    ensures Reaches(init, s')
    ensures s' == s.(ring := s.ring.(cons := if |s.ring.log| == s.ring.hd then SawNull else SawWork))
  {
    var s1 := PeekOnce(init, s);
    ReachedWell(init, s1);
    ReachStep(init, s1, Consume(PeekTail));
    s' := H.Do(s1, Consume(PeekTail));
    assert s'.ring.cons.SawNull? <==> |s.ring.log| == s.ring.hd by {
      ReachedInv(init, s1);
      RingProofs.PeekNullExact(s1.ring);
    }
  }

  lemma FindNode(init: H.State, s: H.State) returns (s': H.State)
    requires H.Init(init) && Reaches(init, s) && s.phase.Drain? && s.ring.cons.SawWork?
    requires s.ring.prods == map[LOOP := Idle]
    ensures Reaches(init, s') && s' == s.(ring := s.ring.(cons := Found))
  {
    ReachedInv(init, s);
    ReachStep(init, s, Consume(PeekId));
    s' := H.Do(s, Consume(PeekId));
    assert !s'.ring.cons.SawNull? by { RingProofs.PeekNullExact(s.ring); }
  }

  lemma TakeNode(init: H.State, s: H.State) returns (s': H.State)
    requires H.Init(init) && Reaches(init, s) && s.phase.Drain? && s.ring.cons.Found?
    requires s.ring.hd == 0 && s.ring.log == [0]
    ensures Reaches(init, s')
    ensures s' == s.(ring := s.ring.(cons := Taken, out := [0]), trace := s.trace + [FromRing(0)])
  {
    ReachedInv(init, s);
    assert RingProofs.ConsumerOk(s.ring) && s.ring.out == [];
    ReachStep(init, s, Consume(Take));
    s' := H.Do(s, Consume(Take));
    assert s'.ring.out == [0] by {
      ReachedInv(init, s');
      assert RingProofs.ConsumerOk(s'.ring) && s'.ring.log[..1] == [0];
    }
  }

  lemma ClearNode(init: H.State, s: H.State) returns (s': H.State)
    requires H.Init(init) && Reaches(init, s) && s.phase.Drain? && s.ring.cons.Taken?
    requires s.ring.prods == map[LOOP := Idle]
    ensures Reaches(init, s')
    ensures s' == s.(ring := s.ring.(cons := Resting, mem := s'.ring.mem, head := s'.ring.head, hd := s.ring.hd + 1))
  {
    ReachedWell(init, s);
    ReachStep(init, s, Consume(Zero));
    var s1 := H.Do(s, Consume(Zero));
    ReachedWell(init, s1);
    ReachStep(init, s1, Consume(Advance));
    s' := H.Do(s1, Consume(Advance));
  }

  lemma LeaveDrain(init: H.State, s: H.State) returns (s': H.State)
    requires H.Init(init) && Reaches(init, s) && s.phase.Drain? && s.ring.cons.SawNull?
    ensures Reaches(init, s') && s' == s.(phase := Swap, ring := s.ring.(cons := Resting))
  {
    ReachedWell(init, s);
    ReachStep(init, s, EndDrain);
    s' := H.Do(s, EndDrain);
  }

  lemma DrainOne(init: H.State, s: H.State) returns (s': H.State)
    requires H.Init(init) && Reaches(init, s) && s.phase.Drain? && s.ring.cons.Resting? && s.ring.valid
    requires s.ring.prods == map[LOOP := Idle] && s.ring.hd == 0 && s.ring.log == [0]
    ensures Reaches(init, s') && s'.ring.prods == s.ring.prods
    ensures s' == s.(phase := Swap, ring := s'.ring, trace := s.trace + [FromRing(0)])
  {
    s' := PeekBoth(init, s);
    s' := FindNode(init, s');
    s' := TakeNode(init, s');
    s' := ClearNode(init, s');
    s' := PeekBoth(init, s');
    s' := LeaveDrain(init, s');
  }

  // Swapping and running what the vector held.
  lemma RunVector(init: H.State, s: H.State) returns (s': H.State)
    requires Reaches(init, s) && s.phase.Swap? && s.ring.prods == map[LOOP := Idle]
    requires s.current.None? && |s.fallback| <= 1
    ensures Reaches(init, s')
    ensures s' == s.(phase := Batch, batch := [], fallback := [],
                     trace := s.trace + if s.fallback == [] then [] else [FromFallback(s.fallback[0])])
  {
    ReachStep(init, s, SwapVector);
    s' := H.Do(s, SwapVector);
    if s.fallback != [] {
      ReachStep(init, s', StartNext);
      var s1 := H.Do(s', StartNext);
      ReachStep(init, s1, EndNext);
      s' := H.Do(s1, EndNext);
    }
  }

  // Going back to the poll.
  lemma NextPoll(init: H.State, s: H.State) returns (s': H.State)
    requires Reaches(init, s) && s.phase.Batch? && s.batch == [] && s.current.None? && !s.quit
    ensures Reaches(init, s') && s' == s.(phase := AtPoll(false))
  {
    ReachStep(init, s, EndPending);
    var s1 := H.Do(s, EndPending);
    ReachStep(init, s1, CheckQuit);
    s' := H.Do(s1, CheckQuit);
  }

  /** From every initial state the loop can reach a later poll after it has run a queued functor,
      with the eventfd at zero and every thread idle: the theorems on later polls are about something. */
  lemma LaterPollReached(init: H.State) returns (s: H.State)
    requires H.Init(init)
    ensures Reaches(init, s) && s.phase == AtPoll(false) && s.wake == 0 && |s.place| == 1
    ensures forall t: Thread :: Prod(s.ring, t).Idle?
    ensures s.trace == [if init.ring.valid then FromRing(0) else FromFallback(0)]
  {
    var s1 := ReachStalled(init);
    s1 := ThroughFirstPoll(init, s1);
    if init.ring.valid {
      s1 := DrainOne(init, s1);
    }
    s1 := RunVector(init, s1);
    s := NextPoll(init, s1);
  }
}
