/** No lost wakeup, conservation of functors and order, over every schedule of the hand-off. */
module HandOffProofs {
  import opened Ring
  import opened RingProofs
  import H = HandOff
  import opened HandOff

  // ----- what can wake the loop -----

  // Thread `t` has published a functor and has yet to write the eventfd.
  predicate Publishing(s: H.State, t: Thread)
  {
    var p := Prod(s.ring, t);
    (Owns(p) || p.Returned?) && (t != LOOP || Calling(s))
  }

  ghost predicate Signal(s: H.State)
  {
    s.wake > 0 || exists t: Thread :: Publishing(s, t)
  }

  predicate Queued(s: H.State)
  {
    |s.ring.log| > s.ring.hd || s.fallback != []
  }

  // The ring has been drained in this turn of the loop.
  predicate Drained(s: H.State)
  {
    || (s.phase.Drain? && s.ring.cons.SawNull?)
    || s.phase.Swap?
    || Swapped(s)
  }

  predicate Swapped(s: H.State)
  {
    s.phase.Batch? || ((s.phase.Check? || s.phase.AtPoll?) && !s.phase.first)
  }

  predicate Untouched(s: H.State)
  {
    s.phase.PreLoop? || ((s.phase.Check? || s.phase.AtPoll?) && s.phase.first)
  }

  // The loop thread's control state is consistent.
  predicate Control(s: H.State)
  {
    && (!InCallback(s) ==> LoopIdle(s))
    && (!s.phase.Drain? ==> s.ring.cons.Resting?)
    && (s.phase.Drain? ==> s.ring.valid)
    && (!s.phase.Batch? ==> s.batch == [] && s.current.None?)
    && (s.phase.AtPoll? && s.quit ==> s.wake > 0 || s.quitters > 0)
  }

  ghost predicate WakeInv(s: H.State)
  {
    && (Drained(s) && |s.ring.log| > s.ring.hd ==> Signal(s))
    && (Swapped(s) && s.fallback != [] ==> Signal(s))
    && (Untouched(s) ==> (s.outside <==> Signal(s)))
    && ((exists t: Thread :: Publishing(s, t) && t != LOOP) ==> s.outside)
  }

  // An unmapped ring is never entered.
  ghost predicate Unmapped(s: H.State)
  {
    !s.ring.valid ==>
      s.ring.log == [] && forall t: Thread :: var p := Prod(s.ring, t); p.Idle? || p.Full? || p.Returned?
  }

  ghost predicate Inv(s: H.State)
  {
    RingProofs.Inv(s.ring) && Control(s) && Unmapped(s) && WakeInv(s)
  }

  lemma InitInvs(s: H.State)
    requires H.Init(s)
    ensures Inv(s)
  {
    RingProofs.InitInv(s.ring);
  }

  lemma UnmappedKept(s: H.State, st: H.Step)
    requires Unmapped(s) && Control(s) && H.Enabled(s, st)
    ensures Unmapped(H.Do(s, st))
  {
    match st
    case Move(u, rst) =>
      MoveFrame(s, u, rst);
      assert !s.ring.valid ==> var p := Prod(s.ring, u); p.Idle? || p.Full? || p.Returned?;
      NeverInside(s, u, rst);
    case Consume(rst) => ConsumeFrame(s, rst); UnmappedFrame(s, H.Do(s, st));
    case _ => UnmappedLocal(s, st);
  }

  // Only a thread that is inside the ring moves in it.
  lemma NeverInside(s: H.State, u: Thread, rst: Ring.Step)
    requires H.Enabled(s, Move(u, rst))
    ensures var p := Prod(s.ring, u); !p.Idle? && !p.Full? && !p.Returned?
  {
    match rst
    case LoadHead(v) =>
    case LoadTail(v) =>
    case CheckFull(v) =>
    case CasOk(v) =>
    case CasFail(v) =>
    case Fill(v) =>
    case Commit(v) =>
  }

  lemma UnmappedFrame(s: H.State, s': H.State)
    requires Unmapped(s) && s'.ring.valid == s.ring.valid && s'.ring.log == s.ring.log && s'.ring.prods == s.ring.prods
    ensures Unmapped(s')
  {
    forall t: Thread
      ensures Prod(s'.ring, t) == Prod(s.ring, t)
    {}
  }

  lemma UnmappedLocal(s: H.State, st: H.Step)
    requires Unmapped(s) && H.Enabled(s, st) && !st.Move? && !st.Consume?
    ensures Unmapped(H.Do(s, st))
  {
    if !s.ring.valid {
      forall t: Thread
        ensures var p := Prod(H.Do(s, st).ring, t); p.Idle? || p.Full? || p.Returned?
      {
        var p := Prod(s.ring, t);
        assert p.Idle? || p.Full? || p.Returned?;
      }
    }
  }

  lemma RingKept(s: H.State, st: H.Step)
    requires RingProofs.Inv(s.ring) && H.Enabled(s, st) && H.Punctual(s, st)
    ensures RingProofs.Inv(H.Do(s, st).ring)
  {
    match st
    case Call(t) => RingProofs.StepInv(s.ring, Begin(t, |s.place|));
    case Move(t, rst) => RingProofs.StepInv(s.ring, rst);
    case Append(t) => RingProofs.StepInv(s.ring, GiveUp(t));
    case Wake(t) => RingProofs.StepInv(s.ring, Finish(t));
    case Consume(rst) => RingProofs.StepInv(s.ring, rst);
    case EndDrain => RingProofs.StepInv(s.ring, Rest);
    case _ =>
  }

  // What a producer's step inside the ring leaves alone.
  lemma MoveFrame(s: H.State, t: Thread, rst: Ring.Step)
    requires H.Enabled(s, Move(t, rst))
    ensures
      var s' := H.Do(s, Move(t, rst));
      && s'.ring.cons == s.ring.cons && s'.ring.hd == s.ring.hd && s'.ring.valid == s.ring.valid
      && s'.ring.out == s.ring.out
      && s' == s.(ring := s'.ring, place := s'.place, outside := s'.outside)
      && (rst.CasOk? || s'.ring.log == s.ring.log)
      && (forall u: Thread :: u != t ==> Prod(s'.ring, u) == Prod(s.ring, u))
      && !Prod(s.ring, t).Idle? && !Prod(s.ring, t).Returned?
      && (Owns(Prod(s.ring, t)) ==> Owns(Prod(s'.ring, t)) || Prod(s'.ring, t).Returned?)
      && (!Owns(Prod(s.ring, t)) && !rst.CasOk? ==> !Owns(Prod(s'.ring, t)) && !Prod(s'.ring, t).Returned?)
      && (rst.CasOk? ==> Owns(Prod(s'.ring, t)))
  {
    match rst
    case LoadHead(u) =>
    case LoadTail(u) =>
    case CheckFull(u) =>
    case CasOk(u) =>
    case CasFail(u) =>
    case Fill(u) =>
    case Commit(u) =>
  }

  // What a consumer's step leaves alone.
  lemma ConsumeFrame(s: H.State, rst: Ring.Step)
    requires H.Enabled(s, Consume(rst))
    ensures
      var s' := H.Do(s, Consume(rst));
      && s'.ring.prods == s.ring.prods && s'.ring.log == s.ring.log && s'.ring.owner == s.ring.owner
      && s'.ring.valid == s.ring.valid
      && s' == s.(ring := s'.ring, trace := s'.trace)
      && (!rst.Advance? ==> s'.ring.hd == s.ring.hd)
      && (s.ring.cons.Taken? ==> rst.Zero?)
      && (!rst.Take? ==> !s'.ring.cons.Taken? && s'.trace == s.trace && s'.ring.out == s.ring.out)
  {
    match rst
    case PeekHead =>
    case PeekTail =>
    case PeekId =>
    case Take =>
    case Zero =>
    case Advance =>
  }

  // Steps of a caller of queueInLoop or quit, apart from those inside the ring.
  predicate CallerStep(st: H.Step)
  {
    st.Call? || st.Append? || st.Wake? || st.QuitStore? || st.QuitWake?
  }

  lemma CallerControl(s: H.State, st: H.Step)
    requires Control(s) && H.Enabled(s, st) && CallerStep(st)
    ensures Control(H.Do(s, st))
  {}

  lemma LoopControl(s: H.State, st: H.Step)
    requires Control(s) && H.Enabled(s, st) && !CallerStep(st) && !st.Move? && !st.Consume?
    ensures Control(H.Do(s, st))
  {}

  lemma ControlKept(s: H.State, st: H.Step)
    requires Control(s) && H.Enabled(s, st)
    ensures Control(H.Do(s, st))
  {
    if st.Move? {
      MoveFrame(s, st.t, st.st);
    } else if st.Consume? {
      ConsumeFrame(s, st.st);
    } else if CallerStep(st) {
      CallerControl(s, st);
    } else {
      LoopControl(s, st);
    }
  }

  lemma PublisherKept(s: H.State, st: H.Step, t: Thread)
    requires Control(s) && H.Enabled(s, st) && Publishing(s, t) && st != Wake(t)
    ensures Publishing(H.Do(s, st), t)
  {
    match st
    case Move(u, rst) => MoveFrame(s, u, rst);
    case Consume(rst) => ConsumeFrame(s, rst);
    case _ =>
  }

  // A publisher stays one, or has written the eventfd.
  lemma SignalKept(s: H.State, st: H.Step)
    requires Control(s) && H.Enabled(s, st) && Signal(s) && !st.ReadWake?
    ensures Signal(H.Do(s, st))
  {
    if s.wake == 0 {
      var t: Thread :| Publishing(s, t);
      if st != Wake(t) {
        PublisherKept(s, st, t);
      }
    } else if st.Consume? {
      ConsumeFrame(s, st.st);
    } else if st.Move? {
      MoveFrame(s, st.t, st.st);
    }
  }

  // A thread that grows a queue is publishing from then on.
  lemma GrowthSignals(s: H.State, st: H.Step)
    requires Control(s) && H.Enabled(s, st)
    requires (st.Move? && st.st.CasOk?) || st.Append?
    requires st.t != LOOP || Calling(s)
    ensures Signal(H.Do(s, st))
  {
    assert Publishing(H.Do(s, st), st.t);
  }

  // `peek` returned null: the ring is empty, or its first node is still being written.
  lemma NullSignals(s: H.State, rst: Ring.Step)
    requires RingProofs.Inv(s.ring) && Control(s) && H.Enabled(s, Consume(rst))
    requires H.Do(s, Consume(rst)).ring.cons.SawNull? && |s.ring.log| > s.ring.hd
    ensures Signal(H.Do(s, Consume(rst)))
  {
    PeekNullExact(s.ring);
    var t := s.ring.owner[s.ring.hd];
    assert Publishing(H.Do(s, Consume(rst)), t);
  }

  predicate Publishes(s: H.State, st: H.Step, t: Thread)
  {
    (st == Append(t) || (st.Move? && st.t == t && st.st.CasOk?)) && (t != LOOP || Calling(s))
  }

  // Only entering a queue makes a thread a publisher.
  lemma NotPublisherKept(s: H.State, st: H.Step, t: Thread)
    requires Control(s) && H.Enabled(s, st) && !Publishing(s, t) && !Publishes(s, st, t)
    ensures !Publishing(H.Do(s, st), t)
  {
    match st
    case Move(u, rst) => MoveFrame(s, u, rst);
    case Consume(rst) => ConsumeFrame(s, rst);
    case _ =>
  }

  // Nothing else makes a signal.
  lemma SilenceKept(s: H.State, st: H.Step)
    requires Control(s) && H.Enabled(s, st) && !Signal(s) && !st.QuitWake?
    requires forall t: Thread :: !Publishes(s, st, t)
    ensures !Signal(H.Do(s, st))
  {
    var s' := H.Do(s, st);
    if st.Wake? {
      assert !Publishing(s, st.t);
    } else if st.Consume? {
      ConsumeFrame(s, st.st);
    } else if st.Move? {
      MoveFrame(s, st.t, st.st);
    }
    forall t: Thread
      ensures !Publishing(s', t)
    {
      assert !Publishing(s, t);
      NotPublisherKept(s, st, t);
    }
  }

  // The drain ends in a step of the consumer that found nothing, or the ring is unmapped and empty.
  lemma DrainEnds(s: H.State, st: H.Step)
    requires Inv(s) && H.Enabled(s, st) && !Drained(s) && Drained(H.Do(s, st))
    requires |H.Do(s, st).ring.log| > H.Do(s, st).ring.hd
    ensures Signal(H.Do(s, st))
  {
    if st.Consume? {
      ConsumeFrame(s, st.st);
      NullSignals(s, st.st);
    }
  }

  lemma DrainedKept(s: H.State, st: H.Step)
    requires Inv(s) && H.Enabled(s, st)
    ensures Drained(H.Do(s, st)) && |H.Do(s, st).ring.log| > H.Do(s, st).ring.hd ==> Signal(H.Do(s, st))
  {
    var s' := H.Do(s, st);
    if st.Consume? {
      ConsumeFrame(s, st.st);
    } else if st.Move? {
      MoveFrame(s, st.t, st.st);
    }
    if Drained(s') && |s'.ring.log| > s'.ring.hd {
      if !Drained(s) {
        DrainEnds(s, st);
      } else if |s.ring.log| > s.ring.hd {
        SignalKept(s, st);
      } else {
        GrowthSignals(s, st);
      }
    }
  }

  lemma SwappedKept(s: H.State, st: H.Step)
    requires Inv(s) && H.Enabled(s, st)
    ensures Swapped(H.Do(s, st)) && H.Do(s, st).fallback != [] ==> Signal(H.Do(s, st))
  {
    var s' := H.Do(s, st);
    if Swapped(s') && s'.fallback != [] {
      if s.fallback != [] {
        SignalKept(s, st);
      } else {
        GrowthSignals(s, st);
      }
    }
  }

  lemma UntouchedKept(s: H.State, st: H.Step)
    requires Inv(s) && H.Enabled(s, st)
    ensures Untouched(H.Do(s, st)) ==> (H.Do(s, st).outside <==> Signal(H.Do(s, st)))
  {
    var s' := H.Do(s, st);
    if Untouched(s') {
      if Signal(s) {
        SignalKept(s, st);
      } else if ((st.Move? && st.st.CasOk?) || st.Append?) && st.t != LOOP {
        GrowthSignals(s, st);
      } else if !st.QuitWake? {
        SilenceKept(s, st);
      }
    }
  }

  lemma OutsideKept(s: H.State, st: H.Step)
    requires Inv(s) && H.Enabled(s, st)
    ensures (exists t: Thread :: Publishing(H.Do(s, st), t) && t != LOOP) ==> H.Do(s, st).outside
  {
    var s' := H.Do(s, st);
    if t: Thread :| Publishing(s', t) && t != LOOP {
      if !s.outside {
        assert !Publishing(s, t);
        if !Publishes(s, st, t) {
          NotPublisherKept(s, st, t);
        }
      }
    }
  }

  lemma StepInv(s: H.State, st: H.Step)
    requires Inv(s) && H.Enabled(s, st) && H.Punctual(s, st)
    ensures Inv(H.Do(s, st))
  {
    RingKept(s, st);
    ControlKept(s, st);
    UnmappedKept(s, st);
    DrainedKept(s, st);
    SwappedKept(s, st);
    UntouchedKept(s, st);
    OutsideKept(s, st);
  }

  lemma {:induction false} ScheduleInv(s: H.State, steps: seq<H.Step>)
    requires Inv(s) && H.Schedule(s, steps)
    ensures Inv(H.Exec(s, steps))
    decreases |steps|
  {
    if steps == [] {
    } else {
      StepInv(s, steps[0]);
      ScheduleInv(H.Do(s, steps[0]), steps[1..]);
    }
  }
}
