/** The eventfd, the wakeup handler and the quitting threads, told from the steps of a schedule; and
that no thread of the hand-off ever gets stuck. */
module HandOffSteps {
  import opened RingArith
  import opened Ring
  import RingProofs
  import R = RingReserve
  import H = HandOff
  import opened HandOff
  import opened P = HandOffProofs
  import T = HandOffTheorems

  // What the steps so far amount to.
  datatype Tally = Tally(
    pending: bool,    // between the end of the event handlers and the end of the pending functors
    writes: nat,      // eventfd writes since it was last read
    owed: bool,       // the last poll reported the eventfd and it has not been read since
    quitting: int)    // quit calls of other threads that have not written the eventfd yet

  const NOTHING := Tally(false, 0, false, 0)

  function Count(c: Tally, st: H.Step): Tally
  {
    match st
    case EndEvents => c.(pending := true)
    case EndPending => c.(pending := false)
    case Wake(t) => if t != 0 || c.pending then c.(writes := c.writes + 1) else c
    case QuitStore(t) => if t != 0 then c.(quitting := c.quitting + 1) else c
    case QuitWake => c.(writes := c.writes + 1, quitting := c.quitting - 1)
    case PollReturn(ready) => c.(owed := ready)
    case ReadWake => c.(writes := 0, owed := false)
    case _ => c
  }

  function CountAll(c: Tally, steps: seq<H.Step>): Tally
    decreases |steps|
  {
    if steps == [] then c else CountAll(Count(c, steps[0]), steps[1..])
  }

  ghost predicate Tallied(s: H.State, c: Tally)
  {
    && (s.phase.Drain? || s.phase.Swap? || s.phase.Batch? <==> c.pending)
    && s.wake == (if c.writes < 0xFFFF_FFFF_FFFF_FFFE then c.writes else 0xFFFF_FFFF_FFFF_FFFE)
    && (s.phase.Events? && s.phase.ready <==> c.owed)
    && s.quitters == c.quitting
  }

  lemma StepTallied(s: H.State, st: H.Step, c: Tally)
    requires Tallied(s, c) && H.Enabled(s, st)
    ensures Tallied(H.Do(s, st), Count(c, st))
  {}

  lemma {:induction false} RunTallied(s: H.State, steps: seq<H.Step>, c: Tally)
    requires Tallied(s, c) && H.Schedule(s, steps)
    ensures Tallied(H.Exec(s, steps), CountAll(c, steps))
    decreases |steps|
  {
    if steps == [] {
    } else {
      StepTallied(s, steps[0], c);
      RunTallied(H.Do(s, steps[0]), steps[1..], Count(c, steps[0]));
    }
  }

  /** Over every schedule: the eventfd holds the number of writes since it was last read, cut off at the
      kernel's maximum; threads other than the loop write it once for each functor and each quit, and
      the loop thread only for functors it queues while pending functors run; a poll that reported it is
      followed by the read before the handlers end. */
  lemma EventFdCounts(init: H.State, steps: seq<H.Step>)
    requires H.Init(init) && H.Schedule(init, steps)
    ensures
      var s, c := H.Exec(init, steps), CountAll(NOTHING, steps);
      && s.wake == (if c.writes < 0xFFFF_FFFF_FFFF_FFFE then c.writes else 0xFFFF_FFFF_FFFF_FFFE)
      && s.quitters == c.quitting
      && (s.phase.Events? && s.phase.ready <==> c.owed)
      && (H.Enabled(s, EndEvents) ==> !c.owed)
  {
    RunTallied(init, steps, NOTHING);
  }

  // ----- no thread gets stuck -----

  // The step a thread inside queueInLoop takes next.
  function NextMove(s: H.State, t: Thread): H.Step
    requires WellFormed(s.ring) && !Prod(s.ring, t).Idle?
  {
    match Prod(s.ring, t)
    case Start(_) => Move(t, LoadHead(t))
    case HaveHead(_, _, _) => Move(t, LoadTail(t))
    case HaveTail(_, r, w, _, _) =>
      if r < WORD && w < WORD && TooFull(s.ring.order, r, w) then Move(t, CheckFull(t)) else Move(t, CasFail(t))
    case Full(_) => Append(t)
    case Reserved(_, _, _) => Move(t, Fill(t))
    case Filled(_, _) => Move(t, Commit(t))
    case _ => Wake(t)
  }

  lemma CallerMoves(s: H.State, t: Thread)
    requires P.Inv(s) && !Prod(s.ring, t).Idle? && (t != LOOP || InCallback(s))
    ensures H.Enabled(s, NextMove(s, t))
  {
    if Prod(s.ring, t).HaveTail? {
      R.TestExact(s.ring, t);
    }
  }

  // The step the loop thread takes next when it is not inside queueInLoop.
  function NextTurn(s: H.State): H.Step
  {
    match s.phase
    case PreLoop => EnterLoop
    case Check(_) => CheckQuit
    case AtPoll(_) => PollReturn(false)
    case Events(ready) => if ready then ReadWake else EndEvents
    case Drain =>
      (match s.ring.cons
       case Resting => Consume(PeekHead)
       case SawHead(_) => Consume(PeekTail)
       case SawWork => Consume(PeekId)
       case Found => Consume(Take)
       case Taken => Consume(Zero)
       case Zeroed => Consume(Advance)
       case SawNull => EndDrain)
    case Swap => SwapVector
    case Batch => if s.current.Some? then EndNext else if s.batch != [] then StartNext else EndPending
    case Stopped => CheckQuit
  }

  lemma LoopMoves(s: H.State)
    requires P.Inv(s) && LoopIdle(s) && !s.phase.Stopped?
    ensures H.Enabled(s, NextTurn(s))
  {}

  /** No deadlock, over every schedule: a thread inside queueInLoop can always take its next step, the
      loop thread can always take its own until it has stopped, and wherever user code runs it may
      queue a functor. */
  lemma NeverStuck(init: H.State, steps: seq<H.Step>, t: Thread)
    requires H.Init(init) && H.Schedule(init, steps)
    ensures
      var s := H.Exec(init, steps);
      && WellFormed(s.ring)
      && (!Prod(s.ring, t).Idle? ==> H.Enabled(s, NextMove(s, t)))
      && (Prod(s.ring, t).Idle? && t != LOOP ==> H.Enabled(s, Call(t)))
      && (Prod(s.ring, LOOP).Idle? && !s.phase.Stopped? ==> H.Enabled(s, NextTurn(s)))
      && (Prod(s.ring, LOOP).Idle? && (s.phase.PreLoop? || s.phase.Events? || s.ring.cons.Taken? || s.current.Some?) ==>
            H.Enabled(s, Call(LOOP)))
  {
    T.Reached(init, steps);
    var s := H.Exec(init, steps);
    if !Prod(s.ring, t).Idle? {
      CallerMoves(s, t);
    }
    if Prod(s.ring, LOOP).Idle? && !s.phase.Stopped? {
      LoopMoves(s);
    }
  }
}
