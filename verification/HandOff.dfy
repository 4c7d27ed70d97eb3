/** Handing functors to the event loop: `queueInLoop`, `doPendingFunctors`, `loop`, `wakeup`, `quit`.

Any number of threads queue functors through the ring, or through the mutex-guarded vector when
the ring is full or unmapped. Thread 0 runs the loop; inside its callbacks it may queue functors
too. One step is one step of the ring, one critical section, one eventfd read or write, or one
transition of the loop thread. A functor is named by the order in which `queueInLoop` was called.
*/
module HandOff {
  import opened Ring

  const LOOP: Thread := 0
  const EVENTFD_MAX: nat := 0xFFFF_FFFF_FFFF_FFFE

  // Where the loop thread stands. `first` marks the first turn of the loop.
  datatype Phase =
    | PreLoop
    | Check(first: bool)     // the test of quit_
    | AtPoll(first: bool)    // inside epoll_wait
    | Events(ready: bool)    // running event handlers; `ready`: the wakeup handler is still to come
    | Drain                  // emptying the ring
    | Swap                   // about to swap the fallback vector
    | Batch                  // running the swapped vector
    | Stopped

  datatype Current = None | Some(f: Functor)

  // Where an accepted functor went.
  datatype Place = Hand(t: Thread) | InRing(i: nat) | InFallback(i: nat)

  datatype Ran = FromRing(f: Functor) | FromFallback(f: Functor)

  datatype State = State(
    ring: Ring.State,
    fallback: seq<Functor>,
    batch: seq<Functor>,       // swapped out, not yet started
    current: Current,          // functor of the batch being run
    wake: nat,                 // eventfd counter
    phase: Phase,
    quit: bool,
    quitters: nat,             // threads between storing quit_ and their wakeup
    // history
    place: seq<Place>,         // indexed by functor
    fbLog: seq<Functor>,       // functors in the order they entered the fallback vector
    trace: seq<Ran>,           // functors in the order they were started
    outside: bool)             // another thread has published a functor or woken the loop to quit

  datatype Step =
    | Call(t: Thread)
    | Move(t: Thread, st: Ring.Step)
    | Append(t: Thread)
    | Wake(t: Thread)
    | QuitStore(t: Thread)
    | QuitWake
    | EnterLoop
    | CheckQuit
    | PollReturn(ready: bool)
    | ReadWake
    | EndEvents
    | Consume(st: Ring.Step)
    | EndDrain
    | SwapVector
    | StartNext
    | EndNext
    | EndPending

  ghost predicate Init(s: State)
  {
    && Ring.Init(s.ring)
    && s.fallback == [] && s.batch == [] && s.current.None?
    && s.wake == 0 && s.phase.PreLoop? && !s.quit && s.quitters == 0
    && s.place == [] && s.fbLog == [] && s.trace == [] && !s.outside
  }

  // callingPendingFunctors_
  predicate Calling(s: State)
  {
    s.phase.Drain? || s.phase.Swap? || s.phase.Batch?
  }

  // The loop thread is inside user code that may call back into the loop.
  predicate InCallback(s: State)
  {
    || s.phase.PreLoop?
    || s.phase.Events?
    || (s.phase.Drain? && s.ring.cons.Taken?)
    || (s.phase.Batch? && s.current.Some?)
  }

  predicate MayRun(s: State, t: Thread)
  {
    t == LOOP ==> InCallback(s)
  }

  predicate LoopIdle(s: State)
  {
    Prod(s.ring, LOOP).Idle?
  }

  // The steps of `reserve`, the slot write and `commit` by thread `t`.
  predicate ProducerStep(t: Thread, st: Ring.Step)
  {
    match st
    case LoadHead(u) => u == t
    case LoadTail(u) => u == t
    case CheckFull(u) => u == t
    case CasOk(u) => u == t
    case CasFail(u) => u == t
    case Fill(u) => u == t
    case Commit(u) => u == t
    case _ => false
  }

  predicate ConsumerStep(st: Ring.Step)
  {
    st.PeekHead? || st.PeekTail? || st.PeekId? || st.Take? || st.Zero? || st.Advance?
  }

  predicate Enabled(s: State, st: Step)
  {
    match st
    case Call(t) => MayRun(s, t) && Ring.Enabled(s.ring, Begin(t, |s.place|))
    case Move(t, rst) => MayRun(s, t) && ProducerStep(t, rst) && Ring.Enabled(s.ring, rst)
    case Append(t) => MayRun(s, t) && Ring.Enabled(s.ring, GiveUp(t))
    case Wake(t) => MayRun(s, t) && Ring.Enabled(s.ring, Finish(t))
    case QuitStore(t) => MayRun(s, t)
    case QuitWake => s.quitters > 0
    case EnterLoop => s.phase.PreLoop? && LoopIdle(s)
    case CheckQuit => s.phase.Check?
    case PollReturn(ready) => s.phase.AtPoll? && (ready ==> s.wake > 0)
    case ReadWake => s.phase.Events? && s.phase.ready && LoopIdle(s)
    case EndEvents => s.phase.Events? && !s.phase.ready && LoopIdle(s)
    case Consume(rst) =>
      && s.phase.Drain? && ConsumerStep(rst) && Ring.Enabled(s.ring, rst)
      && (rst.Zero? ==> LoopIdle(s))
    case EndDrain => s.phase.Drain? && Ring.Enabled(s.ring, Rest)
    case SwapVector => s.phase.Swap?
    case StartNext => s.phase.Batch? && s.current.None? && s.batch != []
    case EndNext => s.phase.Batch? && s.current.Some? && LoopIdle(s)
    case EndPending => s.phase.Batch? && s.current.None? && s.batch == []
  }

  // An eventfd write adds one, and fails without effect on a saturated counter.
  function Bump(wake: nat): nat
  {
    if wake < EVENTFD_MAX then wake + 1 else wake
  }

  function Do(s: State, st: Step): State
    requires Enabled(s, st)
  {
    match st
    case Call(t) =>
      s.(ring := Ring.Do(s.ring, Begin(t, |s.place|)), place := s.place + [Hand(t)])
    case Move(t, rst) =>
      var f := if Prod(s.ring, t).HaveTail? then Prod(s.ring, t).f else 0;
      s.(ring := Ring.Do(s.ring, rst),
         place := if rst.CasOk? && f < |s.place| then s.place[f := InRing(|s.ring.log|)] else s.place,
         outside := s.outside || (rst.CasOk? && t != LOOP))
    case Append(t) =>
      var f := Prod(s.ring, t).f;
      s.(ring := Ring.Do(s.ring, GiveUp(t)),
         fallback := s.fallback + [f],
         fbLog := s.fbLog + [f],
         place := if f < |s.place| then s.place[f := InFallback(|s.fbLog|)] else s.place,
         outside := s.outside || t != LOOP)
    case Wake(t) =>
      s.(ring := Ring.Do(s.ring, Finish(t)),
         wake := if t != LOOP || Calling(s) then Bump(s.wake) else s.wake)
    case QuitStore(t) =>
      s.(quit := true, quitters := if t == LOOP then s.quitters else s.quitters + 1)
    case QuitWake => s.(quitters := s.quitters - 1, wake := Bump(s.wake), outside := true)
    case EnterLoop => s.(phase := Check(true))
    case CheckQuit => s.(phase := if s.quit then Stopped else AtPoll(s.phase.first))
    case PollReturn(ready) => s.(phase := Events(ready))
    case ReadWake => s.(phase := Events(false), wake := 0)
    case EndEvents => s.(phase := if s.ring.valid then Drain else Swap)
    case Consume(rst) =>
      var r := Ring.Do(s.ring, rst);
      s.(ring := r,
         trace := if rst.Take? && |r.out| > |s.ring.out| then s.trace + [FromRing(r.out[|r.out| - 1])] else s.trace)
    case EndDrain => s.(ring := Ring.Do(s.ring, Rest), phase := Swap)
    case SwapVector => s.(phase := Batch, batch := s.fallback, fallback := [])
    case StartNext =>
      s.(current := Some(s.batch[0]), batch := s.batch[1..], trace := s.trace + [FromFallback(s.batch[0])])
    case EndNext => s.(current := None)
    case EndPending => s.(phase := Check(false))
  }

  // The ring's assumption on the schedule.
  predicate Punctual(s: State, st: Step)
  {
    st.Move? ==> Ring.Punctual(s.ring, st.st)
  }

  ghost predicate Schedule(s: State, steps: seq<Step>)
    decreases |steps|
  {
    steps == [] ||
    (Enabled(s, steps[0]) && Punctual(s, steps[0]) && Schedule(Do(s, steps[0]), steps[1..]))
  }

  ghost function Exec(s: State, steps: seq<Step>): State
    requires Schedule(s, steps)
    decreases |steps|
  {
    if steps == [] then s else Exec(Do(s, steps[0]), steps[1..])
  }

  // The functors of one origin, in the order they were started.
  function RingPart(trace: seq<Ran>): seq<Functor>
  {
    if trace == [] then []
    else
      var last := trace[|trace| - 1];
      RingPart(trace[..|trace| - 1]) + if last.FromRing? then [last.f] else []
  }

  function FallbackPart(trace: seq<Ran>): seq<Functor>
  {
    if trace == [] then []
    else
      var last := trace[|trace| - 1];
      FallbackPart(trace[..|trace| - 1]) + if last.FromFallback? then [last.f] else []
  }

  // The thread has a functor that is in neither queue yet.
  predicate InHand(p: Producer)
  {
    p.Start? || p.HaveHead? || p.HaveTail? || p.Full?
  }

  predicate Holds(p: Producer, f: Functor)
  {
    InHand(p) && p.f == f
  }
}
