/** The timer queue as a transition system on the loop thread.

Timers live on a heap of addresses; a deleted address may be handed out again. User callbacks run
between the steps of one `handleRead`, so they may add and cancel timers at any point of a batch.
The kernel timer is one-shot: `Fire` may happen whenever its deadline has passed.
*/
module TimerQueueSpec {
  import opened TimerMath
  import opened TimerSet

  const ADDR_MAX: nat := 0xFFFF_FFFF_FFFF_FFFF
  const EPOCH: int := 0

  // A timer repeats exactly when its interval is positive.
  datatype Timer = Timer(expiration: int, interval: int, sequence: nat)

  // What `addTimer` returns: the address and the sequence number of the timer.
  datatype Id = Id(addr: Addr, sequence: nat)

  datatype Arm = Disarmed | Armed(deadline: int, at: int)

  datatype State = State(
    heap: map<Addr, Timer>,
    timers: seq<Entry>,
    active: set<Id>,
    canceling: set<Id>,
    calling: bool,            // callbacks of a batch are running
    created: nat,
    arm: Arm,                 // the kernel timer
    unread: bool,             // it has expired and was not read since
    clock: int,
    batch: seq<Entry>,        // entries taken by the handleRead in progress
    next: nat,                // how many of their callbacks have started
    now: int,                 // the time that handleRead works with
    // history
    starts: seq<nat>,         // sequence numbers of the callbacks started
    deleted: seq<nat>,        // sequence numbers of the timers deleted
    births: seq<int>)         // the first expiration of each timer, in order of sequence number

  datatype Step =
    | Add(addr: Addr, when: int, interval: int, clock: int)
    | Cancel(id: Id, clock: int)
    | Fire
    | Tick(clock: int)
    | BeginRead(clock: int)
    | StartNext
    | EndRead(clock: int)

  predicate Init(s: State)
  {
    && s.heap == map[] && s.timers == [] && s.active == {} && s.canceling == {} && !s.calling && s.created == 0
    && s.arm.Disarmed? && !s.unread && s.clock >= EPOCH
    && s.batch == [] && s.next == 0 && s.starts == [] && s.deleted == [] && s.births == []
  }

  predicate Enabled(s: State, st: Step)
  {
    match st
    case Add(addr, _, _, clock) => addr !in s.heap && addr < ADDR_MAX && clock >= s.clock
    case Cancel(_, clock) => clock >= s.clock
    case Fire => s.arm.Armed? && s.arm.deadline <= s.clock
    case Tick(clock) => clock >= s.clock
    case BeginRead(clock) => !s.calling && clock >= s.clock
    case StartNext => s.calling && s.next < |s.batch| && s.batch[s.next].addr in s.heap
    case EndRead(clock) => s.calling && s.next == |s.batch| && clock >= s.clock
  }

  // ----- operations of the source -----

  function IdAt(s: State, a: Addr): Id
    requires a in s.heap
  {
    Id(a, s.heap[a].sequence)
  }

  function Expiration(s: State, a: Addr): int
  {
    if a in s.heap then s.heap[a].expiration else EPOCH
  }

  function ResetTimerfd(s: State, when: int, clock: int): State
  {
    s.(arm := Armed(clock + Nanoseconds(ToTimeSpec(Delay(when, clock))), clock), unread := false, clock := clock)
  }

  function DisarmTimerfd(s: State, clock: int): State
  {
    s.(arm := Disarmed, unread := false, clock := clock)
  }

  predicate EarliestChanged(s: State, when: int)
  {
    s.timers == [] || when < s.timers[0].time
  }

  function InsertTimer(s: State, a: Addr): State
    requires a in s.heap
  {
    s.(timers := Insert(s.timers, Entry(s.heap[a].expiration, a)), active := s.active + {IdAt(s, a)})
  }

  function AddTimer(s: State, a: Addr, when: int, interval: int, clock: int): State
  {
    var s1 := s.(heap := s.heap[a := Timer(when, interval, s.created + 1)], created := s.created + 1,
                 births := s.births + [when]);
    var s2 := InsertTimer(s1, a);
    if EarliestChanged(s1, when) then ResetTimerfd(s2, when, clock) else s2.(clock := clock)
  }

  function CancelTimer(s: State, id: Id, clock: int): State
  {
    if id in s.active then
      var earliest := s.timers != [] && s.timers[0].addr == id.addr;
      var s1 := s.(timers := Erase(s.timers, Entry(Expiration(s, id.addr), id.addr)),
                   heap := s.heap - {id.addr},
                   active := s.active - {id},
                   deleted := s.deleted + [id.sequence]);
      if !earliest then s1.(clock := clock)
      else if s1.timers != [] then ResetTimerfd(s1, Expiration(s1, s1.timers[0].addr), clock)
      else DisarmTimerfd(s1, clock)
    else if s.calling then s.(canceling := s.canceling + {id}, clock := clock)
    else s.(clock := clock)
  }

  // The loop of `getExpired` over the second index.
  function EraseIds(active: set<Id>, es: seq<Entry>, heap: map<Addr, Timer>): set<Id>
    decreases |es|
  {
    if es == [] then active
    else if es[0].addr !in heap then EraseIds(active, es[1..], heap)
    else EraseIds(active - {Id(es[0].addr, heap[es[0].addr].sequence)}, es[1..], heap)
  }

  // Reading the kernel timer, taking the expired entries, and entering the callback loop.
  function Begin(s: State, now: int): State
  {
    var k := LowerBound(s.timers, Entry(now, ADDR_MAX));
    s.(clock := now, now := now, unread := false,
       batch := s.timers[..k], next := 0, timers := s.timers[k..],
       active := EraseIds(s.active, s.timers[..k], s.heap),
       calling := true, canceling := {})
  }

  // One turn of the loop in `reset`.
  function ResetOne(s: State, e: Entry): State
  {
    if e.addr !in s.heap then s else
    var t := s.heap[e.addr];
    if t.interval > 0 && IdAt(s, e.addr) !in s.canceling then
      InsertTimer(s.(heap := s.heap[e.addr := t.(expiration := NextExpiration(t.expiration, t.interval, s.now))]), e.addr)
    else
      s.(heap := s.heap - {e.addr}, deleted := s.deleted + [t.sequence])
  }

  function ResetAll(s: State, es: seq<Entry>): State
    decreases |es|
  {
    if es == [] then s else ResetAll(ResetOne(s, es[0]), es[1..])
  }

  // Leaving the callback loop, restarting or deleting the batch, and re-arming.
  function End(s: State, clock: int): State
  {
    var s1 := ResetAll(s, s.batch).(calling := false, batch := [], next := 0);
    var nextExpire := if s1.timers != [] then Expiration(s1, s1.timers[0].addr) else EPOCH;
    if nextExpire != EPOCH then ResetTimerfd(s1, nextExpire, clock) else s1.(clock := clock)
  }

  function Do(s: State, st: Step): State
    requires Enabled(s, st)
  {
    match st
    case Add(addr, when, interval, clock) => AddTimer(s, addr, when, interval, clock)
    case Cancel(id, clock) => CancelTimer(s, id, clock)
    case Fire => s.(arm := Disarmed, unread := true)
    case Tick(clock) => s.(clock := clock)
    case BeginRead(clock) => Begin(s, clock)
    case StartNext =>
      s.(starts := s.starts + [s.heap[s.batch[s.next].addr].sequence], next := s.next + 1)
    case EndRead(clock) => End(s, clock)
  }

  ghost predicate Schedule(s: State, steps: seq<Step>)
    decreases |steps|
  {
    steps == [] || (Enabled(s, steps[0]) && Schedule(Do(s, steps[0]), steps[1..]))
  }

  ghost function Exec(s: State, steps: seq<Step>): State
    requires Schedule(s, steps)
    decreases |steps|
  {
    if steps == [] then s else Exec(Do(s, steps[0]), steps[1..])
  }
}
