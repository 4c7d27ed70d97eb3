/** The lock-free multi-producer single-consumer ring as an interleaved transition system.

One step is one atomic load, compare-and-swap, store or fetch-add of `MpscQueue`, taken by one
thread; the schedule is arbitrary. Memory is sequentially consistent. Fields after the comment
"history" never influence a step: they record unbounded positions and what has happened.
*/
module Ring {
  import opened RingArith

  type Thread = nat
  type Functor = nat

  // The functor pointer stored in a node.
  datatype Ptr = Null | To(f: Functor)

  datatype Node = Node(data: Ptr, id: nat)

  const ZERO := Node(Null, 0)

  // Where a thread stands inside `reserve`, the slot write, or `commit`.
  datatype Producer =
    | Idle
    | Start(f: Functor)
    | HaveHead(f: Functor, r: nat, hr: nat)
    | HaveTail(f: Functor, r: nat, w: nat, hr: nat, tw: nat)
    | Full(f: Functor)
    | Reserved(f: Functor, w: nat, pos: nat)
    | Filled(w: nat, pos: nat)
    | Returned

  // Where the consumer stands inside `peek`, the use of the node, or `consume`.
  datatype Consumer =
    | Resting
    | SawHead(h: nat)
    | SawWork
    | Found
    | Taken
    | Zeroed
    | SawNull

  datatype State = State(
    valid: bool,               // the buffer was mapped
    order: nat,
    head: nat,
    tail: nat,
    mem: seq<Node>,
    prods: map<Thread, Producer>,
    cons: Consumer,
    // history
    hd: nat,                   // nodes consumed so far
    log: seq<Functor>,         // functors in the order of their successful compare-and-swap
    out: seq<Functor>,         // functors handed to the consumer, read from memory
    owner: map<nat, Thread>)   // positions reserved but not yet committed

  datatype Step =
    | Begin(t: Thread, f: Functor)
    | LoadHead(t: Thread)
    | LoadTail(t: Thread)
    | CheckFull(t: Thread)
    | CasOk(t: Thread)
    | CasFail(t: Thread)
    | Fill(t: Thread)
    | Commit(t: Thread)
    | GiveUp(t: Thread)
    | Finish(t: Thread)
    | PeekHead
    | PeekTail
    | PeekId
    | Take
    | Zero
    | Advance
    | Rest

  function Prod(s: State, t: Thread): Producer
  {
    if t in s.prods then s.prods[t] else Idle
  }

  predicate Owns(p: Producer)
  {
    p.Reserved? || p.Filled?
  }

  ghost predicate Init(s: State)
  {
    && ValidOrder(s.order)
    && s.head == 0 && s.tail == 0
    && |s.mem| == Slots(s.order) && (forall k :: 0 <= k < |s.mem| ==> s.mem[k] == ZERO)
    && s.prods == map[]
    && s.cons == Resting
    && s.hd == 0 && s.log == [] && s.out == [] && s.owner == map[]
  }

  // The overflow test of `reserve`: unsigned distance against size minus one node.
  predicate TooFull(order: nat, r: nat, w: nat)
    requires ValidOrder(order) && r < WORD && w < WORD
  {
    Minus(w, r) > NODE * Slots(order) - NODE
  }

  predicate WellFormed(s: State)
  {
    && ValidOrder(s.order)
    && |s.mem| == Slots(s.order)
    && s.head < WORD && s.tail < WORD
  }

  predicate Enabled(s: State, st: Step)
  {
    && WellFormed(s)
    && match st
       case Begin(t, _) => Prod(s, t).Idle?
       case LoadHead(t) => Prod(s, t).Start?
       case LoadTail(t) => Prod(s, t).HaveHead?
       case CheckFull(t) =>
         var p := Prod(s, t);
         p.HaveTail? && p.r < WORD && p.w < WORD && TooFull(s.order, p.r, p.w)
       case CasOk(t) =>
         var p := Prod(s, t);
         p.HaveTail? && p.r < WORD && p.w < WORD && !TooFull(s.order, p.r, p.w) && s.tail == p.w
       case CasFail(t) =>   // a weak compare-and-swap may also fail spuriously
         var p := Prod(s, t);
         p.HaveTail? && p.r < WORD && p.w < WORD && !TooFull(s.order, p.r, p.w)
       case Fill(t) => Prod(s, t).Reserved?
       case Commit(t) => Prod(s, t).Filled?
       case GiveUp(t) => Prod(s, t).Full?
       case Finish(t) => Prod(s, t).Returned?
       case PeekHead => s.cons.Resting?
       case PeekTail => s.cons.SawHead?
       case PeekId => s.cons.SawWork?
       case Take => s.cons.Found?
       case Zero => s.cons.Taken?
       case Advance => s.cons.Zeroed?
       case Rest => s.cons.SawNull?
  }

  function HeadNode(s: State): Node
    requires WellFormed(s)
  {
    s.mem[Index(s.head, s.order)]
  }

  function Do(s: State, st: Step): State
    requires Enabled(s, st)
  {
    match st
    case Begin(t, f) => s.(prods := s.prods[t := if s.valid then Start(f) else Full(f)])
    case LoadHead(t) => s.(prods := s.prods[t := HaveHead(Prod(s, t).f, s.head, s.hd)])
    case LoadTail(t) =>
      var p := Prod(s, t);
      s.(prods := s.prods[t := HaveTail(p.f, p.r, s.tail, p.hr, |s.log|)])
    case CheckFull(t) => s.(prods := s.prods[t := Full(Prod(s, t).f)])
    case CasOk(t) =>
      var p := Prod(s, t);
      s.(tail := (p.w + NODE) % WORD,
         prods := s.prods[t := Reserved(p.f, p.w, |s.log|)],
         log := s.log + [p.f],
         owner := s.owner[|s.log| := t])
    case CasFail(t) => s.(prods := s.prods[t := Start(Prod(s, t).f)])
    case Fill(t) =>
      var p := Prod(s, t);
      var k := Index(p.w, s.order);
      s.(mem := s.mem[k := s.mem[k].(data := To(p.f))],
         prods := s.prods[t := Filled(p.w, p.pos)])
    case Commit(t) =>
      var p := Prod(s, t);
      var k := Index(p.w, s.order);
      s.(mem := s.mem[k := s.mem[k].(id := 1)],
         prods := s.prods[t := Returned],
         owner := s.owner - {p.pos})
    case GiveUp(t) => s.(prods := s.prods[t := Returned])
    case Finish(t) => s.(prods := s.prods[t := Idle])
    case PeekHead => s.(cons := if s.valid then SawHead(s.head) else SawNull)
    case PeekTail => s.(cons := if s.cons.h == s.tail then SawNull else SawWork)
    case PeekId => s.(cons := if HeadNode(s).id != 0 then Found else SawNull)
    case Take =>
      var d := HeadNode(s).data;
      s.(cons := Taken, out := s.out + if d.To? then [d.f] else [])
    case Zero => s.(cons := Zeroed, mem := s.mem[Index(s.head, s.order) := ZERO])
    case Advance => s.(cons := Resting, head := (s.head + NODE) % WORD, hd := s.hd + 1)
    case Rest => s.(cons := Resting)
  }

  /** The environment assumption on the schedule.

  When a compare-and-swap succeeds, fewer than a lap of positions separates the tail from the
  head value that the same attempt loaded.
  */
  predicate Punctual(s: State, st: Step)
  {
    st.CasOk? && Prod(s, st.t).HaveTail? ==> |s.log| < Prod(s, st.t).hr + LAP
  }

  // A schedule: the steps it takes are enabled one after the other.
  ghost predicate Schedule(s: State, steps: seq<Step>)
    decreases |steps|
  {
    steps == [] || (Enabled(s, steps[0]) && Schedule(Do(s, steps[0]), steps[1..]))
  }

  ghost predicate PunctualSchedule(s: State, steps: seq<Step>)
    requires Schedule(s, steps)
    decreases |steps|
  {
    steps == [] || (Punctual(s, steps[0]) && PunctualSchedule(Do(s, steps[0]), steps[1..]))
  }

  ghost function Exec(s: State, steps: seq<Step>): State
    requires Schedule(s, steps)
    decreases |steps|
  {
    if steps == [] then s else Exec(Do(s, steps[0]), steps[1..])
  }
}
