/** When `reserve` returns null: exactly on an unmapped ring, or when the words it loaded say full. */
module RingReserve {
  import opened RingArith
  import opened Ring
  import opened RingProofs

  // The distance of the two words a thread loaded, in nodes; exact while it is less than a lap.
  function Distance(p: Producer): nat
    requires p.HaveTail? && p.hr <= p.tw
  {
    (p.tw - p.hr) % LAP
  }

  // Thread `t` learns in this step that it gets no node.
  ghost predicate Refused(s: State, st: Step, t: Thread)
    requires Inv(s)
  {
    assert ProducerOk(s, t);
    || (st.Begin? && st.t == t && !s.valid)
    || (Mover(st) == Mine(t) && Prod(s, t).HaveTail? && Distance(Prod(s, t)) >= Slots(s.order))
  }

  lemma TestExact(s: State, t: Thread)
    requires Inv(s) && Prod(s, t).HaveTail?
    ensures
      var p := Prod(s, t);
      && p.hr <= p.tw && p.r < WORD && p.w < WORD
      && (TooFull(s.order, p.r, p.w) <==> Distance(p) >= Slots(s.order))
      && (p.tw - p.hr < LAP ==> Distance(p) == p.tw - p.hr)
  {
    var p := Prod(s, t);
    assert ProducerOk(s, t);
    MinusWraps(p.hr, p.tw);
  }

  /** One step: a thread that was not refused before is refused exactly when the ring is unmapped as
      it enters, or when the tail it loaded is a ring or more past the head it loaded. A thread that
      lost its swap keeps its functor and starts over. */
  lemma ReserveNullIff(s: State, st: Step, t: Thread)
    requires Inv(s) && Enabled(s, st) && !Prod(s, t).Full?
    ensures Prod(Do(s, st), t).Full? <==> Refused(s, st, t)
    ensures Refused(s, st, t) ==> Prod(Do(s, st), t).f == if st.Begin? then st.f else Prod(s, t).f
    ensures st == CasFail(t) ==> Prod(Do(s, st), t) == Start(Prod(s, t).f)
  {
    if Prod(s, t).HaveTail? {
      TestExact(s, t);
    }
  }

  /** The same at every point of every punctual schedule; if fewer than a lap of reservations went by
      between its two loads, a thread is refused exactly when the positions it saw are a whole ring apart. */
  lemma ReserveNullExact(init: State, steps: seq<Step>, st: Step, t: Thread)
    requires Init(init) && Schedule(init, steps) && PunctualSchedule(init, steps) && Enabled(Exec(init, steps), st)
    requires !Prod(Exec(init, steps), t).Full?
    ensures
      var s := Exec(init, steps);
      var p := Prod(s, t);
      && Inv(s)
      && (Prod(Do(s, st), t).Full? <==> Refused(s, st, t))
      && (p.HaveTail? && Mover(st) == Mine(t) && p.tw < p.hr + LAP ==>
            (Prod(Do(s, st), t).Full? <==> p.tw - p.hr >= Slots(s.order)))
  {
    InitInv(init);
    ScheduleInv(init, steps);
    var s := Exec(init, steps);
    ReserveNullIff(s, st, t);
    if Prod(s, t).HaveTail? {
      TestExact(s, t);
    }
  }
}
