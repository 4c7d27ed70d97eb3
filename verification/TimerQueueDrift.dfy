/** Repeating timers never drift: over every schedule, a live one expires on the grid of its
first expiration and its interval, however late its batches ran. */
module TimerQueueDrift {
  import opened TimerMath
  import opened TimerSet
  import opened TimerQueueSpec
  import opened TimerQueueProofs

  // `e` is a whole number of intervals after `birth`.
  ghost predicate OnGrid(birth: int, interval: int, e: int)
  {
    exists k: nat :: e == birth + interval * US * k
  }

  ghost predicate Regular(s: State, a: Addr)
    requires a in s.heap
  {
    var t := s.heap[a];
    && 1 <= t.sequence <= |s.births|
    && (if t.interval > 0 then OnGrid(s.births[t.sequence - 1], t.interval, t.expiration)
        else t.expiration == s.births[t.sequence - 1])
  }

  ghost predicate Grid(s: State)
  {
    |s.births| == s.created && forall a {:trigger Regular(s, a)} :: a in s.heap ==> Regular(s, a)
  }

  lemma GridStart(birth: int, interval: int)
    ensures OnGrid(birth, interval, birth)
  {
    assert birth == birth + interval * US * 0;
  }

  lemma GridAdvance(birth: int, interval: int, e: int, now: int)
    requires interval > 0 && OnGrid(birth, interval, e) && e <= now
    ensures OnGrid(birth, interval, NextExpiration(e, interval, now))
  {
    var k: nat :| e == birth + interval * US * k;
    var j := DriftFree(e, interval, now);
    var step := interval * US;
    assert step * (k + j) == step * k + step * j;
    assert NextExpiration(e, interval, now) == birth + step * (k + j);
  }

  lemma AddGrid(s: State, a: Addr, when: int, interval: int, clock: int)
    requires Grid(s) && a !in s.heap
    ensures Grid(AddTimer(s, a, when, interval, clock))
  {
    var s' := AddTimer(s, a, when, interval, clock);
    GridStart(when, interval);
    forall b | b in s'.heap
      ensures Regular(s', b)
    {
      if b != a { assert Regular(s, b); }
    }
  }

  lemma SameGrid(s: State, s': State)
    requires Grid(s) && s'.births == s.births && s'.created == s.created
    requires forall a :: a in s'.heap ==> a in s.heap && s'.heap[a] == s.heap[a]
    ensures Grid(s')
  {
    forall a | a in s'.heap
      ensures Regular(s', a)
    {
      assert Regular(s, a);
    }
  }

  lemma ResetOneGrid(s: State, e: Entry)
    requires Grid(s) && PendOk(s, e)
    ensures Grid(ResetOne(s, e))
  {
    var s' := ResetOne(s, e);
    var t := s.heap[e.addr];
    assert Regular(s, e.addr);
    if t.interval > 0 && IdAt(s, e.addr) !in s.canceling {
      GridAdvance(s.births[t.sequence - 1], t.interval, t.expiration, s.now);
      forall a | a in s'.heap
        ensures Regular(s', a)
      {
        assert Regular(s, a);
      }
    } else {
      SameGrid(s, s');
    }
  }

  lemma {:induction false} ResetAllGrid(s: State, es: seq<Entry>)
    requires Grid(s) && Indexes(s, es)
    ensures Grid(ResetAll(s, es))
    decreases |es|
  {
    if es == [] {
    } else {
      PendHead(s, es);
      ResetOneGrid(s, es[0]);
      ResetOneIndexes(s, es);
      ResetAllGrid(ResetOne(s, es[0]), es[1..]);
    }
  }

  lemma StepGrid(s: State, st: Step)
    requires Inv(s) && Grid(s) && Enabled(s, st)
    ensures Grid(Do(s, st))
  {
    match st
    case Add(addr, when, interval, clock) => AddGrid(s, addr, when, interval, clock);
    case EndRead(clock) =>
      ResetAllGrid(s, s.batch);
      SameGrid(ResetAll(s, s.batch), End(s, clock));
    case _ => SameGrid(s, Do(s, st));
  }

  lemma {:induction false} ScheduleGrid(s: State, steps: seq<Step>)
    requires Inv(s) && Grid(s) && Schedule(s, steps)
    ensures Grid(Exec(s, steps))
    decreases |steps|
  {
    if steps == [] {
    } else {
      StepInv(s, steps[0]);
      StepGrid(s, steps[0]);
      ScheduleGrid(Do(s, steps[0]), steps[1..]);
    }
  }

  /** No drift over whole runs: whatever the delays, cancellations and reuse of addresses, every
      live repeating timer expires a whole number of intervals after its first expiration, and a
      one-shot timer exactly at the time it was given. */
  lemma NeverDrifts(init: State, steps: seq<Step>, a: Addr)
    requires Init(init) && Schedule(init, steps)
    ensures
      var s := Exec(init, steps);
      a in s.heap ==>
        var t := s.heap[a];
        && 1 <= t.sequence <= |s.births|
        && (t.interval > 0 ==> OnGrid(s.births[t.sequence - 1], t.interval, t.expiration))
        && (t.interval <= 0 ==> t.expiration == s.births[t.sequence - 1])
  {
    InitInv(init);
    ScheduleGrid(init, steps);
    var s := Exec(init, steps);
    if a in s.heap {
      assert Regular(s, a);
    }
  }
}
