/** Repeating timers go on until they are cancelled: what `reset` does to each entry of a batch, and
what that means over every schedule, told from the steps themselves. */
module TimerQueueRepeat {
  import opened TimerMath
  import opened TimerSet
  import opened TimerQueueSpec
  import opened TimerQueueProofs
  import opened TimerQueueDrift
  import T = TimerQueueTheorems

  // ----- one batch -----

  // The entry's timer repeats and was not cancelled while the batch ran.
  ghost predicate Repeats(s: State, e: Entry)
    requires e.addr in s.heap
  {
    s.heap[e.addr].interval > 0 && IdAt(s, e.addr) !in s.canceling
  }

  // What becomes of the timer on the heap.
  ghost predicate Outcome(s: State, e: Entry, s': State)
    requires e.addr in s.heap
  {
    var t := s.heap[e.addr];
    if Repeats(s, e) then
      && e.addr in s'.heap
      && s'.heap[e.addr] == t.(expiration := s'.heap[e.addr].expiration)
      && s.now < s'.heap[e.addr].expiration <= s.now + t.interval * US
      && OnGrid(e.time, t.interval, s'.heap[e.addr].expiration)
    else e.addr !in s'.heap && t.sequence in s'.deleted
  }

  lemma ResetOneOutcome(s: State, e: Entry)
    requires PendOk(s, e)
    ensures Outcome(s, e, ResetOne(s, e))
  {
    var t := s.heap[e.addr];
    if Repeats(s, e) {
      GridStart(e.time, t.interval);
      GridAdvance(e.time, t.interval, e.time, s.now);
      var k := DriftFree(t.expiration, t.interval, s.now);
    }
  }

  // Entries of other timers leave a timer alone.
  lemma {:induction false} ResetAllFrame(s: State, es: seq<Entry>, a: Addr)
    requires forall e :: e in es ==> e.addr != a
    ensures
      var s' := ResetAll(s, es);
      && (a in s'.heap <==> a in s.heap) && (a in s.heap ==> s'.heap[a] == s.heap[a])
      && (forall q :: q in s.deleted ==> q in s'.deleted)
    decreases |es|
  {
    if es == [] {
    } else {
      assert es[0] in es && forall e :: e in es[1..] ==> e in es;
      ResetAllFrame(ResetOne(s, es[0]), es[1..], a);
    }
  }

  lemma {:induction false} ResetAllOutcome(s: State, es: seq<Entry>, e: Entry)
    requires Indexes(s, es) && e in es
    ensures e.addr in s.heap && Outcome(s, e, ResetAll(s, es))
    decreases |es|
  {
    PendHead(s, es);
    assert PendOk(s, e);
    var s1 := ResetOne(s, es[0]);
    if e == es[0] {
      ResetOneOutcome(s, e);
      ResetAllFrame(s1, es[1..], e.addr);
    } else {
      ResetOneIndexes(s, es);
      ResetAllOutcome(s1, es[1..], e);
      assert s1.heap[e.addr] == s.heap[e.addr] && s1.now == s.now && s1.canceling == s.canceling;
    }
  }

  // ----- cancels since the batch began, told from the steps -----

  function Recent(steps: seq<Step>): set<Id>
  {
    if steps == [] then {}
    else
      var before, last := Recent(steps[..|steps| - 1]), steps[|steps| - 1];
      if last.BeginRead? then {} else if last.Cancel? then before + {last.id} else before
  }

  lemma RecentSnoc(past: seq<Step>, st: Step)
    ensures Recent(past + [st]) ==
      if st.BeginRead? then {} else if st.Cancel? then Recent(past) + {st.id} else Recent(past)
  {
    assert (past + [st])[..|past|] == past;
  }

  // The marks are the cancels since the batch began, as far as the batch is concerned.
  ghost predicate Marks(s: State, past: seq<Step>)
  {
    s.calling ==>
      && s.canceling <= Recent(past)
      && forall e :: e in s.batch && e.addr in s.heap && IdAt(s, e.addr) in Recent(past) ==> IdAt(s, e.addr) in s.canceling
  }

  lemma StepMarks(s: State, st: Step, past: seq<Step>)
    requires Inv(s) && Enabled(s, st) && Marks(s, past)
    ensures Marks(Do(s, st), past + [st])
  {
    var s' := Do(s, st);
    RecentSnoc(past, st);
    if s.calling && !st.EndRead? {
      T.CountersFrame(s, st);
      MarkSets(s, st);
      forall e | e in s'.batch && e.addr in s'.heap && IdAt(s', e.addr) in Recent(past + [st])
        ensures IdAt(s', e.addr) in s'.canceling
      {
        T.BatchKept(s, st, e);
        assert PendOk(s, e);
      }
    }
  }

  lemma MarkSets(s: State, st: Step)
    requires Enabled(s, st) && s.calling && !st.EndRead?
    ensures Do(s, st).canceling ==
      if st.Cancel? && st.id !in s.active then s.canceling + {st.id} else s.canceling
  {}

  lemma {:induction false} RunMarks(s: State, steps: seq<Step>, past: seq<Step>)
    requires Inv(s) && Marks(s, past) && Schedule(s, steps)
    ensures Marks(Exec(s, steps), past + steps)
    decreases |steps|
  {
    if steps == [] {
      assert past + steps == past;
    } else {
      StepMarks(s, steps[0], past);
      StepInv(s, steps[0]);
      RunMarks(Do(s, steps[0]), steps[1..], past + [steps[0]]);
      assert past + [steps[0]] + steps[1..] == past + steps;
    }
  }

  lemma MarksByRun(init: State, steps: seq<Step>)
    requires Init(init) && Schedule(init, steps)
    ensures Marks(Exec(init, steps), steps)
  {
    InitInv(init);
    RunMarks(init, steps, []);
    assert [] + steps == steps;
  }

  // ----- the end of a batch -----

  /** At every end of a batch, over every schedule: an entry whose timer repeats and was not cancelled
      since the batch began is in both indexes again, under the one instant a whole number of intervals
      later that lies in (now, now + interval]; every other timer of the batch is deleted. */
  lemma RestartExact(init: State, steps: seq<Step>, clock: int, e: Entry)
    requires Init(init) && Schedule(init, steps)
    requires Enabled(Exec(init, steps), EndRead(clock)) && e in Exec(init, steps).batch
    ensures
      var s := Exec(init, steps);
      var s' := Do(s, EndRead(clock));
      && e.addr in s.heap && s.heap[e.addr].expiration == e.time && Outcome(s, e, s')
      && (Repeats(s, e) <==> s.heap[e.addr].interval > 0 && IdAt(s, e.addr) !in Recent(steps))
      && (Repeats(s, e) ==>
            && Entry(s'.heap[e.addr].expiration, e.addr) in s'.timers && IdAt(s, e.addr) in s'.active
            && s.heap[e.addr].sequence !in s'.deleted)
      && (!Repeats(s, e) ==>
            && (forall x :: x in s'.timers ==> x.addr != e.addr)
            && (forall id :: id in s'.active ==> id.addr != e.addr))
  {
    InitInv(init);
    ScheduleInv(init, steps);
    var s := Exec(init, steps);
    var s' := Do(s, EndRead(clock));
    assert PendOk(s, e);
    ResetAllOutcome(s, s.batch, e);
    MarksByRun(init, steps);
    EndInv(s, clock);
    if Repeats(s, e) {
      assert Owned(s', s'.batch, e.addr) && SequenceOk(s', e.addr);
      assert ActiveOk(s', IdAt(s', e.addr));
    } else {
      forall x | x in s'.timers
        ensures x.addr != e.addr
      {
        assert EntryOk(s', x);
      }
      forall id | id in s'.active
        ensures id.addr != e.addr
      {
        assert ActiveOk(s', id);
      }
    }
  }

  // ----- histories, told from the steps -----

  // The steps that created timers, in order: number `q` made the timer with sequence number `q + 1`.
  function Adds(steps: seq<Step>): seq<Step>
  {
    if steps == [] then []
    else
      var last := steps[|steps| - 1];
      Adds(steps[..|steps| - 1]) + if last.Add? then [last] else []
  }

  // Some cancel named the timer.
  ghost predicate Cancelled(steps: seq<Step>, q: nat)
  {
    exists i :: 0 <= i < |steps| && steps[i].Cancel? && steps[i].id.sequence == q
  }

  ghost predicate OneShot(adds: seq<Step>, q: nat)
    requires 1 <= q <= |adds|
  {
    adds[q - 1].Add? && adds[q - 1].interval <= 0
  }

  ghost predicate Born(s: State, adds: seq<Step>, a: Addr)
    requires a in s.heap
  {
    var t := s.heap[a];
    1 <= t.sequence <= |adds| && adds[t.sequence - 1].Add? && t.interval == adds[t.sequence - 1].interval
  }

  // The state remembers what the steps did.
  ghost predicate Told(s: State, past: seq<Step>)
  {
    var adds := Adds(past);
    && |adds| == s.created && |s.births| == s.created
    && (forall i :: 0 <= i < |adds| ==> adds[i].Add? && s.births[i] == adds[i].when)
    && (forall a {:trigger Born(s, adds, a)} :: a in s.heap ==> Born(s, adds, a))
    && (forall id :: id in s.canceling ==> Cancelled(past, id.sequence))
    && (forall q :: q in s.deleted ==> 1 <= q <= |adds| && (OneShot(adds, q) || Cancelled(past, q)))
  }

  lemma AddsSnoc(past: seq<Step>, st: Step)
    ensures Adds(past + [st]) == Adds(past) + if st.Add? then [st] else []
  {
    assert (past + [st])[..|past|] == past;
  }

  lemma CancelledSnoc(past: seq<Step>, st: Step, q: nat)
    ensures Cancelled(past + [st], q) <==> Cancelled(past, q) || (st.Cancel? && st.id.sequence == q)
  {
    var all := past + [st];
    assert all[|past|] == st && forall i :: 0 <= i < |past| ==> all[i] == past[i];
  }

  // A deletion has a reason: a one-shot, a mark, or the cancel that is this step.
  ghost predicate Explained(s: State, st: Step, q: nat)
  {
    exists a :: a in s.heap && s.heap[a].sequence == q &&
                (s.heap[a].interval <= 0 || IdAt(s, a) in s.canceling || (st.Cancel? && st.id.sequence == q))
  }

  ghost predicate SameKind(s: State, s': State, a: Addr)
    requires a in s'.heap
  {
    a in s.heap && s'.heap[a].interval == s.heap[a].interval && s'.heap[a].sequence == s.heap[a].sequence
  }

  lemma {:induction false} ResetAllKinds(s: State, es: seq<Entry>, a: Addr)
    requires a in ResetAll(s, es).heap
    ensures SameKind(s, ResetAll(s, es), a)
    decreases |es|
  {
    if es == [] {
    } else {
      ResetAllKinds(ResetOne(s, es[0]), es[1..], a);
    }
  }

  // What `reset` deletes was not to repeat.
  lemma {:induction false} ResetAllReasons(s: State, es: seq<Entry>, q: nat) returns (e: Entry)
    requires Indexes(s, es) && q in ResetAll(s, es).deleted && q !in s.deleted
    ensures e in es && e.addr in s.heap && s.heap[e.addr].sequence == q && !Repeats(s, e)
    decreases |es|
  {
    PendHead(s, es);
    var s1 := ResetOne(s, es[0]);
    if q in s1.deleted {
      e := es[0];
    } else {
      ResetOneIndexes(s, es);
      e := ResetAllReasons(s1, es[1..], q);
      assert s1.heap[e.addr] == s.heap[e.addr] && s1.canceling == s.canceling;
    }
  }

  // A step that creates no timer.
  lemma OtherTold(s: State, st: Step, s': State, past: seq<Step>)
    requires Told(s, past) && !st.Add? && s'.created == s.created && s'.births == s.births
    requires forall a {:trigger SameKind(s, s', a)} :: a in s'.heap ==> SameKind(s, s', a)
    requires forall id :: id in s'.canceling ==> id in s.canceling || (st.Cancel? && id == st.id)
    requires forall q :: q in s'.deleted ==> q in s.deleted || Explained(s, st, q)
    ensures Told(s', past + [st])
  {
    var adds, all := Adds(past), past + [st];
    AddsSnoc(past, st);
    forall a | a in s'.heap
      ensures Born(s', adds, a)
    {
      assert SameKind(s, s', a) && Born(s, adds, a);
    }
    forall q | q in s'.deleted
      ensures 1 <= q <= |adds| && (OneShot(adds, q) || Cancelled(all, q))
    {
      CancelledSnoc(past, st, q);
      if q !in s.deleted {
        var a :| a in s.heap && s.heap[a].sequence == q &&
                 (s.heap[a].interval <= 0 || IdAt(s, a) in s.canceling || (st.Cancel? && st.id.sequence == q));
        assert Born(s, adds, a);
      }
    }
    forall id | id in s'.canceling
      ensures Cancelled(all, id.sequence)
    {
      CancelledSnoc(past, st, id.sequence);
    }
  }

  lemma EndReasons(s: State, clock: int, q: nat)
    requires Inv(s) && Enabled(s, EndRead(clock)) && q in End(s, clock).deleted && q !in s.deleted
    ensures Explained(s, EndRead(clock), q)
  {
    var e := ResetAllReasons(s, s.batch, q);
    assert e.addr in s.heap;
  }

  lemma EndFrame(s: State, clock: int)
    requires Inv(s) && Enabled(s, EndRead(clock))
    ensures
      var s' := End(s, clock);
      && s'.created == s.created && s'.births == s.births && s'.canceling == s.canceling
      && (forall a {:trigger SameKind(s, s', a)} :: a in s'.heap ==> SameKind(s, s', a))
  {
    var s', s1 := End(s, clock), ResetAll(s, s.batch);
    ResetAllInv(s, s.batch);
    forall a | a in s'.heap
      ensures SameKind(s, s', a)
    {
      ResetAllKinds(s, s.batch, a);
    }
  }

  lemma EndTold(s: State, clock: int, past: seq<Step>)
    requires Inv(s) && Told(s, past) && Enabled(s, EndRead(clock))
    ensures Told(End(s, clock), past + [EndRead(clock)])
  {
    var s' := End(s, clock);
    EndFrame(s, clock);
    forall q | q in s'.deleted && q !in s.deleted
      ensures Explained(s, EndRead(clock), q)
    {
      EndReasons(s, clock, q);
    }
    OtherTold(s, EndRead(clock), s', past);
  }

  lemma CancelFrame(s: State, id: Id, clock: int)
    requires Inv(s) && Enabled(s, Cancel(id, clock))
    ensures
      var s' := CancelTimer(s, id, clock);
      && s'.created == s.created && s'.births == s.births
      && (forall i :: i in s'.canceling ==> i in s.canceling || i == id)
      && (forall a {:trigger SameKind(s, s', a)} :: a in s'.heap ==> SameKind(s, s', a))
      && (forall q :: q in s'.deleted ==> q in s.deleted || Explained(s, Cancel(id, clock), q))
  {
    if id in s.active {
      assert ActiveOk(s, id);
      assert id.addr in s.heap && s.heap[id.addr].sequence == id.sequence;
    }
  }

  lemma CancelTold(s: State, id: Id, clock: int, past: seq<Step>)
    requires Inv(s) && Told(s, past) && Enabled(s, Cancel(id, clock))
    ensures Told(CancelTimer(s, id, clock), past + [Cancel(id, clock)])
  {
    CancelFrame(s, id, clock);
    OtherTold(s, Cancel(id, clock), CancelTimer(s, id, clock), past);
  }

  lemma AddedTold(s: State, st: Step, s': State, past: seq<Step>)
    requires Told(s, past) && st.Add? && s'.created == s.created + 1 && s'.births == s.births + [st.when]
    requires s'.heap == s.heap[st.addr := Timer(st.when, st.interval, s'.created)]
    requires s'.canceling == s.canceling && s'.deleted == s.deleted
    ensures Told(s', past + [st])
  {
    var older, adds, all := Adds(past), Adds(past + [st]), past + [st];
    AddsSnoc(past, st);
    forall b | b in s'.heap
      ensures Born(s', adds, b)
    {
      if b != st.addr { assert Born(s, older, b); }
    }
    forall q | q in s'.deleted
      ensures 1 <= q <= |adds| && (OneShot(adds, q) || Cancelled(all, q))
    {
      CancelledSnoc(past, st, q);
      assert adds[q - 1] == older[q - 1];
    }
    forall i | i in s'.canceling
      ensures Cancelled(all, i.sequence)
    {
      CancelledSnoc(past, st, i.sequence);
    }
  }

  lemma AddTold(s: State, a: Addr, when: int, interval: int, clock: int, past: seq<Step>)
    requires Told(s, past) && Enabled(s, Add(a, when, interval, clock))
    ensures Told(AddTimer(s, a, when, interval, clock), past + [Add(a, when, interval, clock)])
  {
    AddedTold(s, Add(a, when, interval, clock), AddTimer(s, a, when, interval, clock), past);
  }

  // A step that creates, deletes and marks nothing.
  lemma SameTold(s: State, st: Step, past: seq<Step>)
    requires Told(s, past) && Enabled(s, st) && !st.Add? && !st.Cancel? && !st.EndRead?
    ensures Told(Do(s, st), past + [st])
  {
    OtherTold(s, st, Do(s, st), past);
  }

  lemma StepTold(s: State, st: Step, past: seq<Step>)
    requires Inv(s) && Told(s, past) && Enabled(s, st)
    ensures Told(Do(s, st), past + [st])
  {
    match st
    case Add(a, when, interval, clock) => AddTold(s, a, when, interval, clock, past);
    case Cancel(id, clock) => CancelTold(s, id, clock, past);
    case EndRead(clock) => EndTold(s, clock, past);
    case _ => SameTold(s, st, past);
  }

  lemma {:induction false} RunTold(s: State, steps: seq<Step>, past: seq<Step>)
    requires Inv(s) && Told(s, past) && Schedule(s, steps)
    ensures Told(Exec(s, steps), past + steps)
    decreases |steps|
  {
    if steps == [] {
      assert past + steps == past;
    } else {
      StepTold(s, steps[0], past);
      StepInv(s, steps[0]);
      RunTold(Do(s, steps[0]), steps[1..], past + [steps[0]]);
      assert past + [steps[0]] + steps[1..] == past + steps;
    }
  }

  lemma ToldByRun(init: State, steps: seq<Step>)
    requires Init(init) && Schedule(init, steps)
    ensures Told(Exec(init, steps), steps)
  {
    InitInv(init);
    RunTold(init, steps, []);
    assert [] + steps == steps;
  }

  /** Over every schedule a timer is deleted only after a cancel named it, or as a one-shot; so a
      repeating timer that no cancel has named is in the sets or in the running batch. */
  lemma RepeatsUntilCancelled(init: State, steps: seq<Step>, q: nat)
    requires Init(init) && Schedule(init, steps) && 1 <= q <= |Adds(steps)|
    ensures
      var s := Exec(init, steps);
      var add := Adds(steps)[q - 1];
      && add.Add?
      && (q in s.deleted ==> add.interval <= 0 || Cancelled(steps, q))
      && (add.interval > 0 && !Cancelled(steps, q) ==> T.InSets(s, q) || T.InBatch(s, q))
  {
    ToldByRun(init, steps);
    T.EachTimerOnce(init, steps, q);
  }

  /** Every live timer is the one its adding step asked for: it has that interval, and it expires a
      whole number of intervals after the time it was given, or at that time if it is a one-shot. */
  lemma GridFromSteps(init: State, steps: seq<Step>, a: Addr)
    requires Init(init) && Schedule(init, steps) && a in Exec(init, steps).heap
    ensures
      var t := Exec(init, steps).heap[a];
      && 1 <= t.sequence <= |Adds(steps)| && Adds(steps)[t.sequence - 1].Add?
      && var add := Adds(steps)[t.sequence - 1];
      && t.interval == add.interval
      && (if add.interval > 0 then OnGrid(add.when, add.interval, t.expiration) else t.expiration == add.when)
  {
    ToldByRun(init, steps);
    NeverDrifts(init, steps, a);
    assert Born(Exec(init, steps), Adds(steps), a);
  }

  // ----- every callback of a batch -----

  // The last callbacks started are those of the first `next` entries, in order.
  ghost predicate RanSoFar(s: State)
  {
    s.calling ==>
      && s.next <= |s.starts| && s.next <= |s.batch|
      && forall i :: 0 <= i < s.next ==>
           s.batch[i].addr in s.heap && s.starts[|s.starts| - s.next + i] == s.heap[s.batch[i].addr].sequence
  }

  lemma StepRan(s: State, st: Step)
    requires Inv(s) && Enabled(s, st) && RanSoFar(s)
    ensures RanSoFar(Do(s, st))
  {
    var s' := Do(s, st);
    if s.calling && !st.EndRead? {
      T.CountersFrame(s, st);
      forall i | 0 <= i < s'.next
        ensures s'.batch[i].addr in s'.heap && s'.starts[|s'.starts| - s'.next + i] == s'.heap[s'.batch[i].addr].sequence
      {
        assert s.batch[i] in s.batch;
        T.BatchKept(s, st, s.batch[i]);
      }
    }
  }

  lemma {:induction false} RunRan(s: State, steps: seq<Step>)
    requires Inv(s) && RanSoFar(s) && Schedule(s, steps)
    ensures RanSoFar(Exec(s, steps))
    decreases |steps|
  {
    if steps == [] {
    } else {
      StepRan(s, steps[0]);
      StepInv(s, steps[0]);
      RunRan(Do(s, steps[0]), steps[1..]);
    }
  }

  /** When a batch ends, the callbacks started last are those of all its entries, in order. */
  lemma BatchRunsAll(init: State, steps: seq<Step>, clock: int)
    requires Init(init) && Schedule(init, steps) && Enabled(Exec(init, steps), EndRead(clock))
    ensures
      var s := Exec(init, steps);
      var n := |s.batch|;
      && n <= |s.starts|
      && forall i :: 0 <= i < n ==>
           s.batch[i].addr in s.heap && s.starts[|s.starts| - n + i] == s.heap[s.batch[i].addr].sequence
  {
    InitInv(init);
    RunRan(init, steps);
  }
}
