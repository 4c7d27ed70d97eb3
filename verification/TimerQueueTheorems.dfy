/** The guarantees of the timer queue, over every schedule of its steps. */
module TimerQueueTheorems {
  import opened TimerMath
  import opened TimerSet
  import opened TimerQueueSpec
  import opened TimerQueueProofs

  /** The kernel timer stays armed: between reads, a non-empty queue is watched by an unread expiry
      or by a non-zero one-shot due no later than the earliest entry or the minimum delay; and while
      it is armed it does not go off a microsecond or more before the earliest entry. */
  lemma StaysArmed(init: State, steps: seq<Step>)
    requires Init(init) && Schedule(init, steps)
    ensures
      var s := Exec(init, steps);
      && (!s.calling && s.timers != [] ==>
            s.unread ||
            (s.arm.Armed? && s.arm.at <= s.clock &&
             s.arm.deadline <= Max(s.timers[0].time, s.arm.at + MIN_DELAY * US)))
      && (!s.calling && s.timers != [] && s.arm.Armed? ==> s.timers[0].time - US < s.arm.deadline)
      && (s.arm.Armed? ==> s.arm.deadline > s.arm.at)
  {
    InitInv(init);
    ScheduleInv(init, steps);
  }

  /** The two indexes hold the same timers, each keyed by its current expiration. */
  lemma IndexesAgree(init: State, steps: seq<Step>, a: Addr)
    requires Init(init) && Schedule(init, steps)
    ensures
      var s := Exec(init, steps);
      && |s.timers| == |s.active| && Sorted(s.timers)
      && (forall t :: Entry(t, a) in s.timers <==>
            a in s.heap && s.heap[a].expiration == t && IdAt(s, a) in s.active)
      && (forall q :: Id(a, q) in s.active ==> a in s.heap && s.heap[a].sequence == q)
  {
    InitInv(init);
    ScheduleInv(init, steps);
    var s := Exec(init, steps);
    forall t | Entry(t, a) in s.timers
      ensures a in s.heap && s.heap[a].expiration == t && IdAt(s, a) in s.active
    {
      assert EntryOk(s, Entry(t, a));
    }
    if a in s.heap && IdAt(s, a) in s.active {
      assert ActiveOk(s, IdAt(s, a));
    }
    forall q | Id(a, q) in s.active
      ensures a in s.heap && s.heap[a].sequence == q
    {
      assert ActiveOk(s, Id(a, q));
    }
  }

  function Bit(b: bool): nat
  {
    if b then 1 else 0
  }

  ghost predicate InBatch(s: State, q: nat)
  {
    exists e :: e in s.batch && e.addr in s.heap && s.heap[e.addr].sequence == q
  }

  ghost predicate InSets(s: State, q: nat)
  {
    exists id :: id in s.active && id.sequence == q
  }

  /** Ownership: every timer ever created is in the sets, in the running batch, or deleted; in
      exactly one of them, and deleted at most once. */
  lemma EachTimerOnce(init: State, steps: seq<Step>, q: nat)
    requires Init(init) && Schedule(init, steps)
    ensures
      var s := Exec(init, steps);
      && (1 <= q <= s.created ==> Bit(InSets(s, q)) + Bit(InBatch(s, q)) + Bit(q in s.deleted) == 1)
      && (forall i, j :: 0 <= i < j < |s.deleted| ==> s.deleted[i] != s.deleted[j])
  {
    InitInv(init);
    ScheduleInv(init, steps);
    var s := Exec(init, steps);
    if 1 <= q <= s.created {
      OnceInState(s, q);
    }
  }

  lemma OnceInState(s: State, q: nat)
    requires Inv(s) && 1 <= q <= s.created
    ensures Bit(InSets(s, q)) + Bit(InBatch(s, q)) + Bit(q in s.deleted) == 1
  {
    if q in s.deleted {
      forall a | a in s.heap
        ensures s.heap[a].sequence != q
      {
        assert SequenceOk(s, a);
      }
      forall id | id in s.active
        ensures id.sequence != q
      {
        assert ActiveOk(s, id);
      }
    } else {
      assert Live(s, q);
      var a :| a in s.heap && s.heap[a].sequence == q;
      assert SequenceOk(s, a);
      assert Owned(s, s.batch, a);
      forall id | id in s.active && id.sequence == q
        ensures id == IdAt(s, a)
      {
        assert ActiveOk(s, id);
      }
      forall e | e in s.batch && e.addr in s.heap && s.heap[e.addr].sequence == q
        ensures IdAt(s, a) !in s.active
      {
        assert PendOk(s, e);
      }
    }
  }

  /** A callback never starts before its timer's expiration, and a batch runs no timer twice. */
  lemma StartsOnTime(init: State, steps: seq<Step>)
    requires Init(init) && Schedule(init, steps)
    ensures
      var s := Exec(init, steps);
      && (Enabled(s, StartNext) ==> s.heap[s.batch[s.next].addr].expiration <= s.now <= s.clock)
      && (forall i, j :: 0 <= i < j < |s.batch| ==>
            s.batch[i].addr != s.batch[j].addr && s.batch[i].time <= s.batch[j].time)
  {
    InitInv(init);
    ScheduleInv(init, steps);
    var s := Exec(init, steps);
    forall e | e in s.batch
      ensures PendOk(s, e)
    {}
    KeyedDistinct(s, s.batch);
    forall i, j | 0 <= i < j < |s.batch|
      ensures s.batch[i].time <= s.batch[j].time
    {
      assert Less(s.batch[i], s.batch[j]);
    }
    if Enabled(s, StartNext) {
      assert s.batch[s.next] in s.batch;
    }
  }

  // ----- cancellation -----

  // `q` is out of the sets, and out of the batch unless marked for deletion there.
  ghost predicate Doomed(s: State, q: nat)
  {
    && 1 <= q <= s.created
    && (forall id {:trigger id in s.active} :: id in s.active ==> id.sequence != q)
    && (forall e {:trigger e in s.batch} :: e in s.batch && e.addr in s.heap && s.heap[e.addr].sequence == q ==>
          IdAt(s, e.addr) in s.canceling)
  }

  // How many of the callbacks still to start in this batch belong to `q`?
  function StillToRun(s: State, es: seq<Entry>, q: nat): nat
    decreases |es|
  {
    if es == [] then 0
    else (if es[0].addr in s.heap && s.heap[es[0].addr].sequence == q then 1 else 0) + StillToRun(s, es[1..], q)
  }

  function Unstarted(s: State, q: nat): nat
  {
    if s.next <= |s.batch| then StillToRun(s, s.batch[s.next..], q) else 0
  }

  function Started(s: State, q: nat): nat
  {
    multiset(s.starts)[q]
  }

  lemma {:induction false} StillToRunFrame(s: State, s': State, es: seq<Entry>, q: nat)
    requires forall e :: e in es ==>
      (e.addr in s.heap <==> e.addr in s'.heap) && (e.addr in s.heap ==> s.heap[e.addr] == s'.heap[e.addr])
    ensures StillToRun(s', es, q) == StillToRun(s, es, q)
    decreases |es|
  {
    if es == [] {
    } else {
      assert es[0] in es;
      assert forall e :: e in es[1..] ==> e in es;
      StillToRunFrame(s, s', es[1..], q);
    }
  }

  lemma {:induction false} StillToRunNone(s: State, es: seq<Entry>, q: nat)
    requires forall e :: e in es ==> e.addr in s.heap ==> s.heap[e.addr].sequence != q
    ensures StillToRun(s, es, q) == 0
    decreases |es|
  {
    if es == [] {
    } else {
      assert es[0] in es;
      assert forall e :: e in es[1..] ==> e in es;
      StillToRunNone(s, es[1..], q);
    }
  }

  lemma {:induction false} StillToRunOnce(s: State, es: seq<Entry>, q: nat)
    requires Sequences(s)
    requires forall i, j :: 0 <= i < j < |es| ==> es[i].addr != es[j].addr
    ensures StillToRun(s, es, q) <= 1
    decreases |es|
  {
    if es == [] {
    } else {
      if es[0].addr in s.heap && s.heap[es[0].addr].sequence == q {
        assert SequenceOk(s, es[0].addr);
        forall e | e in es[1..] && e.addr in s.heap
          ensures s.heap[e.addr].sequence != q
        {
          var i :| 0 <= i < |es[1..]| && es[1..][i] == e;
          assert es[i + 1] == e;
        }
        StillToRunNone(s, es[1..], q);
      } else {
        StillToRunOnce(s, es[1..], q);
      }
    }
  }

  // `reset` puts back only ids of the batch that were not marked.
  lemma {:induction false} ResetAllActive(s: State, es: seq<Entry>)
    requires Indexes(s, es)
    ensures forall id :: id in ResetAll(s, es).active ==>
      id in s.active || (id !in s.canceling && exists e :: e in es && e.addr in s.heap && IdAt(s, e.addr) == id)
    decreases |es|
  {
    if es == [] {
    } else {
      PendHead(s, es);
      ResetOneIndexes(s, es);
      var s1 := ResetOne(s, es[0]);
      ResetAllActive(s1, es[1..]);
      forall id | id in ResetAll(s, es).active
        ensures id in s.active ||
          (id !in s.canceling && exists e :: e in es && e.addr in s.heap && IdAt(s, e.addr) == id)
      {
        if id !in s1.active {
          var e :| e in es[1..] && e.addr in s1.heap && IdAt(s1, e.addr) == id;
          assert e in es && IdAt(s, e.addr) == id;
        }
      }
    }
  }

  // The batch survives steps taken between two callbacks.
  lemma BatchKept(s: State, st: Step, e: Entry)
    requires Inv(s) && Enabled(s, st) && (st.Add? || st.Cancel? || st.Fire? || st.Tick? || st.StartNext?)
    requires e in s.batch
    ensures e.addr in s.heap && e.addr in Do(s, st).heap && Do(s, st).heap[e.addr] == s.heap[e.addr]
    ensures Do(s, st).batch == s.batch && s.canceling <= Do(s, st).canceling
  {
    assert PendOk(s, e);
    if st.Cancel? && st.id in s.active {
      assert ActiveOk(s, st.id);
    }
  }

  // Between two callbacks the sets gain only newer timers.
  lemma ActiveKept(s: State, st: Step, id: Id)
    requires Enabled(s, st) && (st.Add? || st.Cancel? || st.Fire? || st.Tick? || st.StartNext?)
    requires id in Do(s, st).active
    ensures id in s.active || id.sequence == s.created + 1
    ensures s.created <= Do(s, st).created
  {}

  lemma DoomedKept(s: State, st: Step, q: nat)
    requires Inv(s) && Enabled(s, st) && Doomed(s, q)
    requires st.Add? || st.Cancel? || st.Fire? || st.Tick? || st.StartNext?
    ensures Doomed(Do(s, st), q)
  {
    var s' := Do(s, st);
    assert q <= s'.created;
    forall id | id in s'.active
      ensures id.sequence != q
    {
      ActiveKept(s, st, id);
    }
    forall e | e in s'.batch && e.addr in s'.heap && s'.heap[e.addr].sequence == q
      ensures IdAt(s', e.addr) in s'.canceling
    {
      BatchKept(s, st, e);
    }
  }

  lemma StillKept(s: State, st: Step, q: nat)
    requires Inv(s) && Enabled(s, st)
    requires st.Add? || st.Cancel? || st.Fire? || st.Tick? || st.StartNext?
    requires s.next <= |s.batch|
    ensures StillToRun(Do(s, st), s.batch[s.next..], q) == StillToRun(s, s.batch[s.next..], q)
  {
    var rest := s.batch[s.next..];
    forall e | e in rest
      ensures e.addr in s.heap && e.addr in Do(s, st).heap && Do(s, st).heap[e.addr] == s.heap[e.addr]
    {
      assert e in s.batch;
      BatchKept(s, st, e);
    }
    StillToRunFrame(s, Do(s, st), rest, q);
  }

  // A started callback moves from the ones to come to the ones started.
  lemma CountsKept(s: State, st: Step, q: nat)
    requires Inv(s) && Enabled(s, st)
    requires st.Add? || st.Cancel? || st.Fire? || st.Tick? || st.StartNext?
    ensures Started(Do(s, st), q) + Unstarted(Do(s, st), q) == Started(s, q) + Unstarted(s, q)
  {
    StillKept(s, st, q);
    CountersFrame(s, st);
    if st.StartNext? {
      assert s.batch[s.next..][1..] == s.batch[s.next + 1..];
    }
  }

  lemma CountersFrame(s: State, st: Step)
    requires Enabled(s, st) && (st.Add? || st.Cancel? || st.Fire? || st.Tick? || st.StartNext?)
    ensures Do(s, st).batch == s.batch
    ensures if st.StartNext? then Do(s, st).next == s.next + 1 else Do(s, st).next == s.next && Do(s, st).starts == s.starts
  {}

  lemma DoomedBegin(s: State, clock: int, q: nat)
    requires Inv(s) && Enabled(s, BeginRead(clock)) && Doomed(s, q)
    ensures Doomed(Begin(s, clock), q)
    ensures Unstarted(Begin(s, clock), q) == 0
  {
    var s' := Begin(s, clock);
    BatchExact(s, clock);
    BeginIndexes(s, clock);
    forall e | e in s.timers
      ensures e.addr in s.heap && s.heap[e.addr].sequence != q
    {
      assert EntryOk(s, e);
    }
    forall e | e in s'.batch
      ensures e in s.timers
    {}
    forall id | id in s'.active
      ensures id in s.active
    {
      EraseIdsSubset(s.active, s'.batch, s.heap);
    }
    StillToRunNone(s', s'.batch, q);
    assert s'.batch[0..] == s'.batch;
  }

  lemma {:induction false} EraseIdsSubset(active: set<Id>, es: seq<Entry>, heap: map<Addr, Timer>)
    ensures EraseIds(active, es, heap) <= active
    decreases |es|
  {
    if es == [] {
    } else {
      if es[0].addr !in heap {
        EraseIdsSubset(active, es[1..], heap);
      } else {
        EraseIdsSubset(active - {Id(es[0].addr, heap[es[0].addr].sequence)}, es[1..], heap);
      }
    }
  }

  lemma DoomedEnd(s: State, clock: int, q: nat)
    requires Inv(s) && Enabled(s, EndRead(clock)) && Doomed(s, q)
    ensures Doomed(End(s, clock), q)
    ensures Unstarted(End(s, clock), q) == 0 && End(s, clock).starts == s.starts
  {
    ResetAllInv(s, s.batch);
    ResetAllActive(s, s.batch);
  }

  lemma {:induction false} DoomedForever(s: State, steps: seq<Step>, q: nat)
    requires Inv(s) && Doomed(s, q) && Schedule(s, steps)
    ensures Doomed(Exec(s, steps), q)
    ensures Started(Exec(s, steps), q) + Unstarted(Exec(s, steps), q) <= Started(s, q) + Unstarted(s, q)
    decreases |steps|
  {
    if steps == [] {
    } else {
      StepInv(s, steps[0]);
      match steps[0] {
        case BeginRead(clock) => DoomedBegin(s, clock, q);
        case EndRead(clock) => DoomedEnd(s, clock, q);
        case _ => DoomedKept(s, steps[0], q); CountsKept(s, steps[0], q);
      }
      DoomedForever(Do(s, steps[0]), steps[1..], q);
    }
  }

  /** Cancel is final: once a live timer is cancelled it is never in the sets again, and its
      callback starts at most once more, and only if the batch running at the cancel still had
      it to run. */
  lemma CancelFinal(init: State, before: seq<Step>, id: Id, clock: int, after: seq<Step>)
    requires Init(init) && Schedule(init, before)
    requires
      var s := Exec(init, before);
      && Enabled(s, Cancel(id, clock))
      && id.addr in s.heap && s.heap[id.addr].sequence == id.sequence
      && Schedule(Do(s, Cancel(id, clock)), after)
    ensures
      var s := Exec(init, before);
      var s' := Exec(Do(s, Cancel(id, clock)), after);
      && (forall i :: i in s'.active ==> i.sequence != id.sequence)
      && Started(s', id.sequence) <= Started(s, id.sequence) + Unstarted(s, id.sequence)
      && Unstarted(s, id.sequence) <= 1
      && (Unstarted(s, id.sequence) == 1 ==> InBatch(s, id.sequence))
  {
    InitInv(init);
    ScheduleInv(init, before);
    var s := Exec(init, before);
    var s1 := Do(s, Cancel(id, clock));
    StepInv(s, Cancel(id, clock));
    CancelDooms(s, id, clock);
    CountsKept(s, Cancel(id, clock), id.sequence);
    DoomedForever(s1, after, id.sequence);
    UnstartedBound(s, id.sequence);
  }

  // The step that cancels a live timer dooms it.
  lemma CancelDooms(s: State, id: Id, clock: int)
    requires Inv(s) && Enabled(s, Cancel(id, clock))
    requires id.addr in s.heap && s.heap[id.addr].sequence == id.sequence
    ensures Doomed(Do(s, Cancel(id, clock)), id.sequence)
  {
    var s1 := Do(s, Cancel(id, clock));
    assert SequenceOk(s, id.addr) && Owned(s, s.batch, id.addr);
    forall i | i in s1.active
      ensures i.sequence != id.sequence
    {
      assert ActiveOk(s, i);
    }
    forall e | e in s1.batch && e.addr in s1.heap && s1.heap[e.addr].sequence == id.sequence
      ensures IdAt(s1, e.addr) in s1.canceling
    {
      BatchKept(s, Cancel(id, clock), e);
      assert PendOk(s, e);
    }
  }

  lemma UnstartedBound(s: State, q: nat)
    requires Inv(s)
    ensures Unstarted(s, q) <= 1 && (Unstarted(s, q) == 1 ==> InBatch(s, q))
  {
    if s.next <= |s.batch| {
      var rest := s.batch[s.next..];
      forall e | e in s.batch
        ensures PendOk(s, e)
      {}
      KeyedDistinct(s, s.batch);
      StillToRunOnce(s, rest, q);
      if !InBatch(s, q) {
        forall e | e in rest && e.addr in s.heap
          ensures s.heap[e.addr].sequence != q
        {
          assert e in s.batch;
        }
        StillToRunNone(s, rest, q);
      }
    }
  }

  /** Cancel is exact: an id whose timer is gone changes no timer, index or deadline, and marks
      nothing that `reset` will look at, even if its address has been handed out again. */
  lemma StaleCancelHarmless(init: State, steps: seq<Step>, id: Id, clock: int)
    requires Init(init) && Schedule(init, steps)
    requires
      var s := Exec(init, steps);
      Enabled(s, Cancel(id, clock)) && !(id.addr in s.heap && s.heap[id.addr].sequence == id.sequence)
    ensures
      var s := Exec(init, steps);
      var s' := Do(s, Cancel(id, clock));
      && s' == s.(canceling := s'.canceling, clock := clock)
      && (forall a :: a in s.heap ==> (IdAt(s, a) in s'.canceling <==> IdAt(s, a) in s.canceling))
  {
    InitInv(init);
    ScheduleInv(init, steps);
    var s := Exec(init, steps);
    assert id in s.active ==> ActiveOk(s, id);
  }
}
