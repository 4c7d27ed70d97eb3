/** The timer queue object. Each method is proved against the transition system, and every
assertion the source makes about its two indexes is proved where the source makes it. */
module TimerQueueClass {
  import opened TimerMath
  import opened TimerSet
  import opened TimerQueueSpec
  import opened TimerQueueProofs

  /** `Timer::restart`. */
  method Restart(t: Timer, now: int) returns (t': Timer)
    ensures t'.interval == t.interval && t'.sequence == t.sequence
    ensures t.interval > 0 ==> t'.expiration == NextExpiration(t.expiration, t.interval, now)
    ensures t.interval > 0 && t.expiration <= now ==>
      now < t'.expiration <= now + t.interval * US && (t'.expiration - t.expiration) % (t.interval * US) == 0
    ensures t.interval <= 0 ==> t'.expiration == EPOCH
  {
    var expiration := t.expiration;
    if t.interval > 0 {
      expiration := expiration + t.interval * US;
      if expiration <= now {
        var overdue := Truncate(now - expiration, US);
        var skipped := overdue / t.interval + 1;
        expiration := expiration + t.interval * US * skipped;
      }
      if t.expiration <= now {
        ghost var k := DriftFree(t.expiration, t.interval, now);
        MultipleMod(t.interval * US, k);
      }
    } else {
      expiration := EPOCH;
    }
    t' := t.(expiration := expiration);
  }

  lemma MultipleMod(n: int, k: int)
    requires n > 0
    ensures (n * k) % n == 0
  {
    var q, r := (n * k) / n, (n * k) % n;
    assert n * (k - q) == r;
    Monotone(n, k - q, 1);
    Monotone(n, -1, k - q);
  }

  class TimerQueue {
    var heap: map<Addr, Timer>
    var timers: seq<Entry>
    var activeTimers: set<Id>
    var cancelingTimers: set<Id>
    var callingExpiredTimers: bool
    var numCreated: nat
    var arm: Arm
    var unread: bool
    var clock: int
    var expired: seq<Entry>
    var started: nat
    var now: int
    ghost var starts: seq<nat>
    ghost var deleted: seq<nat>
    ghost var births: seq<int>

    ghost function View(): State
      reads this
    {
      State(heap, timers, activeTimers, cancelingTimers, callingExpiredTimers, numCreated,
            arm, unread, clock, expired, started, now, starts, deleted, births)
    }

    constructor (startTime: int)
      requires startTime >= EPOCH
      ensures Init(View()) && Indexes(View(), expired)
    {
      heap, timers, activeTimers, cancelingTimers := map[], [], {}, {};
      callingExpiredTimers, numCreated, arm, unread := false, 0, Disarmed, false;
      clock, expired, started, now := startTime, [], 0, startTime;
      starts, deleted, births := [], [], [];
    }

    method SetTimerfd(when: int, at: int)
      modifies this`arm, this`unread, this`clock
      ensures View() == ResetTimerfd(old(View()), when, at)
    {
      var us := Truncate(when - at, US);
      if us < MIN_DELAY {
        us := MIN_DELAY;
      }
      arm := Armed(at + Nanoseconds(ToTimeSpec(us)), at);
      unread := false;
      clock := at;
    }

    method ClearTimerfd(at: int)
      modifies this`arm, this`unread, this`clock
      ensures View() == DisarmTimerfd(old(View()), at)
    {
      arm := Disarmed;
      unread := false;
      clock := at;
    }

    /** `insert`: the timer must be on the heap and in neither index. */
    method InsertTimerAt(a: Addr, ghost pend: seq<Entry>) returns (earliestChanged: bool)
      requires IndexesBut(View(), pend, {a}) && a in heap
      modifies this`timers, this`activeTimers
      ensures View() == InsertTimer(old(View()), a) && Indexes(View(), pend)
      ensures earliestChanged == EarliestChanged(old(View()), heap[a].expiration)
    {
      assert Loose(View(), pend, a);
      assert |timers| == |activeTimers|;
      var when := heap[a].expiration;
      earliestChanged := timers == [] || when < timers[0].time;
      assert Entry(when, a) !in timers;
      InsertIndexes(View(), pend, a);
      timers := Insert(timers, Entry(when, a));
      assert Id(a, heap[a].sequence) !in activeTimers;
      activeTimers := activeTimers + {Id(a, heap[a].sequence)};
      assert |timers| == |activeTimers|;
    }

    // `new Timer` at an address that is not in use; sequence numbers count up from one.
    method NewTimer(a: Addr, when: int, interval: int)
      requires Indexes(View(), expired) && a !in heap
      modifies this`heap, this`numCreated, this`births
      ensures View() == old(View()).(heap := old(heap)[a := Timer(when, interval, old(numCreated) + 1)],
                                     created := old(numCreated) + 1, births := old(births) + [when])
      ensures IndexesBut(View(), expired, {a})
    {
      ghost var s := View();
      numCreated := numCreated + 1;
      heap := heap[a := Timer(when, interval, numCreated)];
      births := births + [when];
      AllocateIndexes(s, a, heap[a], View());
    }

    method AddTimerInLoop(a: Addr, when: int, interval: int, at: int)
      requires Indexes(View(), expired) && Enabled(View(), Add(a, when, interval, at))
      modifies this
      ensures View() == AddTimer(old(View()), a, when, interval, at)
    {
      NewTimer(a, when, interval);
      var earliestChanged := InsertTimerAt(a, expired);
      if earliestChanged {
        SetTimerfd(when, at);
      } else {
        clock := at;
      }
    }

    // The erasure in `cancelInLoop`: both indexes and the heap lose an active timer.
    method EraseActive(id: Id)
      requires Indexes(View(), expired) && id in activeTimers
      modifies this`timers, this`heap, this`deleted, this`activeTimers
      ensures old(id.addr in heap) && (timers != [] ==> timers[0].addr in heap)
      ensures View() == old(View()).(timers := Erase(old(timers), Entry(old(heap)[id.addr].expiration, id.addr)),
                                     heap := old(heap) - {id.addr}, active := old(activeTimers) - {id},
                                     deleted := old(deleted) + [id.sequence])
    {
      ghost var s := View();
      assert ActiveOk(s, id);
      var entry := Entry(heap[id.addr].expiration, id.addr);
      assert entry in timers;
      timers := Erase(timers, entry);
      heap := heap - {id.addr};
      deleted := deleted + [id.sequence];
      activeTimers := activeTimers - {id};
      if timers != [] {
        assert timers[0] in s.timers && EntryOk(s, timers[0]);
      }
    }

    // Watch the earliest entry, or nothing.
    method WatchFirst(at: int)
      requires timers != [] ==> timers[0].addr in heap
      modifies this`arm, this`unread, this`clock
      ensures View() == if timers != [] then ResetTimerfd(old(View()), Expiration(old(View()), timers[0].addr), at)
                        else DisarmTimerfd(old(View()), at)
    {
      if timers != [] {
        SetTimerfd(heap[timers[0].addr].expiration, at);
      } else {
        ClearTimerfd(at);
      }
    }

    method CancelInLoop(id: Id, at: int)
      requires Indexes(View(), expired) && Enabled(View(), Cancel(id, at))
      modifies this
      ensures View() == CancelTimer(old(View()), id, at)
    {
      assert |timers| == |activeTimers|;
      if id in activeTimers {
        var earliestChanged := timers != [] && timers[0].addr == id.addr;
        EraseActive(id);
        if earliestChanged {
          WatchFirst(at);
        } else {
          clock := at;
        }
      } else {
        if callingExpiredTimers {
          cancelingTimers := cancelingTimers + {id};
        }
        clock := at;
      }
    }

    /** `getExpired`: both indexes give up the entries due by `t`. */
    method GetExpired(t: int)
      requires Indexes(View(), expired)
      modifies this`timers, this`activeTimers, this`expired
      ensures expired == Begin(old(View()), t).batch
      ensures timers == Begin(old(View()), t).timers
      ensures activeTimers == Begin(old(View()), t).active
    {
      ghost var s := View();
      forall e | e in timers
        ensures e.addr in heap && heap[e.addr].expiration == e.time && Id(e.addr, heap[e.addr].sequence) in activeTimers
      {
        assert EntryOk(s, e);
      }
      KeyedDistinct(s, timers);
      var end := LowerBound(timers, Entry(t, ADDR_MAX));
      expired := timers[..end];
      timers := timers[end..];
      var i := 0;
      while i < |expired|
        invariant 0 <= i <= |expired|
        invariant expired == s.timers[..end] && timers == s.timers[end..]
        invariant forall j :: i <= j < |expired| ==>
          expired[j].addr in heap && Id(expired[j].addr, heap[expired[j].addr].sequence) in activeTimers
        invariant EraseIds(activeTimers, expired[i..], heap) == EraseIds(s.active, expired, heap)
      {
        var timer := Id(expired[i].addr, heap[expired[i].addr].sequence);
        assert timer in activeTimers;
        assert expired[i..][1..] == expired[i + 1..];
        activeTimers := activeTimers - {timer};
        i := i + 1;
      }
    }

    /** `handleRead` up to its first callback. */
    method HandleReadBegin(t: int)
      requires Indexes(View(), expired) && Enabled(View(), BeginRead(t))
      modifies this
      ensures View() == Begin(old(View()), t)
    {
      GetExpired(t);
      now := t;
      clock := t;
      unread := false;
      started := 0;
      callingExpiredTimers := true;
      cancelingTimers := {};
    }

    /** The callback loop reaches its next entry; user code runs after this returns. */
    method StartCallback()
      requires Indexes(View(), expired) && callingExpiredTimers && started < |expired|
      modifies this`started, this`starts
      ensures old(Enabled(View(), StartNext)) && View() == Do(old(View()), StartNext)
    {
      assert expired[started] in expired;
      assert PendOk(View(), expired[started]);
      starts := starts + [heap[expired[started].addr].sequence];
      started := started + 1;
    }

    // The body of the loop in `reset`: restart and re-insert, or delete.
    method ResetEntry(e: Entry, ghost es: seq<Entry>)
      requires Indexes(View(), es) && es != [] && es[0] == e
      modifies this`heap, this`timers, this`activeTimers, this`deleted
      ensures View() == ResetOne(old(View()), e) && Indexes(View(), es[1..])
    {
      PendHead(View(), es);
      ResetOneIndexes(View(), es);
      ghost var s := View();
      var timer := heap[e.addr];
      if timer.interval > 0 && Id(e.addr, timer.sequence) !in cancelingTimers {
        timer := Restart(timer, now);
        heap := heap[e.addr := timer];
        ReleaseIndexes(s, es, View());
        var changed := InsertTimerAt(e.addr, es[1..]);
      } else {
        heap := heap - {e.addr};
        deleted := deleted + [timer.sequence];
      }
    }

    // The loop in `reset`.
    method ResetEntries()
      requires Indexes(View(), expired)
      modifies this`heap, this`timers, this`activeTimers, this`deleted
      ensures View() == ResetAll(old(View()), expired) && Indexes(View(), [])
    {
      ghost var s := View();
      assert expired[0..] == expired;
      var i := 0;
      while i < |expired|
        invariant 0 <= i <= |expired|
        invariant Indexes(View(), expired[i..])
        invariant ResetAll(View(), expired[i..]) == ResetAll(s, s.batch)
      {
        assert expired[i..][1..] == expired[i + 1..];
        ResetEntry(expired[i], expired[i..]);
        i := i + 1;
      }
    }

    // The loop in `reset`, after which the batch is gone.
    method FinishBatch()
      requires Indexes(View(), expired)
      modifies this`heap, this`timers, this`activeTimers, this`deleted,
               this`callingExpiredTimers, this`expired, this`started
      ensures View() == ResetAll(old(View()), old(expired)).(calling := false, batch := [], next := 0)
      ensures timers != [] ==> timers[0].addr in heap
    {
      ResetEntries();
      assert timers != [] ==> EntryOk(View(), timers[0]);
      callingExpiredTimers := false;
      expired := [];
      started := 0;
    }

    /** `handleRead` after its last callback: `reset`. */
    method HandleReadEnd(at: int)
      requires Indexes(View(), expired) && Enabled(View(), EndRead(at))
      modifies this
      ensures View() == End(old(View()), at)
    {
      FinishBatch();
      var nextExpire := EPOCH;
      if timers != [] {
        nextExpire := heap[timers[0].addr].expiration;
      }
      if nextExpire != EPOCH {
        SetTimerfd(nextExpire, at);
      } else {
        clock := at;
      }
    }
  }
}
