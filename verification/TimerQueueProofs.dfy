/** Invariants of the timer queue over every schedule. */
module TimerQueueProofs {
  import opened TimerMath
  import opened TimerSet
  import opened TimerQueueSpec

  // ----- the two indexes and the heap; `pend` are entries held by the batch -----

  ghost predicate EntryOk(s: State, e: Entry)
  {
    e.addr in s.heap && s.heap[e.addr].expiration == e.time && IdAt(s, e.addr) in s.active
  }

  ghost predicate ActiveOk(s: State, id: Id)
  {
    && id.addr in s.heap && s.heap[id.addr].sequence == id.sequence
    && Entry(s.heap[id.addr].expiration, id.addr) in s.timers
  }

  ghost predicate PendOk(s: State, e: Entry)
  {
    && e.addr in s.heap && s.heap[e.addr].expiration == e.time
    && IdAt(s, e.addr) !in s.active && e.time <= s.now
  }

  // Every timer on the heap is owned by the sets or by the batch.
  ghost predicate Owned(s: State, pend: seq<Entry>, a: Addr)
    requires a in s.heap
  {
    IdAt(s, a) in s.active || Entry(s.heap[a].expiration, a) in pend
  }

  // `a` is on the heap but nowhere in the indexes or the batch.
  ghost predicate Loose(s: State, pend: seq<Entry>, a: Addr)
  {
    && a in s.heap
    && (forall e :: e in s.timers ==> e.addr != a)
    && (forall id :: id in s.active ==> id.addr != a)
    && (forall e :: e in pend ==> e.addr != a)
  }

  // The indexes agree on every address outside `loose`.
  ghost predicate IndexesBut(s: State, pend: seq<Entry>, loose: set<Addr>)
  {
    && Sorted(s.timers) && Sorted(pend)
    && |s.timers| == |s.active|
    && (forall e {:trigger EntryOk(s, e)} :: e in s.timers ==> EntryOk(s, e))
    && (forall id {:trigger ActiveOk(s, id)} :: id in s.active ==> ActiveOk(s, id))
    && (forall e {:trigger PendOk(s, e)} :: e in pend ==> PendOk(s, e))
    && (forall a {:trigger Owned(s, pend, a)} :: a in s.heap && a !in loose ==> Owned(s, pend, a))
    && (forall a {:trigger Loose(s, pend, a)} :: a in loose ==> Loose(s, pend, a))
  }

  ghost predicate Indexes(s: State, pend: seq<Entry>)
  {
    IndexesBut(s, pend, {})
  }

  // ----- sequence numbers -----

  ghost predicate SequenceOk(s: State, a: Addr)
    requires a in s.heap
  {
    && a < ADDR_MAX
    && 1 <= s.heap[a].sequence <= s.created
    && s.heap[a].sequence !in s.deleted
    && (forall b :: b in s.heap && s.heap[b].sequence == s.heap[a].sequence ==> b == a)
  }

  ghost predicate Live(s: State, q: nat)
  {
    exists a :: a in s.heap && s.heap[a].sequence == q
  }

  ghost predicate Sequences(s: State)
  {
    && (forall a :: a in s.heap ==> SequenceOk(s, a))
    && (forall i, j :: 0 <= i < j < |s.deleted| ==> s.deleted[i] != s.deleted[j])
    && (forall q: nat :: 1 <= q <= s.created ==> q in s.deleted || Live(s, q))
    && (forall q :: q in s.deleted ==> 1 <= q <= s.created)
  }

  ghost predicate Phase(s: State)
  {
    && s.clock >= EPOCH
    && (!s.calling ==> s.batch == [] && s.next == 0)
    && (s.calling ==> EPOCH <= s.now <= s.clock && s.next <= |s.batch|)
  }

  // ----- the kernel timer -----

  function Max(a: int, b: int): int
  {
    if a >= b then a else b
  }

  // It will go off, or has gone off unread, no later than the earliest entry allows.
  ghost predicate Watched(s: State)
    requires s.timers != []
  {
    s.unread ||
    (s.arm.Armed? && s.arm.at <= s.clock && s.arm.deadline <= Max(s.timers[0].time, s.arm.at + MIN_DELAY * US))
  }

  ghost predicate ArmOk(s: State)
  {
    && (!s.calling && s.timers != [] ==> Watched(s))
    && (s.calling && s.timers != [] && s.timers[0].time <= s.now ==> Watched(s))
    && (s.arm.Armed? ==> s.arm.deadline > s.arm.at >= EPOCH)
    && (!s.calling && s.timers != [] && s.arm.Armed? ==> s.timers[0].time - US < s.arm.deadline)
  }

  ghost predicate Inv(s: State)
  {
    Indexes(s, s.batch) && Sequences(s) && Phase(s) && ArmOk(s)
  }

  lemma InitInv(s: State)
    requires Init(s)
    ensures Inv(s)
  {}

  // ----- adding -----

  lemma InsertIndexes(s: State, pend: seq<Entry>, a: Addr)
    requires IndexesBut(s, pend, {a})
    ensures a in s.heap && Indexes(InsertTimer(s, a), pend)
  {
    assert Loose(s, pend, a);
    var s' := InsertTimer(s, a);
    var e0, id0 := Entry(s.heap[a].expiration, a), IdAt(s, a);
    forall e | e in s'.timers
      ensures EntryOk(s', e)
    {
      if e != e0 { assert EntryOk(s, e); }
    }
    forall i | i in s'.active
      ensures ActiveOk(s', i)
    {
      if i != id0 { assert ActiveOk(s, i); }
    }
    forall e | e in pend
      ensures PendOk(s', e)
    {
      assert PendOk(s, e);
    }
    forall b | b in s'.heap
      ensures Owned(s', pend, b)
    {
      if b != a { assert Owned(s, pend, b); }
    }
  }

  // A fresh address is loose once its timer is on the heap.
  lemma AllocateIndexes(s: State, a: Addr, t: Timer, s': State)
    requires Indexes(s, s.batch) && a !in s.heap
    requires s' == s.(heap := s.heap[a := t], created := s'.created, births := s'.births)
    ensures IndexesBut(s', s.batch, {a})
  {
    forall e | e in s'.timers
      ensures EntryOk(s', e) && e.addr != a
    {
      assert EntryOk(s, e);
    }
    forall i | i in s'.active
      ensures ActiveOk(s', i) && i.addr != a
    {
      assert ActiveOk(s, i);
    }
    forall e | e in s.batch
      ensures PendOk(s', e) && e.addr != a
    {
      assert PendOk(s, e);
    }
    forall b | b in s'.heap && b !in {a}
      ensures Owned(s', s.batch, b)
    {
      assert Owned(s, s.batch, b);
    }
  }

  lemma AddIndexes(s: State, a: Addr, when: int, interval: int, clock: int)
    requires Indexes(s, s.batch) && a !in s.heap
    ensures Indexes(AddTimer(s, a, when, interval, clock), s.batch)
  {
    var t := Timer(when, interval, s.created + 1);
    var s1 := s.(heap := s.heap[a := t], created := s.created + 1, births := s.births + [when]);
    AllocateIndexes(s, a, t, s1);
    InsertIndexes(s1, s.batch, a);
    AddFrame(s, s1, a, when, interval, clock);
    SameIndexes(InsertTimer(s1, a), AddTimer(s, a, when, interval, clock), s.batch);
  }

  lemma AddFrame(s: State, s1: State, a: Addr, when: int, interval: int, clock: int)
    requires s1 == s.(heap := s.heap[a := Timer(when, interval, s.created + 1)], created := s.created + 1,
                      births := s.births + [when])
    ensures
      var s2, s' := InsertTimer(s1, a), AddTimer(s, a, when, interval, clock);
      s'.heap == s2.heap && s'.timers == s2.timers && s'.active == s2.active && s'.now == s2.now
  {}

  lemma AddSequences(s: State, a: Addr, when: int, interval: int, clock: int)
    requires Sequences(s) && a !in s.heap && a < ADDR_MAX
    ensures Sequences(AddTimer(s, a, when, interval, clock))
  {
    var s' := AddTimer(s, a, when, interval, clock);
    forall b | b in s'.heap
      ensures SequenceOk(s', b)
    {
      if b != a { assert SequenceOk(s, b); }
      forall c | c in s'.heap && s'.heap[c].sequence == s'.heap[b].sequence
        ensures c == b
      {
        if c != a { assert SequenceOk(s, c); }
      }
    }
    forall q: nat | 1 <= q <= s'.created
      ensures q in s'.deleted || Live(s', q)
    {
      if q == s'.created {
        assert s'.heap[a].sequence == q;
      } else if q !in s.deleted {
        assert Live(s, q);
        var b :| b in s.heap && s.heap[b].sequence == q;
        assert s'.heap[b].sequence == q;
      }
    }
  }

  lemma ResetWatches(s: State, when: int, clock: int)
    ensures
      var arm := ResetTimerfd(s, when, clock).arm;
      && arm.Armed? && arm.at == clock && clock < arm.deadline <= Max(when, clock + MIN_DELAY * US)
      && when - US < arm.deadline
  {
    DelayBounds(when, clock);
  }

  lemma AddArm(s: State, a: Addr, when: int, interval: int, clock: int)
    requires Phase(s) && ArmOk(s) && clock >= s.clock
    ensures ArmOk(AddTimer(s, a, when, interval, clock)) && Phase(AddTimer(s, a, when, interval, clock))
  {
    ResetWatches(s, when, clock);
  }

  // ----- cancelling -----

  lemma CancelIndexes(s: State, id: Id, clock: int)
    requires Indexes(s, s.batch) && id in s.active
    ensures Indexes(CancelTimer(s, id, clock), s.batch)
  {
    var s' := CancelTimer(s, id, clock);
    assert ActiveOk(s, id);
    var gone := Entry(s.heap[id.addr].expiration, id.addr);
    forall e | e in s'.timers
      ensures EntryOk(s', e)
    {
      assert EntryOk(s, e);
    }
    forall i | i in s'.active
      ensures ActiveOk(s', i)
    {
      assert ActiveOk(s, i);
    }
    forall e | e in s.batch
      ensures PendOk(s', e)
    {
      assert PendOk(s, e);
    }
    forall b | b in s'.heap
      ensures Owned(s', s.batch, b)
    {
      assert Owned(s, s.batch, b);
    }
  }

  // Deleting the timer at `a` keeps the sequence numbers straight.
  lemma DeleteSequences(s: State, s': State, a: Addr)
    requires Sequences(s) && a in s.heap
    requires s'.heap == s.heap - {a} && s'.created == s.created
    requires s'.deleted == s.deleted + [s.heap[a].sequence]
    ensures Sequences(s')
  {
    assert SequenceOk(s, a);
    forall b | b in s'.heap
      ensures SequenceOk(s', b)
    {
      assert SequenceOk(s, b);
    }
    forall q: nat | 1 <= q <= s'.created
      ensures q in s'.deleted || Live(s', q)
    {
      if q !in s.deleted {
        assert Live(s, q);
        var b :| b in s.heap && s.heap[b].sequence == q;
        if b != a {
          assert s'.heap[b].sequence == q;
        } else {
          assert s'.deleted[|s.deleted|] == q;
        }
      } else {
        var i :| 0 <= i < |s.deleted| && s.deleted[i] == q;
        assert s'.deleted[i] == q;
      }
    }
  }

  lemma CancelHead(s: State, id: Id, clock: int)
    requires Indexes(s, s.batch) && id in s.active
    ensures
      var s' := CancelTimer(s, id, clock);
      s'.timers != [] ==> Expiration(s', s'.timers[0].addr) == s'.timers[0].time
  {
    var s' := CancelTimer(s, id, clock);
    CancelIndexes(s, id, clock);
    if s'.timers != [] {
      assert EntryOk(s', s'.timers[0]);
    }
  }

  // Cancelling moves the deadline only together with the head.
  lemma CancelWatched(s: State, id: Id, clock: int)
    requires Phase(s) && ArmOk(s) && clock >= s.clock
    requires
      var s' := CancelTimer(s, id, clock);
      s'.timers != [] ==> Expiration(s', s'.timers[0].addr) == s'.timers[0].time
    ensures ArmOk(CancelTimer(s, id, clock)) && Phase(CancelTimer(s, id, clock))
  {
    var s' := CancelTimer(s, id, clock);
    if id in s.active && s.timers != [] && s.timers[0].addr == id.addr {
      if s'.timers != [] {
        ResetWatches(s', s'.timers[0].time, clock);
      }
    } else {
      assert s'.timers == [] <==> s.timers == [];
      assert s.timers != [] ==> s'.timers[0] == s.timers[0];
      SameArm(s, s');
    }
  }

  lemma SameArm(s: State, s': State)
    requires Phase(s) && ArmOk(s) && s'.arm == s.arm && s'.unread == s.unread && s'.calling == s.calling && s'.now == s.now
    requires s'.clock >= s.clock && s'.batch == s.batch && s'.next == s.next
    requires s'.timers == [] <==> s.timers == []
    requires s.timers != [] ==> s'.timers[0] == s.timers[0]
    ensures ArmOk(s') && Phase(s')
  {}

  lemma CancelArm(s: State, id: Id, clock: int)
    requires Indexes(s, s.batch) && Phase(s) && ArmOk(s) && clock >= s.clock
    ensures ArmOk(CancelTimer(s, id, clock)) && Phase(CancelTimer(s, id, clock))
  {
    if id in s.active {
      CancelHead(s, id, clock);
    } else if s.timers != [] {
      assert EntryOk(s, s.timers[0]);
    }
    CancelWatched(s, id, clock);
  }

  lemma CancelActive(s: State, id: Id, clock: int)
    requires Inv(s) && clock >= s.clock && id in s.active
    ensures
      var s' := CancelTimer(s, id, clock);
      Indexes(s', s'.batch) && Sequences(s')
  {
    assert ActiveOk(s, id);
    CancelIndexes(s, id, clock);
    DeleteSequences(s, CancelTimer(s, id, clock), id.addr);
  }

  lemma CancelPassive(s: State, id: Id, clock: int)
    requires Inv(s) && clock >= s.clock && id !in s.active
    ensures
      var s' := CancelTimer(s, id, clock);
      Indexes(s', s'.batch) && Sequences(s')
  {
    var s' := CancelTimer(s, id, clock);
    SameIndexes(s, s', s.batch);
    SameSequences(s, s');
  }

  lemma CancelInv(s: State, id: Id, clock: int)
    requires Inv(s) && clock >= s.clock
    ensures Inv(CancelTimer(s, id, clock))
  {
    CancelArm(s, id, clock);
    if id in s.active {
      CancelActive(s, id, clock);
    } else {
      CancelPassive(s, id, clock);
    }
  }

  // ----- steps that move no timer -----

  lemma SameIndexes(s: State, s': State, pend: seq<Entry>)
    requires Indexes(s, pend)
    requires s'.heap == s.heap && s'.timers == s.timers && s'.active == s.active && s'.now == s.now
    ensures Indexes(s', pend)
  {
    forall e | e in s'.timers
      ensures EntryOk(s', e)
    {
      assert EntryOk(s, e);
    }
    forall i | i in s'.active
      ensures ActiveOk(s', i)
    {
      assert ActiveOk(s, i);
    }
    forall e | e in pend
      ensures PendOk(s', e)
    {
      assert PendOk(s, e);
    }
    forall b | b in s'.heap
      ensures Owned(s', pend, b)
    {
      assert Owned(s, pend, b);
    }
  }

  lemma SameSequences(s: State, s': State)
    requires Sequences(s)
    requires s'.created == s.created && s'.deleted == s.deleted
    requires s'.heap.Keys == s.heap.Keys && forall a :: a in s.heap ==> s'.heap[a].sequence == s.heap[a].sequence
    ensures Sequences(s')
  {
    forall b | b in s'.heap
      ensures SequenceOk(s', b)
    {
      assert SequenceOk(s, b);
    }
    forall q: nat | 1 <= q <= s'.created
      ensures q in s'.deleted || Live(s', q)
    {
      if q !in s.deleted {
        assert Live(s, q);
        var b :| b in s.heap && s.heap[b].sequence == q;
        assert s'.heap[b].sequence == q;
      }
    }
  }

  // ----- taking the expired entries -----

  // Entries of the first index all carry an active id of their own.
  lemma {:induction false} EraseIdsExact(s: State, active: set<Id>, es: seq<Entry>)
    requires forall e :: e in es ==> e.addr in s.heap && IdAt(s, e.addr) in active
    requires forall i, j :: 0 <= i < j < |es| ==> es[i].addr != es[j].addr
    ensures |EraseIds(active, es, s.heap)| == |active| - |es|
    ensures forall id :: id in EraseIds(active, es, s.heap) <==>
      id in active && forall e :: e in es && e.addr in s.heap ==> id != IdAt(s, e.addr)
    decreases |es|
  {
    if es == [] {
    } else {
      assert es[0] in es;
      var rest := active - {IdAt(s, es[0].addr)};
      forall e | e in es[1..]
        ensures e.addr in s.heap && IdAt(s, e.addr) in rest
      {
        assert e in es;
        var i :| 0 <= i < |es[1..]| && es[1..][i] == e;
        assert es[i + 1] == e;
      }
      EraseIdsExact(s, rest, es[1..]);
      assert forall e :: e in es <==> e == es[0] || e in es[1..];
    }
  }

  // Entries keyed by their timer's own expiration differ in address.
  lemma KeyedDistinct(s: State, es: seq<Entry>)
    requires Sorted(es)
    requires forall e :: e in es ==> e.addr in s.heap && s.heap[e.addr].expiration == e.time
    ensures forall i, j :: 0 <= i < j < |es| ==> es[i].addr != es[j].addr
  {
    forall i, j | 0 <= i < j < |es|
      ensures es[i].addr != es[j].addr
    {
      assert es[i] in es && es[j] in es;
      assert Less(es[i], es[j]);
    }
  }

  lemma SplitSorted(ts: seq<Entry>, k: nat)
    requires Sorted(ts) && k <= |ts|
    ensures Sorted(ts[..k]) && Sorted(ts[k..])
    ensures forall e :: e in ts <==> e in ts[..k] || e in ts[k..]
    ensures forall e :: e in ts[..k] ==> e !in ts[k..]
  {
    assert ts == ts[..k] + ts[k..];
    forall e | e in ts[..k]
      ensures e !in ts[k..]
    {
      var i :| 0 <= i < k && ts[i] == e;
      forall j | k <= j < |ts|
        ensures ts[j] != e
      {
        assert Less(ts[i], ts[j]);
      }
    }
  }

  /** A batch is exactly the entries due by `now`, in order; what stays is later than `now`. */
  lemma BatchExact(s: State, now: int)
    requires Indexes(s, s.batch) && Sequences(s)
    ensures
      var s' := Begin(s, now);
      && s.timers == s'.batch + s'.timers && Sorted(s'.batch) && Sorted(s'.timers)
      && (forall e :: e in s'.batch ==> e.time <= now)
      && (forall e :: e in s'.timers ==> e.time > now)
  {
    var sentry := Entry(now, ADDR_MAX);
    var k := LowerBound(s.timers, sentry);
    SplitSorted(s.timers, k);
    forall e | e in s.timers
      ensures Less(e, sentry) <==> e.time <= now
    {
      assert EntryOk(s, e);
      assert SequenceOk(s, e.addr);
    }
  }

  lemma BeginIndexes(s: State, now: int)
    requires Indexes(s, s.batch) && Sequences(s) && s.batch == []
    ensures Indexes(Begin(s, now), Begin(s, now).batch)
  {
    var s' := Begin(s, now);
    BatchExact(s, now);
    SplitSorted(s.timers, |s'.batch|);
    forall e | e in s.timers
      ensures EntryOk(s, e)
    {}
    KeyedDistinct(s, s.timers);
    KeyedDistinct(s, s'.batch);
    EraseIdsExact(s, s.active, s'.batch);
    forall e | e in s'.timers
      ensures EntryOk(s', e)
    {
      assert EntryOk(s, e);
      forall b | b in s'.batch
        ensures IdAt(s, e.addr) != IdAt(s, b.addr)
      {
        assert EntryOk(s, b);
      }
    }
    forall i | i in s'.active
      ensures ActiveOk(s', i)
    {
      assert ActiveOk(s, i);
    }
    forall e | e in s'.batch
      ensures PendOk(s', e)
    {
      assert EntryOk(s, e);
    }
    forall a | a in s'.heap
      ensures Owned(s', s'.batch, a)
    {
      assert Owned(s, [], a);
      assert ActiveOk(s, IdAt(s, a));
      if IdAt(s, a) !in s'.active {
        var b :| b in s'.batch && b.addr in s.heap && IdAt(s, a) == IdAt(s, b.addr);
        assert EntryOk(s, b);
      }
    }
  }

  // ----- restarting the batch -----

  lemma PendHead(s: State, es: seq<Entry>)
    requires Indexes(s, es) && es != []
    ensures PendOk(s, es[0]) && Sorted(es[1..])
    ensures forall e :: e in es <==> e == es[0] || e in es[1..]
    ensures forall e :: e in es[1..] ==> e.addr != es[0].addr
    ensures forall e :: e in s.timers ==> e.addr != es[0].addr
    ensures forall id :: id in s.active ==> id.addr != es[0].addr
  {
    assert es[0] in es;
    assert PendOk(s, es[0]);
    forall e | e in es
      ensures PendOk(s, e)
    {}
    KeyedDistinct(s, es);
    forall e | e in s.timers
      ensures e.addr != es[0].addr
    {
      assert EntryOk(s, e);
    }
    forall id | id in s.active
      ensures id.addr != es[0].addr
    {
      assert ActiveOk(s, id);
    }
  }

  // Whatever `reset` does to the head of the batch, the other addresses are untouched.
  lemma ReleaseIndexes(s: State, es: seq<Entry>, s': State)
    requires Indexes(s, es) && es != []
    requires s'.timers == s.timers && s'.active == s.active && s'.now == s.now
    requires forall b :: b != es[0].addr ==> (b in s'.heap <==> b in s.heap) && (b in s.heap ==> s'.heap[b] == s.heap[b])
    ensures IndexesBut(s', es[1..], if es[0].addr in s'.heap then {es[0].addr} else {})
  {
    PendHead(s, es);
    forall e | e in s'.timers
      ensures EntryOk(s', e)
    {
      assert EntryOk(s, e);
    }
    forall i | i in s'.active
      ensures ActiveOk(s', i)
    {
      assert ActiveOk(s, i);
    }
    forall e | e in es[1..]
      ensures PendOk(s', e)
    {
      assert PendOk(s, e);
    }
    forall b | b in s'.heap && b != es[0].addr
      ensures Owned(s', es[1..], b)
    {
      assert Owned(s, es, b);
    }
  }

  lemma ResetOneIndexes(s: State, es: seq<Entry>)
    requires Indexes(s, es) && es != []
    ensures Indexes(ResetOne(s, es[0]), es[1..])
  {
    PendHead(s, es);
    var a := es[0].addr;
    var t := s.heap[a];
    if t.interval > 0 && IdAt(s, a) !in s.canceling {
      var s1 := s.(heap := s.heap[a := t.(expiration := NextExpiration(t.expiration, t.interval, s.now))]);
      ReleaseIndexes(s, es, s1);
      InsertIndexes(s1, es[1..], a);
    } else {
      ReleaseIndexes(s, es, ResetOne(s, es[0]));
    }
  }

  lemma ResetOneSequences(s: State, e: Entry)
    requires Sequences(s) && e.addr in s.heap
    ensures Sequences(ResetOne(s, e))
  {
    var t := s.heap[e.addr];
    if t.interval > 0 && IdAt(s, e.addr) !in s.canceling {
      SameSequences(s, ResetOne(s, e));
    } else {
      DeleteSequences(s, ResetOne(s, e), e.addr);
    }
  }

  // A restarted entry lies in the future.
  lemma ResetOneLater(s: State, e: Entry)
    requires PendOk(s, e)
    ensures forall x :: x in s.timers ==> x in ResetOne(s, e).timers
    ensures forall x :: x in ResetOne(s, e).timers ==> x in s.timers || x.time > s.now
  {
    var t := s.heap[e.addr];
    if t.interval > 0 {
      var k := DriftFree(t.expiration, t.interval, s.now);
    }
  }

  lemma {:induction false} ResetAllInv(s: State, es: seq<Entry>)
    requires Indexes(s, es) && Sequences(s)
    ensures
      var s' := ResetAll(s, es);
      && Indexes(s', []) && Sequences(s')
      && s' == s.(heap := s'.heap, timers := s'.timers, active := s'.active, deleted := s'.deleted)
      && (forall x :: x in s.timers ==> x in s'.timers)
      && (forall x :: x in s'.timers ==> x in s.timers || x.time > s.now)
    decreases |es|
  {
    if es == [] {
    } else {
      PendHead(s, es);
      ResetOneIndexes(s, es);
      ResetOneSequences(s, es[0]);
      ResetOneLater(s, es[0]);
      ResetAllInv(ResetOne(s, es[0]), es[1..]);
    }
  }

  // A head at or before `now` was already the head, and being watched, before `reset`.
  lemma EndHead(s: State, timers: seq<Entry>)
    requires Sorted(s.timers) && Sorted(timers) && timers != [] && timers[0].time <= s.now
    requires forall x :: x in s.timers ==> x in timers
    requires forall x :: x in timers ==> x in s.timers || x.time > s.now
    ensures s.timers != [] && s.timers[0].time == timers[0].time
  {
    assert timers[0] in timers;
    HeadLeast(s.timers, timers[0]);
    assert s.timers[0] in s.timers;
    HeadLeast(timers, s.timers[0]);
  }

  lemma EndArm(s: State, s1: State, clock: int)
    requires Phase(s) && ArmOk(s) && Sorted(s.timers) && Sorted(s1.timers) && Enabled(s, EndRead(clock))
    requires s1 == ResetAll(s, s.batch)
    requires s1 == s.(heap := s1.heap, timers := s1.timers, active := s1.active, deleted := s1.deleted)
    requires s1.timers != [] ==> Expiration(s1, s1.timers[0].addr) == s1.timers[0].time
    requires forall x :: x in s.timers ==> x in s1.timers
    requires forall x :: x in s1.timers ==> x in s.timers || x.time > s.now
    ensures ArmOk(End(s, clock)) && Phase(End(s, clock))
  {
    if s1.timers != [] {
      ResetWatches(s1, s1.timers[0].time, clock);
      if s1.timers[0].time == EPOCH {
        EndHead(s, s1.timers);
      }
    }
  }

  lemma EndInv(s: State, clock: int)
    requires Inv(s) && Enabled(s, EndRead(clock))
    ensures Inv(End(s, clock))
  {
    var s1 := ResetAll(s, s.batch);
    ResetAllInv(s, s.batch);
    if s1.timers != [] {
      assert EntryOk(s1, s1.timers[0]);
    }
    EndArm(s, s1, clock);
    SameIndexes(s1, End(s, clock), []);
    SameSequences(s1, End(s, clock));
  }

  lemma BeginInv(s: State, now: int)
    requires Inv(s) && Enabled(s, BeginRead(now))
    ensures Inv(Begin(s, now))
  {
    var s' := Begin(s, now);
    BatchExact(s, now);
    BeginIndexes(s, now);
    SameSequences(s, s');
    if s'.timers != [] {
      assert s'.timers[0] in s'.timers;
    }
  }

  lemma StepInv(s: State, st: Step)
    requires Inv(s) && Enabled(s, st)
    ensures Inv(Do(s, st))
  {
    match st
    case Add(addr, when, interval, clock) =>
      AddIndexes(s, addr, when, interval, clock);
      AddSequences(s, addr, when, interval, clock);
      AddArm(s, addr, when, interval, clock);
    case Cancel(id, clock) => CancelInv(s, id, clock);
    case BeginRead(clock) => BeginInv(s, clock);
    case EndRead(clock) => EndInv(s, clock);
    case _ =>
      SameIndexes(s, Do(s, st), s.batch);
      SameSequences(s, Do(s, st));
  }

  lemma {:induction false} ScheduleInv(s: State, steps: seq<Step>)
    requires Inv(s) && Schedule(s, steps)
    ensures Inv(Exec(s, steps))
    decreases |steps|
  {
    if steps == [] {
    } else {
      StepInv(s, steps[0]);
      ScheduleInv(Do(s, steps[0]), steps[1..]);
    }
  }
}
