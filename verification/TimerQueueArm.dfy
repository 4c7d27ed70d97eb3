/** When the kernel timer is set, cleared and found expired. */
module TimerQueueArm {
  import opened TimerMath
  import opened TimerSet
  import opened TimerQueueSpec
  import opened TimerQueueProofs

  // The kernel timer was just set for the earliest entry.
  ghost predicate SetForHead(s: State)
  {
    && s.arm.Armed? && s.arm.at == s.clock && s.timers != []
    && s.timers[0].time - US < s.arm.deadline <= Max(s.timers[0].time, s.clock + MIN_DELAY * US)
  }

  // How a step may change the kernel timer.
  ghost predicate ArmMoved(s: State, st: Step, s': State)
  {
    && (s'.arm.Armed? && s'.arm != s.arm ==> SetForHead(s'))
    && (s.arm.Armed? && s'.arm.Disarmed? ==> st.Fire? || (st.Cancel? && s'.timers == []))
    && (st.Cancel? && s.timers != [] && s'.timers == [] ==> s'.arm.Disarmed? && !s'.unread)
    && (st.EndRead? && (s'.timers == [] || s'.timers[0].time == EPOCH) ==> s'.arm == s.arm)
  }

  lemma AddMoves(s: State, a: Addr, when: int, interval: int, clock: int)
    requires Enabled(s, Add(a, when, interval, clock))
    ensures ArmMoved(s, Add(a, when, interval, clock), AddTimer(s, a, when, interval, clock))
  {
    ResetWatches(s, when, clock);
  }

  lemma CancelMoves(s: State, id: Id, clock: int)
    requires Inv(s) && Enabled(s, Cancel(id, clock))
    ensures ArmMoved(s, Cancel(id, clock), CancelTimer(s, id, clock))
  {
    var s' := CancelTimer(s, id, clock);
    if id in s.active {
      assert ActiveOk(s, id);
      CancelHead(s, id, clock);
      if s'.timers != [] {
        ResetWatches(s', s'.timers[0].time, clock);
      } else {
        CancelledLast(s, id);
      }
    }
  }

  // What a cancel leaves empty had only its own entry.
  lemma CancelledLast(s: State, id: Id)
    requires Indexes(s, s.batch) && id in s.active
    requires Erase(s.timers, Entry(Expiration(s, id.addr), id.addr)) == []
    ensures s.timers != [] && s.timers[0].addr == id.addr
  {
    assert ActiveOk(s, id);
  }

  lemma EndMoves(s: State, clock: int)
    requires Inv(s) && Enabled(s, EndRead(clock))
    ensures ArmMoved(s, EndRead(clock), End(s, clock))
  {
    var s1 := ResetAll(s, s.batch);
    ResetAllInv(s, s.batch);
    if s1.timers != [] {
      assert EntryOk(s1, s1.timers[0]);
      ResetWatches(s1, s1.timers[0].time, clock);
    }
  }

  lemma StepMoves(s: State, st: Step)
    requires Inv(s) && Enabled(s, st)
    ensures ArmMoved(s, st, Do(s, st))
  {
    match st
    case Add(a, when, interval, clock) => AddMoves(s, a, when, interval, clock);
    case Cancel(id, clock) => CancelMoves(s, id, clock);
    case EndRead(clock) => EndMoves(s, clock);
    case _ =>
  }

  /** At every step of every schedule: the kernel timer is set only for the entry that is then the
      earliest; it is cleared only by expiring or by the cancel that empties the queue, and that cancel
      does clear it; a batch that leaves nothing to wait for leaves it alone. */
  lemma ArmMovesExactly(init: State, steps: seq<Step>, st: Step)
    requires Init(init) && Schedule(init, steps) && Enabled(Exec(init, steps), st)
    ensures ArmMoved(Exec(init, steps), st, Do(Exec(init, steps), st))
  {
    InitInv(init);
    ScheduleInv(init, steps);
    StepMoves(Exec(init, steps), st);
  }

  // ----- expiries -----

  // It has expired since it was last read.
  function FiredSinceRead(steps: seq<Step>, fired: bool): bool
    decreases |steps|
  {
    if steps == [] then fired
    else FiredSinceRead(steps[1..], if steps[0].Fire? then true else if steps[0].BeginRead? then false else fired)
  }

  lemma StepUnread(s: State, st: Step)
    requires Enabled(s, st) && (s.arm.Armed? ==> !s.unread)
    ensures
      var s' := Do(s, st);
      && (s'.arm.Armed? ==> !s'.unread)
      && (s'.unread ==> st.Fire? || (s.unread && !st.BeginRead?))
      && (st.Fire? ==> s'.unread)
  {
    if st.EndRead? {
      ResetAllSame(s, s.batch);
    }
  }

  lemma {:induction false} ResetAllSame(s: State, es: seq<Entry>)
    ensures ResetAll(s, es).arm == s.arm && ResetAll(s, es).unread == s.unread
    decreases |es|
  {
    if es == [] {
    } else {
      ResetAllSame(ResetOne(s, es[0]), es[1..]);
    }
  }

  lemma {:induction false} RunUnread(s: State, steps: seq<Step>, fired: bool)
    requires Schedule(s, steps) && (s.arm.Armed? ==> !s.unread) && (s.unread ==> fired)
    ensures
      var s' := Exec(s, steps);
      (s'.arm.Armed? ==> !s'.unread) && (s'.unread ==> FiredSinceRead(steps, fired))
    decreases |steps|
  {
    if steps == [] {
    } else {
      StepUnread(s, steps[0]);
      RunUnread(Do(s, steps[0]), steps[1..], if steps[0].Fire? then true else if steps[0].BeginRead? then false else fired);
    }
  }

  /** The timer is one-shot: while it is armed there is nothing to read, and what there is to read comes
      from an expiry since the last read. */
  lemma UnreadMeansFired(init: State, steps: seq<Step>)
    requires Init(init) && Schedule(init, steps)
    ensures
      var s := Exec(init, steps);
      (s.arm.Armed? ==> !s.unread) && (s.unread ==> FiredSinceRead(steps, false))
  {
    RunUnread(init, steps, false);
  }
}
