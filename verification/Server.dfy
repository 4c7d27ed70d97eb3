/** Many connections on one loop: accepting, dispatching a batch of events, and teardown.

A connection object lives as long as the server's table or a queued functor refers to it. Its
channel is part of it, so a channel reported by the poller must not be freed before its turn in
the batch comes. `connectDestroyed` runs from the functor queue, after the batch.
*/
module Server {
  import opened Connection
  import opened ConnectionProofs
  import Runs = ConnectionRuns
  import opened ConnectionName

  datatype Peer = Peer(conn: Conn, fd: nat)

  datatype State = State(
    server: string,
    nextId: nat,
    peers: map<nat, Peer>,       // every connection ever accepted, by id
    table: map<string, nat>,     // connections_
    tasks: seq<nat>,             // queued connectDestroyed functors, which run in any order
    active: seq<nat>,            // reported by the poller, not yet handled
    freed: set<nat>,             // connection objects destroyed
    faults: nat)                 // failed assertions and uses of freed objects

  datatype Step =
    | Accept(fd: nat, conn: Conn)
    | Report(ids: seq<nat>)
    | Dispatch(ev: Events, io: PassIo)
    | UserCall(id: nat, call: Call)
    | RunTask(i: nat)

  predicate Init(s: State)
  {
    s.nextId == 1 && s.peers == map[] && s.table == map[] && s.tasks == [] && s.active == [] &&
    s.freed == {} && s.faults == 0
  }

  ghost predicate Enabled(s: State, st: Step)
  {
    match st
    case Accept(fd, conn) =>   // accept returns a descriptor that is not open
      && s.nextId + 1 < ID_LIMIT && Fresh(conn) && s.nextId !in s.peers
      && (forall id :: id in s.peers && s.peers[id].conn.open ==> s.peers[id].fd != fd)
    case Report(ids) =>        // the poller reports channels with interest
      && s.active == []
      && (forall id :: id in ids ==>
            id in s.peers && (s.peers[id].conn.reading || s.peers[id].conn.writing))
    case Dispatch(ev, io) =>
      s.active != [] && s.active[0] in s.peers && PassLegal(s.peers[s.active[0]].conn, ev, io)
    case UserCall(id, call) => id in s.peers && id !in s.freed && CallLegal(s.peers[id].conn, call)
    case RunTask(i) => s.active == [] && i < |s.tasks| && s.tasks[i] in s.peers
  }

  predicate Tabled(s: State, id: nat)
  {
    Name(s.server, id) in s.table && s.table[Name(s.server, id)] == id
  }

  // removeConnectionInLoop: erase by name, which must find an entry, and queue the teardown.
  function Remove(s: State, id: nat, times: nat): State
    decreases times
  {
    if times == 0 then s
    else
      var name := Name(s.server, id);
      Remove(s.(table := s.table - {name}, tasks := s.tasks + [id],
                faults := if name in s.table then s.faults else s.faults + 1), id, times - 1)
  }

  // Store the connection's new state; each entry of handleClose calls back into the server.
  function Settle(s: State, id: nat, conn: Conn): State
    requires id in s.peers
  {
    var s1 := s.(peers := s.peers[id := s.peers[id].(conn := conn)]);
    Remove(s1, id, if conn.closes > s.peers[id].conn.closes then conn.closes - s.peers[id].conn.closes else 0)
  }

  ghost function Do(s: State, st: Step): State
    requires Enabled(s, st)
  {
    match st
    case Accept(fd, conn) =>
      s.(nextId := s.nextId + 1,
         peers := s.peers[s.nextId := Peer(ConnectEstablished(conn), fd)],
         table := s.table[Name(s.server, s.nextId) := s.nextId])
    case Report(ids) => s.(active := ids)
    case Dispatch(ev, io) =>
      var id := s.active[0];
      var s1 := s.(active := s.active[1..]);
      if id in s.freed then s1.(faults := s.faults + 1)
      else Settle(s1, id, Pass(s.peers[id].conn, ev, io))
    case UserCall(id, call) => Settle(s, id, DoCall(s.peers[id].conn, call))
    case RunTask(i) =>
      var id := s.tasks[i];
      var s1 := s.(tasks := s.tasks[..i] + s.tasks[i + 1..],
                   peers := s.peers[id := s.peers[id].(conn := ConnectDestroyed(s.peers[id].conn))]);
      if Tabled(s1, id) || id in s1.tasks then s1 else s1.(freed := s.freed + {id})
  }

  // No bare hang-up for a connection closed earlier in the same batch.
  ghost predicate Polite(s: State, st: Step)
    requires Enabled(s, st)
  {
    st.Dispatch? && st.ev.hup && !st.ev.in_ ==> Live(s.peers[s.active[0]].conn)
  }

  ghost predicate Feasible(s: State, steps: seq<Step>)
    decreases |steps|
  {
    steps == [] || (Enabled(s, steps[0]) && Feasible(Do(s, steps[0]), steps[1..]))
  }

  ghost function Exec(s: State, steps: seq<Step>): State
    requires Feasible(s, steps)
    decreases |steps|
  {
    if steps == [] then s else Exec(Do(s, steps[0]), steps[1..])
  }

  ghost predicate AllPolite(s: State, steps: seq<Step>)
    requires Feasible(s, steps)
    decreases |steps|
  {
    steps == [] || (Polite(s, steps[0]) && AllPolite(Do(s, steps[0]), steps[1..]))
  }

  ghost predicate Schedule(s: State, steps: seq<Step>)
  {
    Feasible(s, steps) && AllPolite(s, steps)
  }

  // ----- invariant -----

  ghost predicate PeerOk(s: State, id: nat)
    requires id in s.peers
  {
    var c := s.peers[id].conn;
    && 1 <= id < s.nextId
    && ConnectionProofs.Inv(c) && !c.phase.Connecting?
    && (Live(c) <==> Tabled(s, id))
    && (c.open && c.phase.Disconnected? <==> id in s.tasks)
    && (!c.open <==> id in s.freed)
  }

  ghost predicate Inv(s: State)
  {
    && |s.server| <= 51 && 1 <= s.nextId < ID_LIMIT && s.faults == 0 && s.freed <= s.peers.Keys
    && (forall id {:trigger PeerOk(s, id)} :: id in s.peers ==> PeerOk(s, id))
    && (forall n {:trigger n in s.table} :: n in s.table ==> s.table[n] in s.peers && n == Name(s.server, s.table[n]))
    && (forall i, j :: 0 <= i < j < |s.tasks| ==> s.tasks[i] != s.tasks[j])
    && (forall i :: 0 <= i < |s.tasks| ==> s.tasks[i] in s.peers)
    && (forall i :: 0 <= i < |s.active| ==> s.active[i] in s.peers && s.active[i] !in s.freed)
  }

  ghost predicate FdsDistinct(s: State)
  {
    forall i, j :: i in s.peers && j in s.peers && i != j && s.peers[i].conn.open && s.peers[j].conn.open ==>
      s.peers[i].fd != s.peers[j].fd
  }

  lemma AcceptInv(s: State, fd: nat, conn: Conn)
    requires Inv(s) && Enabled(s, Accept(fd, conn))
    ensures Inv(Do(s, Accept(fd, conn)))
  {
    var s' := Do(s, Accept(fd, conn));
    EndsKeep(conn);
    forall id | id in s.peers
      ensures Name(s.server, id) != Name(s.server, s.nextId)
    {
      assert PeerOk(s, id);
      if Name(s.server, id) == Name(s.server, s.nextId) {
        ShortNamesDiffer(s.server, id, s.nextId);
      }
    }
    forall id | id in s'.peers
      ensures PeerOk(s', id)
    {
      if id != s.nextId { assert PeerOk(s, id); }
    }
  }

  // A connection that did not close keeps its place in the table.
  lemma SettleOpen(s: State, id: nat, c': Conn)
    requires Inv(s) && id in s.peers && id !in s.freed
    requires
      var c := s.peers[id].conn;
      && ConnectionProofs.Inv(c') && !c'.phase.Connecting? && c'.open == c.open
      && c'.closes == c.closes && (Live(c) <==> Live(c'))
    ensures Inv(Settle(s, id, c'))
  {
    var s' := Settle(s, id, c');
    assert PeerOk(s, id);
    forall i | i in s'.peers
      ensures PeerOk(s', i)
    {
      assert PeerOk(s, i);
    }
  }

  // A connection that closed leaves the table and has its teardown queued.
  lemma SettleClosed(s: State, id: nat, c': Conn)
    requires Inv(s) && id in s.peers && id !in s.freed
    requires
      var c := s.peers[id].conn;
      && ConnectionProofs.Inv(c') && c'.phase.Disconnected? && c'.open == c.open
      && c'.closes == c.closes + 1 && Live(c)
    ensures Inv(Settle(s, id, c'))
  {
    var s' := Settle(s, id, c');
    assert PeerOk(s, id);
    var name := Name(s.server, id);
    assert Remove(s.(peers := s'.peers), id, 1) == s';
    assert s'.tasks == s.tasks + [id] && s'.table == s.table - {name};
    assert id !in s.tasks;
    forall i | i in s'.peers
      ensures PeerOk(s', i)
    {
      assert PeerOk(s, i);
      assert i in s'.tasks <==> i in s.tasks || i == id;
      if i != id && Name(s.server, i) == name {
        ShortNamesDiffer(s.server, i, id);
      }
    }
  }

  lemma SettleInv(s: State, id: nat, c': Conn)
    requires Inv(s) && id in s.peers && id !in s.freed
    requires
      var c := s.peers[id].conn;
      ConnectionProofs.Inv(c') && !c.phase.Connecting? && ClosedOnce(c, c')
    ensures Inv(Settle(s, id, c'))
  {
    var c := s.peers[id].conn;
    if Live(c) && c'.phase.Disconnected? {
      SettleClosed(s, id, c');
    } else {
      SettleOpen(s, id, c');
    }
  }

  // Taking one element out of a sequence without repeats.
  lemma TakeOut(a: seq<nat>, i: nat, b: seq<nat>)
    requires i < |a| && b == a[..i] + a[i + 1..]
    requires forall j, k :: 0 <= j < k < |a| ==> a[j] != a[k]
    ensures forall j, k :: 0 <= j < k < |b| ==> b[j] != b[k]
    ensures forall x :: x in b <==> x in a && x != a[i]
  {
    assert forall j :: 0 <= j < |b| ==> b[j] == a[if j < i then j else j + 1];
    forall x | x in a && x != a[i]
      ensures x in b
    {
      var j :| 0 <= j < |a| && a[j] == x;
      assert b[if j < i then j else j - 1] == x;
    }
  }

  lemma TaskInv(s: State, i: nat)
    requires Inv(s) && Enabled(s, RunTask(i))
    ensures Inv(Do(s, RunTask(i)))
  {
    var s' := Do(s, RunTask(i));
    var id := s.tasks[i];
    assert PeerOk(s, id);
    EndsKeep(s.peers[id].conn);
    TakeOut(s.tasks, i, s'.tasks);
    assert id !in s'.tasks;
    assert s' == s.(tasks := s'.tasks, peers := s'.peers, freed := s.freed + {id});
    forall j | j in s'.peers
      ensures PeerOk(s', j)
    {
      assert PeerOk(s, j);
      assert Tabled(s', j) == Tabled(s, j);
      assert j in s'.tasks <==> j in s.tasks && j != id;
    }
  }

  lemma DispatchInv(s: State, ev: Events, io: PassIo)
    requires Inv(s) && Enabled(s, Dispatch(ev, io)) && Polite(s, Dispatch(ev, io))
    ensures Inv(Do(s, Dispatch(ev, io)))
  {
    var id := s.active[0];
    var c := s.peers[id].conn;
    assert PeerOk(s, id);
    PassKeeps(c, ev, io);
    PassClosesOnce(c, ev, io);
    var s1 := s.(active := s.active[1..]);
    forall i | i in s1.peers
      ensures PeerOk(s1, i)
    {
      assert PeerOk(s, i);
    }
    SettleInv(s1, id, Pass(c, ev, io));
  }

  lemma ReportInv(s: State, ids: seq<nat>)
    requires Inv(s) && Enabled(s, Report(ids))
    ensures Inv(Do(s, Report(ids)))
  {
    var s' := Do(s, Report(ids));
    forall id | id in s'.peers
      ensures PeerOk(s', id)
    {
      assert PeerOk(s, id);
    }
    forall i | 0 <= i < |ids|
      ensures ids[i] in s.peers && ids[i] !in s.freed
    {
      assert ids[i] in ids;
      assert PeerOk(s, ids[i]);
    }
  }

  lemma StepInv(s: State, st: Step)
    requires Inv(s) && Enabled(s, st) && Polite(s, st)
    ensures Inv(Do(s, st))
  {
    match st
    case Accept(fd, conn) => AcceptInv(s, fd, conn);
    case Report(ids) => ReportInv(s, ids);
    case Dispatch(ev, io) => DispatchInv(s, ev, io);
    case UserCall(id, call) =>
      assert PeerOk(s, id);
      CallKeeps(s.peers[id].conn, call);
      CallClosesOnce(s.peers[id].conn, call);
      SettleInv(s, id, DoCall(s.peers[id].conn, call));
    case RunTask(i) => TaskInv(s, i);
  }

  lemma {:induction false} ScheduleInv(s: State, steps: seq<Step>)
    requires Inv(s) && Schedule(s, steps)
    ensures Inv(Exec(s, steps)) && Exec(s, steps).server == s.server
    decreases |steps|
  {
    if steps == [] {
    } else {
      StepInv(s, steps[0]);
      SameServer(s, steps[0]);
      ScheduleInv(Do(s, steps[0]), steps[1..]);
    }
  }

  lemma {:induction false} RemoveFrame(s: State, id: nat, times: nat)
    ensures
      var s' := Remove(s, id, times);
      s' == s.(table := s'.table, tasks := s'.tasks, faults := s'.faults)
    decreases times
  {
    if times == 0 {
    } else {
      var name := Name(s.server, id);
      RemoveFrame(s.(table := s.table - {name}, tasks := s.tasks + [id],
                     faults := if name in s.table then s.faults else s.faults + 1), id, times - 1);
    }
  }

  lemma SettleFrame(s: State, id: nat, c': Conn)
    requires id in s.peers
    ensures
      var s' := Settle(s, id, c');
      && s' == s.(peers := s'.peers, table := s'.table, tasks := s'.tasks, faults := s'.faults)
      && s'.peers == s.peers[id := s.peers[id].(conn := c')]
  {
    var s1 := s.(peers := s.peers[id := s.peers[id].(conn := c')]);
    RemoveFrame(s1, id, if c'.closes > s.peers[id].conn.closes then c'.closes - s.peers[id].conn.closes else 0);
  }

  lemma SameServer(s: State, st: Step)
    requires Enabled(s, st)
    ensures Do(s, st).server == s.server
  {
    match st
    case Dispatch(ev, io) =>
      if s.active[0] !in s.freed {
        SettleFrame(s.(active := s.active[1..]), s.active[0], Pass(s.peers[s.active[0]].conn, ev, io));
      }
    case UserCall(id, call) => SettleFrame(s, id, DoCall(s.peers[id].conn, call));
    case _ =>
  }

  /** Connection lifecycle on a server with a short enough name, for every schedule: no assertion
      fails, neither in the server nor in handleClose nor in the destructor, and no freed object is
      used; a connection is in the table exactly while it is live;
      its teardown is queued at most once, exactly between its close and its teardown; its
      descriptor is closed at most once, exactly when the object goes, and exactly once when it is
      neither live nor queued; by then its channel has left the poller; nothing the poller reported is freed before its turn. */
  lemma LifecycleSafe(init: State, steps: seq<Step>, id: nat)
    requires Init(init) && |init.server| <= 51 && Schedule(init, steps)
    ensures
      var s := Exec(init, steps);
      && s.faults == 0
      && (forall i :: 0 <= i < |s.active| ==> s.active[i] !in s.freed)
      && (forall i, j :: 0 <= i < j < |s.tasks| ==> s.tasks[i] != s.tasks[j])
      && (id in s.peers ==>
            var c := s.peers[id].conn;
            && c.faults == 0 && c.closes <= 1
            && (Live(c) <==> Tabled(s, id))
            && (id in s.tasks <==> c.phase.Disconnected? && c.open)
            && (id in s.freed ==> c.phase.Disconnected?)
            && (id in s.freed <==> c.fdCloses == 1) && c.fdCloses <= 1
            && (!Live(c) && id !in s.tasks ==> c.fdCloses == 1)
            && (c.fdCloses == 1 ==> !c.registered && !c.reading && !c.writing))
  {
    assert Inv(init);
    ScheduleInv(init, steps);
    var s := Exec(init, steps);
    if id in s.peers {
      assert PeerOk(s, id);
    }
  }

  lemma StepFds(s: State, st: Step)
    requires Inv(s) && FdsDistinct(s) && Enabled(s, st) && Polite(s, st)
    ensures FdsDistinct(Do(s, st))
  {
    match st
    case Dispatch(ev, io) =>
      var id := s.active[0];
      assert PeerOk(s, id);
      PassClosesOnce(s.peers[id].conn, ev, io);
      SettleFrame(s.(active := s.active[1..]), id, Pass(s.peers[id].conn, ev, io));
    case UserCall(id, call) =>
      assert PeerOk(s, id);
      CallClosesOnce(s.peers[id].conn, call);
      SettleFrame(s, id, DoCall(s.peers[id].conn, call));
    case _ =>
  }

  /** No two open connections ever share a descriptor, so a close never hits another connection. */
  lemma {:induction false} OpenFdsDistinct(s: State, steps: seq<Step>)
    requires Inv(s) && FdsDistinct(s) && Schedule(s, steps)
    ensures FdsDistinct(Exec(s, steps))
    decreases |steps|
  {
    if steps == [] {
    } else {
      StepInv(s, steps[0]);
      StepFds(s, steps[0]);
      OpenFdsDistinct(Do(s, steps[0]), steps[1..]);
    }
  }

  // The descriptors under which the poller has a channel of this server.
  function Mapped(s: State): set<nat>
  {
    set id | id in s.peers && s.peers[id].conn.registered :: s.peers[id].fd
  }

  ghost predicate MappedOnce(s: State)
  {
    forall i, j :: i in s.peers && j in s.peers && i != j && s.peers[i].conn.registered && s.peers[j].conn.registered ==>
      s.peers[i].fd != s.peers[j].fd
  }

  /** At every accept the poller has no channel under the new descriptor, and afterwards each mapped
      descriptor belongs to one connection: what a new connection asks of its poller is met. */
  lemma AcceptedFdUnmapped(init: State, steps: seq<Step>, fd: nat, conn: Conn)
    requires Init(init) && |init.server| <= 51 && Schedule(init, steps)
    requires Enabled(Exec(init, steps), Accept(fd, conn))
    ensures fd !in Mapped(Exec(init, steps))
    ensures MappedOnce(Do(Exec(init, steps), Accept(fd, conn)))
  {
    var s := Exec(init, steps);
    assert Inv(init) && FdsDistinct(init);
    ScheduleInv(init, steps);
    OpenFdsDistinct(init, steps);
    forall id | id in s.peers && s.peers[id].conn.registered
      ensures s.peers[id].conn.open
    {
      assert PeerOk(s, id);
    }
  }

  // ----- the assumption on hang-ups is exact -----

  // A dispatch that delivers a bare hang-up to a closed connection fails to find its name.
  lemma ImpoliteFaults(s: State, ev: Events, io: PassIo)
    requires Inv(s) && Enabled(s, Dispatch(ev, io)) && !Polite(s, Dispatch(ev, io))
    ensures Do(s, Dispatch(ev, io)).faults > 0
  {
    var id := s.active[0];
    var c := s.peers[id].conn;
    assert PeerOk(s, id);
    PassClosesOnce(c, ev, io);
    var name := Name(s.server, id);
    if name in s.table {
      assert PeerOk(s, s.table[name]);
      ShortNamesDiffer(s.server, s.table[name], id);
    }
    var s1 := s.(active := s.active[1..], peers := s.peers[id := s.peers[id].(conn := Pass(c, ev, io))]);
    assert Do(s, Dispatch(ev, io)) == Remove(s1, id, 1);
  }

  lemma {:induction false} RemoveFaults(s: State, id: nat, times: nat)
    ensures Remove(s, id, times).faults >= s.faults
    decreases times
  {
    if times == 0 {
    } else {
      var name := Name(s.server, id);
      RemoveFaults(s.(table := s.table - {name}, tasks := s.tasks + [id],
                      faults := if name in s.table then s.faults else s.faults + 1), id, times - 1);
    }
  }

  lemma SettleFaults(s: State, id: nat, c': Conn)
    requires id in s.peers
    ensures Settle(s, id, c').faults >= s.faults
  {
    var s1 := s.(peers := s.peers[id := s.peers[id].(conn := c')]);
    RemoveFaults(s1, id, if c'.closes > s.peers[id].conn.closes then c'.closes - s.peers[id].conn.closes else 0);
  }

  lemma FaultsStay(s: State, st: Step)
    requires Enabled(s, st)
    ensures Do(s, st).faults >= s.faults
  {
    match st
    case Dispatch(ev, io) =>
      if s.active[0] !in s.freed {
        SettleFaults(s.(active := s.active[1..]), s.active[0], Pass(s.peers[s.active[0]].conn, ev, io));
      }
    case UserCall(id, call) => SettleFaults(s, id, DoCall(s.peers[id].conn, call));
    case _ =>
  }

  lemma {:induction false} FaultsRemain(s: State, steps: seq<Step>)
    requires Feasible(s, steps)
    ensures Exec(s, steps).faults >= s.faults
    decreases |steps|
  {
    if steps == [] {
    } else {
      FaultsStay(s, steps[0]);
      FaultsRemain(Do(s, steps[0]), steps[1..]);
    }
  }

  /** Over every run, polite or not, from a state that keeps the invariant: no assertion fails and
      no freed object is used if and only if no bare hang-up reaches a closed connection. */
  lemma {:induction false} FaultFreeIff(s: State, steps: seq<Step>)
    requires Inv(s) && Feasible(s, steps)
    ensures Exec(s, steps).faults == 0 <==> AllPolite(s, steps)
    decreases |steps|
  {
    if steps == [] {
    } else if Polite(s, steps[0]) {
      StepInv(s, steps[0]);
      FaultFreeIff(Do(s, steps[0]), steps[1..]);
    } else {
      ImpoliteFaults(s, steps[0].ev, steps[0].io);
      FaultsRemain(Do(s, steps[0]), steps[1..]);
    }
  }

  // ----- every connection of a server is a run -----

  // The connection is what some run of operations made of a fresh one.
  ghost predicate Lived(c: Conn)
  {
    exists c0, ops :: Fresh(c0) && Run(c0, ops) && Connection.Exec(c0, ops) == c
  }

  lemma LivesOn(c: Conn, more: seq<Op>)
    requires Lived(c) && Run(c, more)
    ensures Lived(Connection.Exec(c, more))
  {
    var c0, ops :| Fresh(c0) && Run(c0, ops) && Connection.Exec(c0, ops) == c;
    Runs.RunAppend(c0, ops, more);
  }

  lemma LivesOneMore(c: Conn, op: Op)
    requires Lived(c) && Connection.Enabled(c, op)
    ensures Lived(Connection.Do(c, op))
  {
    Runs.RunOne(c, op);
    LivesOn(c, [op]);
  }

  lemma FreshLives(c: Conn)
    requires Fresh(c)
    ensures Lived(c)
  {
    assert Run(c, []) && Connection.Exec(c, []) == c;
  }

  ghost predicate AllLived(s: State)
  {
    forall id :: id in s.peers ==> Lived(s.peers[id].conn)
  }

  lemma DispatchLived(s: State, ev: Events, io: PassIo)
    requires Inv(s) && AllLived(s) && Enabled(s, Dispatch(ev, io)) && Polite(s, Dispatch(ev, io))
    ensures AllLived(Do(s, Dispatch(ev, io)))
  {
    var id := s.active[0];
    var c := s.peers[id].conn;
    assert PeerOk(s, id);
    Runs.PassIsRun(c, ev, io);
    LivesOn(c, Runs.PassOps(ev, io));
    SettleFrame(s.(active := s.active[1..]), id, Pass(c, ev, io));
  }

  lemma StepLived(s: State, st: Step)
    requires Inv(s) && AllLived(s) && Enabled(s, st) && Polite(s, st)
    ensures AllLived(Do(s, st))
  {
    match st
    case Accept(fd, conn) =>
      FreshLives(conn);
      LivesOneMore(conn, Establish);
    case Report(ids) =>
    case Dispatch(ev, io) => DispatchLived(s, ev, io);
    case UserCall(id, call) =>
      LivesOneMore(s.peers[id].conn, Invoke(call));
      SettleFrame(s, id, DoCall(s.peers[id].conn, call));
    case RunTask(i) =>
      LivesOneMore(s.peers[s.tasks[i]].conn, Destroy);
  }

  lemma {:induction false} RunLived(s: State, steps: seq<Step>)
    requires Inv(s) && AllLived(s) && Schedule(s, steps)
    ensures AllLived(Exec(s, steps))
    decreases |steps|
  {
    if steps == [] {
    } else {
      StepInv(s, steps[0]);
      StepLived(s, steps[0]);
      RunLived(Do(s, steps[0]), steps[1..]);
    }
  }

  /** Over every schedule, each connection of the server is the outcome of a run of its own from a
      fresh connection; so the theorems over runs hold of every connection on every server. */
  lemma PeersAreRuns(init: State, steps: seq<Step>, id: nat)
    requires Init(init) && |init.server| <= 51 && Schedule(init, steps) && id in Exec(init, steps).peers
    ensures exists c0, ops :: Fresh(c0) && Run(c0, ops) && Connection.Exec(c0, ops) == Exec(init, steps).peers[id].conn
  {
    assert Inv(init);
    RunLived(init, steps);
    assert Lived(Exec(init, steps).peers[id].conn);
  }
}
