/** What a connection guarantees over every run of calls, events and system-call outcomes. */
module ConnectionProofs {
  import opened Buffers
  import opened Connection

  // ----- the output stream -----

  ghost predicate Stream(c: Conn)
  {
    && (Live(c) ==> c.sent + c.out == c.accepted && (c.writing <==> c.out != []))
    && (c.phase.Connecting? ==> c.sent == [] && c.accepted == [] && c.out == [] && !c.writing)
    && (c.phase.Disconnected? ==> c.sent <= c.accepted && !c.writing && !c.reading)
    && c.taken + c.input == c.received
  }

  ghost predicate HalfClose(c: Conn)
  {
    && c.shutdowns <= 1
    && (c.phase.Connecting? || c.phase.Connected? ==> c.shutdowns == 0)
    && (c.phase.Disconnecting? ==> c.shutdowns == 1)
    && c.halfCloses <= c.shutdowns
    && (c.halfCloses == 1 ==> c.sent == c.accepted)
    && (c.phase.Disconnecting? && c.open ==> (c.halfCloses == 1 <==> c.out == []))
  }

  ghost predicate Lifecycle(c: Conn)
  {
    && (Live(c) ==> c.reading && c.registered && c.open)
    && (c.reading || c.writing ==> c.registered)
    && (Live(c) ==> c.closes == 0)
    && (c.phase.Connecting? ==> c.closes == 0 && !c.reading)
    && c.closes <= 1 && c.faults == 0
    && c.fdCloses == (if c.open then 0 else 1)
    && (!c.open ==> c.phase.Disconnected? && !c.registered)
  }

  ghost predicate Inv(c: Conn)
  {
    Stream(c) && HalfClose(c) && Lifecycle(c)
  }

  function Rank(p: Phase): nat
  {
    match p
    case Connecting => 0
    case Connected => 1
    case Disconnecting => 2
    case Disconnected => 3
  }

  // Queueing what is left of a message completes the stream.
  lemma EnqueueStream(c: Conn, rest: seq<Byte>)
    requires c.phase.Connected? && (c.writing <==> c.out != []) && c.taken + c.input == c.received
    requires c.sent + (c.out + rest) == c.accepted
    ensures Stream(Enqueue(c, rest))
  {
    if rest == [] {
      assert c.out + rest == c.out;
    }
  }

  lemma Glue(a: seq<Byte>, b: seq<Byte>, c: seq<Byte>)
    ensures a + b + c == a + (b + c)
  {}

  // The socket took the first `n` bytes of a message.
  lemma DirectStream(c: Conn, data: seq<Byte>, n: nat, completes: nat)
    requires Stream(c) && c.phase.Connected? && !c.writing && n <= |data|
    ensures Stream(Enqueue(c.(accepted := c.accepted + data, sent := c.sent + data[..n], completes := completes), data[n..]))
  {
    var c2 := c.(accepted := c.accepted + data, sent := c.sent + data[..n], completes := completes);
    assert c.sent + [] == c.sent && [] + data[n..] == data[n..];
    assert data == data[..n] + data[n..];
    Glue(c.sent, data[..n], data[n..]);
    EnqueueStream(c2, data[n..]);
  }

  lemma QueuedStream(c: Conn, data: seq<Byte>)
    requires Stream(c) && c.phase.Connected?
    ensures Stream(Enqueue(c.(accepted := c.accepted + data), data))
  {
    Glue(c.sent, c.out, data);
    EnqueueStream(c.(accepted := c.accepted + data), data);
  }

  lemma BrokenStream(c: Conn, data: seq<Byte>)
    requires Stream(c) && c.phase.Connected?
    ensures Stream(HandleError(c.(accepted := c.accepted + data), true))
  {
    Glue(c.sent, c.out, data);
  }

  lemma SendStream(c: Conn, data: seq<Byte>, w: Outcome)
    requires Stream(c) && c.phase.Connected? && WriteLegal(|data|, w)
    ensures Stream(SendInLoop(c, data, w))
  {
    if c.writing || c.out != [] || w.Again? {
      QueuedStream(c, data);
    } else if w.Broken? {
      BrokenStream(c, data);
    } else {
      DirectStream(c, data, w.n, if w.n == |data| && c.watchComplete then c.completes + 1 else c.completes);
    }
  }

  lemma SendRest(c: Conn, data: seq<Byte>, w: Outcome)
    requires HalfClose(c) && Lifecycle(c) && c.phase.Connected? && WriteLegal(|data|, w)
    ensures HalfClose(SendInLoop(c, data, w)) && Lifecycle(SendInLoop(c, data, w))
  {}

  lemma SendKeeps(c: Conn, data: seq<Byte>, w: Outcome)
    requires Inv(c) && c.phase.Connected? && WriteLegal(|data|, w)
    ensures Inv(SendInLoop(c, data, w))
  {
    SendStream(c, data, w);
    SendRest(c, data, w);
  }

  lemma WriteKeeps(c: Conn, w: Outcome)
    requires Inv(c) && !c.phase.Connecting? && WriteLegal(|c.out|, w)
    ensures Inv(HandleWrite(c, w))
  {
    if w.Wrote? {
      assert c.out == c.out[..w.n] + c.out[w.n..];
    }
  }

  lemma CallKeeps(c: Conn, call: Call)
    requires Inv(c) && CallLegal(c, call)
    ensures Inv(DoCall(c, call)) && Rank(c.phase) <= Rank(DoCall(c, call).phase)
  {
    match call
    case Send(data, w) => if c.phase.Connected? { SendKeeps(c, data, w); }
    case Transfer(data, w) => if c.phase.Connected? { SendKeeps(c, data, w); }
    case Shutdown =>
    case Retrieve(n) => assert c.input == c.input[..n] + c.input[n..];
  }

  lemma CloseKeeps(c: Conn, fatal: bool)
    requires Inv(c) && !c.phase.Connecting?
    ensures Inv(HandleError(c, fatal)) && Rank(c.phase) <= Rank(HandleError(c, fatal).phase)
  {}

  lemma ReadKeeps(c: Conn, r: Input)
    requires Inv(c) && !c.phase.Connecting?
    ensures Inv(HandleRead(c, r)) && Rank(c.phase) <= Rank(HandleRead(c, r).phase)
  {
    CloseKeeps(c, true);
  }

  lemma EndsKeep(c: Conn)
    requires Inv(c)
    ensures Inv(ConnectDestroyed(c))
    ensures c.phase.Connecting? && c.open ==> Inv(ConnectEstablished(c))
  {}

  lemma StepKeeps(c: Conn, op: Op)
    requires Inv(c) && Enabled(c, op)
    ensures Inv(Do(c, op)) && Rank(c.phase) <= Rank(Do(c, op).phase)
  {
    match op
    case Invoke(call) => CallKeeps(c, call);
    case Writable(w) => WriteKeeps(c, w);
    case Readable(r) => ReadKeeps(c, r);
    case HangUp => CloseKeeps(c, true);
    case Failure(fatal) => CloseKeeps(c, fatal);
    case Establish => EndsKeep(c);
    case Destroy => EndsKeep(c);
  }

  lemma {:induction false} RunKeeps(c: Conn, ops: seq<Op>)
    requires Inv(c) && Run(c, ops)
    ensures Inv(Exec(c, ops)) && Rank(c.phase) <= Rank(Exec(c, ops).phase)
    decreases |ops|
  {
    if ops == [] {
    } else {
      StepKeeps(c, ops[0]);
      RunKeeps(Do(c, ops[0]), ops[1..]);
    }
  }

  // ----- what the caller offered, read off the operations -----

  function Payload(op: Op): seq<Byte>
  {
    if op.Invoke? && (op.call.Send? || op.call.Transfer?) then op.call.data else []
  }

  // The data of every send made while the connection was connected, in order.
  ghost function Offered(c: Conn, ops: seq<Op>): seq<Byte>
    requires Run(c, ops)
    decreases |ops|
  {
    if ops == [] then []
    else (if c.phase.Connected? then Payload(ops[0]) else []) + Offered(Do(c, ops[0]), ops[1..])
  }

  lemma SendAccepts(c: Conn, data: seq<Byte>, w: Outcome)
    requires WriteLegal(|data|, w) && c.phase.Connected?
    ensures SendInLoop(c, data, w).accepted == c.accepted + data
  {}

  lemma StepAccepts(c: Conn, op: Op)
    requires Enabled(c, op)
    ensures Do(c, op).accepted == c.accepted + if c.phase.Connected? then Payload(op) else []
  {
    if op.Invoke? && (op.call.Send? || op.call.Transfer?) && c.phase.Connected? {
      SendAccepts(c, op.call.data, op.call.w);
    }
  }

  lemma {:induction false} AcceptedIsOffered(c: Conn, ops: seq<Op>)
    requires Run(c, ops)
    ensures Exec(c, ops).accepted == c.accepted + Offered(c, ops)
    decreases |ops|
  {
    if ops == [] {
    } else {
      StepAccepts(c, ops[0]);
      AcceptedIsOffered(Do(c, ops[0]), ops[1..]);
      Glue(c.accepted, if c.phase.Connected? then Payload(ops[0]) else [], Offered(Do(c, ops[0]), ops[1..]));
    }
  }

  /** Stream preservation: while live, what the socket took followed by the output buffer is all the
      data sent while connected, in order, and write interest is on exactly when the buffer holds
      something; after the close the socket has taken a prefix. */
  lemma StreamPreserved(c: Conn, ops: seq<Op>)
    requires Fresh(c) && Run(c, ops)
    ensures
      var c' := Exec(c, ops);
      && (Live(c') ==> c'.sent + c'.out == Offered(c, ops) && (c'.writing <==> c'.out != []))
      && (!Live(c') ==> c'.sent <= Offered(c, ops))
      && c'.accepted == Offered(c, ops)
      && c'.taken + c'.input == c'.received
  {
    RunKeeps(c, ops);
    AcceptedIsOffered(c, ops);
    assert [] + Offered(c, ops) == Offered(c, ops);
  }

  ghost predicate Grew(c: Conn, c': Conn)
  {
    c.sent <= c'.sent && c.accepted <= c'.accepted && c.halfCloses <= c'.halfCloses && c.shutdowns <= c'.shutdowns
  }

  lemma SendGrows(c: Conn, data: seq<Byte>, w: Outcome)
    requires WriteLegal(|data|, w)
    ensures Grew(c, SendInLoop(c, data, w))
  {}

  lemma WriteGrows(c: Conn, w: Outcome)
    requires WriteLegal(|c.out|, w)
    ensures Grew(c, HandleWrite(c, w))
  {}

  lemma CallGrows(c: Conn, call: Call)
    requires CallLegal(c, call)
    ensures Grew(c, DoCall(c, call))
  {
    match call
    case Send(data, w) => SendGrows(c, data, w);
    case Transfer(data, w) => SendGrows(c, data, w);
    case Shutdown =>
    case Retrieve(n) =>
  }

  lemma ReadGrows(c: Conn, r: Input)
    ensures Grew(c, HandleRead(c, r))
  {}

  lemma StepGrows(c: Conn, op: Op)
    requires Enabled(c, op)
    ensures Grew(c, Do(c, op))
  {
    match op
    case Invoke(call) => CallGrows(c, call);
    case Writable(w) => WriteGrows(c, w);
    case Readable(r) => ReadGrows(c, r);
    case _ =>
  }

  // What has been accepted or sent is never taken back.
  lemma {:induction false} HistoryGrows(c: Conn, ops: seq<Op>)
    requires Run(c, ops)
    ensures Grew(c, Exec(c, ops))
    decreases |ops|
  {
    if ops == [] {
    } else {
      StepGrows(c, ops[0]);
      HistoryGrows(Do(c, ops[0]), ops[1..]);
    }
  }

  /** Flush before half-close: shutdownWrite is issued at most once, only after shutdown, and only
      when every byte sent while connected has been written; nothing is accepted or sent afterwards. */
  lemma FlushBeforeHalfClose(c: Conn, before: seq<Op>, after: seq<Op>)
    requires Fresh(c) && Run(c, before) && Run(Exec(c, before), after)
    ensures
      var c1 := Exec(c, before);
      var c2 := Exec(c1, after);
      && c2.halfCloses <= 1
      && (c1.halfCloses == 1 ==> c1.shutdowns == 1 && c1.sent == c1.accepted && c1.sent == Offered(c, before))
      && (c1.halfCloses == 1 ==> c2.halfCloses == 1 && c2.accepted == c1.accepted && c2.sent == c1.sent)
  {
    RunKeeps(c, before);
    var c1 := Exec(c, before);
    RunKeeps(c1, after);
    HistoryGrows(c1, after);
    StreamPreserved(c, before);
    if c1.halfCloses == 1 {
      NothingAccepted(c1, after);
    }
  }

  lemma {:induction false} NothingAccepted(c: Conn, ops: seq<Op>)
    requires Inv(c) && Run(c, ops) && c.shutdowns == 1
    ensures Exec(c, ops).accepted == c.accepted
    decreases |ops|
  {
    if ops == [] {
    } else {
      StepKeeps(c, ops[0]);
      NothingAccepted(Do(c, ops[0]), ops[1..]);
    }
  }

  /** A shutdown request is never forgotten: while its connection stays live and the socket takes
      everything in the end, the half-close has been issued. */
  lemma ShutdownReachesSocket(c: Conn, ops: seq<Op>)
    requires Fresh(c) && Run(c, ops)
    ensures
      var c' := Exec(c, ops);
      c'.phase.Disconnecting? ==> (c'.halfCloses == 1 <==> c'.sent == Offered(c, ops))
  {
    StreamPreserved(c, ops);
    RunKeeps(c, ops);
    var c' := Exec(c, ops);
    if c'.phase.Disconnecting? {
      assert c'.sent + c'.out == c'.accepted;
      assert c'.out == [] <==> |c'.sent| == |c'.accepted|;
    }
  }

  /** Lifecycle: the phase only moves forward, handleClose is entered at most once, and the
      descriptor is closed at most once and only after the channel left the poller. */
  lemma LifecycleHolds(c: Conn, ops: seq<Op>)
    requires Fresh(c) && Run(c, ops)
    ensures
      var c' := Exec(c, ops);
      && c'.closes <= 1 && c'.faults == 0
      && c'.fdCloses == (if c'.open then 0 else 1)
      && (!c'.open ==> !c'.registered && c'.phase.Disconnected?)
  {
    RunKeeps(c, ops);
  }

  /** The phase order, between any two points of a run. */
  lemma ForwardOnly(c: Conn, before: seq<Op>, after: seq<Op>)
    requires Fresh(c) && Run(c, before) && Run(Exec(c, before), after)
    ensures Rank(Exec(c, before).phase) <= Rank(Exec(Exec(c, before), after).phase)
  {
    RunKeeps(c, before);
    RunKeeps(Exec(c, before), after);
  }

  // ----- the high-water mark -----

  // Lengths of the output buffer along a run.
  ghost function Lengths(c: Conn, ops: seq<Op>): seq<nat>
    requires Run(c, ops)
    decreases |ops|
  {
    [|c.out|] + if ops == [] then [] else Lengths(Do(c, ops[0]), ops[1..])
  }

  // How often a length sequence goes from below the mark to the mark or above.
  function Crossings(lens: seq<nat>, mark: nat): nat
  {
    if |lens| < 2 then 0
    else (if lens[0] < mark <= lens[1] then 1 else 0) + Crossings(lens[1..], mark)
  }

  ghost predicate Noticed(c: Conn, c': Conn)
  {
    && c'.mark == c.mark && c'.watchHigh == c.watchHigh
    && (if |c.out| < c.mark <= |c'.out| && c.watchHigh then c'.notices == c.notices + [|c'.out|]
        else c'.notices == c.notices)
  }

  lemma SendNotices(c: Conn, data: seq<Byte>, w: Outcome)
    requires WriteLegal(|data|, w)
    ensures Noticed(c, SendInLoop(c, data, w))
  {}

  lemma WriteNotices(c: Conn, w: Outcome)
    requires WriteLegal(|c.out|, w)
    ensures Noticed(c, HandleWrite(c, w))
  {}

  lemma ReadNotices(c: Conn, r: Input)
    ensures Noticed(c, HandleRead(c, r))
  {}

  lemma CallNotices(c: Conn, call: Call)
    requires CallLegal(c, call)
    ensures Noticed(c, DoCall(c, call))
  {
    match call
    case Send(data, w) => SendNotices(c, data, w);
    case Transfer(data, w) => SendNotices(c, data, w);
    case Shutdown =>
    case Retrieve(n) =>
  }

  lemma StepNotice(c: Conn, op: Op)
    requires Enabled(c, op)
    ensures Noticed(c, Do(c, op))
  {
    match op
    case Invoke(call) =>
      CallNotices(c, call);
    case Writable(w) => WriteNotices(c, w);
    case Readable(r) => ReadNotices(c, r);
    case _ =>
  }

  /** High-water notification: over a run, as many notifications are queued as the buffer crosses
      the mark upward; a crossing starts below the mark, so between two the buffer was below it. */
  lemma {:induction false} NoticesAreCrossings(c: Conn, ops: seq<Op>)
    requires Inv(c) && Run(c, ops)
    ensures |Exec(c, ops).notices| == |c.notices| + if c.watchHigh then Crossings(Lengths(c, ops), c.mark) else 0
    decreases |ops|
  {
    if ops == [] {
    } else {
      var c1 := Do(c, ops[0]);
      StepKeeps(c, ops[0]);
      StepNotice(c, ops[0]);
      NoticesAreCrossings(c1, ops[1..]);
      var lens := Lengths(c, ops);
      assert lens[1..] == Lengths(c1, ops[1..]);
      assert lens[1] == |c1.out|;
    }
  }

  // ----- write-complete notifications -----

  ghost predicate Completed(c: Conn, c': Conn)
  {
    && c.completes <= c'.completes <= c.completes + 1
    && (c'.completes > c.completes ==> c.watchComplete && Live(c') && c'.sent == c'.accepted && c'.out == [])
    && (c.watchComplete && Live(c') && c.out != [] && c'.out == [] ==> c'.completes == c.completes + 1)
  }

  lemma SendCompletes(c: Conn, data: seq<Byte>, w: Outcome)
    requires Inv(c) && c.phase.Connected? && WriteLegal(|data|, w)
    ensures Completed(c, SendInLoop(c, data, w))
    ensures c.out == [] && w == Wrote(|data|) && c.watchComplete ==>
      SendInLoop(c, data, w).completes == c.completes + 1
  {
    SendKeeps(c, data, w);
    if w.Wrote? && w.n == |data| {
      assert data[w.n..] == [];
    }
  }

  lemma WriteCompletes(c: Conn, w: Outcome)
    requires Inv(c) && !c.phase.Connecting? && WriteLegal(|c.out|, w)
    ensures Completed(c, HandleWrite(c, w))
  {
    WriteKeeps(c, w);
  }

  lemma OtherCompletes(c: Conn, op: Op)
    requires Inv(c) && Enabled(c, op) && !op.Invoke? && !op.Writable?
    ensures Completed(c, Do(c, op))
  {}

  lemma StepCompletes(c: Conn, op: Op)
    requires Inv(c) && Enabled(c, op)
    ensures Completed(c, Do(c, op))
  {
    match op
    case Invoke(call) =>
      match call {
        case Send(data, w) => if c.phase.Connected? { SendCompletes(c, data, w); }
        case Transfer(data, w) => if c.phase.Connected? { SendCompletes(c, data, w); }
        case Shutdown =>
        case Retrieve(n) =>
      }
    case Writable(w) => WriteCompletes(c, w);
    case _ => OtherCompletes(c, op);
  }

  /** Write-complete: at every step of every run, a notification is queued only when everything
      accepted has been written, and whenever a live connection's output buffer runs empty. */
  lemma WriteCompleteExact(c: Conn, ops: seq<Op>, op: Op)
    requires Fresh(c) && Run(c, ops) && Enabled(Exec(c, ops), op)
    ensures Completed(Exec(c, ops), Do(Exec(c, ops), op))
  {
    RunKeeps(c, ops);
    StepCompletes(Exec(c, ops), op);
  }

  // ----- one event pass -----

  datatype Events = Events(hup: bool, in_: bool, err: bool, pri: bool, rdhup: bool, out: bool)

  // Outcomes of the system calls of a pass, and the user calls made by the callbacks it runs.
  datatype PassIo = PassIo(
    afterClose: seq<Call>,
    fatal: bool, afterError: seq<Call>,
    read: Input, afterRead: seq<Call>,
    write: Outcome)

  ghost predicate CallsLegal(c: Conn, calls: seq<Call>)
    decreases |calls|
  {
    calls == [] || (CallLegal(c, calls[0]) && CallsLegal(DoCall(c, calls[0]), calls[1..]))
  }

  ghost function DoCalls(c: Conn, calls: seq<Call>): Conn
    requires CallsLegal(c, calls)
    decreases |calls|
  {
    if calls == [] then c else DoCalls(DoCall(c, calls[0]), calls[1..])
  }

  // handleEventWithGuard, up to and including each callback's user calls.
  ghost function Pass1(c: Conn, ev: Events): Conn
  {
    if ev.hup && !ev.in_ then HandleClose(c) else c
  }

  ghost function Pass2(c: Conn, ev: Events, io: PassIo): Conn
  {
    if ev.err then HandleError(c, io.fatal) else c
  }

  ghost function Pass3(c: Conn, ev: Events, io: PassIo): Conn
  {
    if ev.in_ || ev.pri || ev.rdhup then HandleRead(c, io.read) else c
  }

  ghost predicate PassLegal(c: Conn, ev: Events, io: PassIo)
  {
    && CallsLegal(Pass1(c, ev), io.afterClose)
    && var c1 := DoCalls(Pass1(c, ev), io.afterClose);
    && CallsLegal(Pass2(c1, ev, io), io.afterError)
    && var c2 := DoCalls(Pass2(c1, ev, io), io.afterError);
    && CallsLegal(Pass3(c2, ev, io), io.afterRead)
    && var c3 := DoCalls(Pass3(c2, ev, io), io.afterRead);
    && WriteLegal(|c3.out|, io.write)
  }

  ghost function Pass(c: Conn, ev: Events, io: PassIo): Conn
    requires PassLegal(c, ev, io)
  {
    var c1 := DoCalls(Pass1(c, ev), io.afterClose);
    var c2 := DoCalls(Pass2(c1, ev, io), io.afterError);
    var c3 := DoCalls(Pass3(c2, ev, io), io.afterRead);
    if ev.out then HandleWrite(c3, io.write) else c3
  }

  // Closing happens at most once and exactly when a live connection becomes disconnected.
  ghost predicate ClosedOnce(c: Conn, c': Conn)
  {
    && c'.faults == c.faults && c'.open == c.open
    && (Live(c) ==> Live(c') || c'.phase.Disconnected?)
    && (c.phase.Disconnected? ==> c'.phase.Disconnected? && c'.closes == c.closes)
    && (Live(c) ==> c'.closes == c.closes + if c'.phase.Disconnected? then 1 else 0)
  }

  lemma SendClosesOnce(c: Conn, data: seq<Byte>, w: Outcome)
    requires !c.phase.Connecting? && WriteLegal(|data|, w)
    ensures ClosedOnce(c, SendInLoop(c, data, w)) && !SendInLoop(c, data, w).phase.Connecting?
  {}

  lemma CallClosesOnce(c: Conn, call: Call)
    requires !c.phase.Connecting? && CallLegal(c, call)
    ensures ClosedOnce(c, DoCall(c, call)) && !DoCall(c, call).phase.Connecting?
  {
    match call
    case Send(data, w) => SendClosesOnce(c, data, w);
    case Transfer(data, w) => SendClosesOnce(c, data, w);
    case Shutdown =>
    case Retrieve(n) =>
  }

  lemma {:induction false} CallsCloseOnce(c: Conn, calls: seq<Call>)
    requires !c.phase.Connecting? && CallsLegal(c, calls)
    ensures ClosedOnce(c, DoCalls(c, calls)) && !DoCalls(c, calls).phase.Connecting?
    decreases |calls|
  {
    if calls == [] {
    } else {
      CallClosesOnce(c, calls[0]);
      CallsCloseOnce(DoCall(c, calls[0]), calls[1..]);
    }
  }

  lemma ErrorClosesOnce(c: Conn, ev: Events, io: PassIo)
    requires !c.phase.Connecting?
    ensures ClosedOnce(c, Pass2(c, ev, io)) && !Pass2(c, ev, io).phase.Connecting?
  {}

  lemma FatalClosesOnce(c: Conn, fatal: bool)
    requires !c.phase.Connecting?
    ensures ClosedOnce(c, HandleError(c, fatal)) && !HandleError(c, fatal).phase.Connecting?
  {}

  lemma ReadClosesOnce(c: Conn, ev: Events, io: PassIo)
    requires !c.phase.Connecting?
    ensures ClosedOnce(c, Pass3(c, ev, io)) && !Pass3(c, ev, io).phase.Connecting?
  {
    FatalClosesOnce(c, true);
    if Live(c) {
      assert HandleError(c, true) == HandleClose(c);
    }
  }

  lemma WriteClosesOnce(c: Conn, w: Outcome)
    requires !c.phase.Connecting? && WriteLegal(|c.out|, w)
    ensures ClosedOnce(c, HandleWrite(c, w))
  {}

  /** One event pass, for every mask, every outcome and whatever the callbacks call: it meets the
      assertion of handleClose if and only if it does not deliver a bare hang-up to a connection
      that is already closed; then it enters handleClose at most once. */
  lemma PassClosesOnce(c: Conn, ev: Events, io: PassIo)
    requires !c.phase.Connecting? && PassLegal(c, ev, io)
    ensures Pass(c, ev, io).faults == c.faults <==> !(ev.hup && !ev.in_ && c.phase.Disconnected?)
    ensures !(ev.hup && !ev.in_ && c.phase.Disconnected?) ==> ClosedOnce(c, Pass(c, ev, io))
    ensures ev.hup && !ev.in_ && c.phase.Disconnected? ==> Pass(c, ev, io).closes == c.closes + 1
  {
    var c0 := Pass1(c, ev);
    CallsCloseOnce(c0, io.afterClose);
    var c1 := DoCalls(c0, io.afterClose);
    ErrorClosesOnce(c1, ev, io);
    CallsCloseOnce(Pass2(c1, ev, io), io.afterError);
    var c2 := DoCalls(Pass2(c1, ev, io), io.afterError);
    ReadClosesOnce(c2, ev, io);
    CallsCloseOnce(Pass3(c2, ev, io), io.afterRead);
    var c3 := DoCalls(Pass3(c2, ev, io), io.afterRead);
    WriteClosesOnce(c3, io.write);
  }

  lemma {:induction false} CallsKeep(c: Conn, calls: seq<Call>)
    requires Inv(c) && CallsLegal(c, calls)
    ensures Inv(DoCalls(c, calls))
    decreases |calls|
  {
    if calls == [] {
    } else {
      CallKeeps(c, calls[0]);
      CallsKeep(DoCall(c, calls[0]), calls[1..]);
    }
  }

  /** A whole event pass keeps the invariant, unless it delivers a bare hang-up too late. */
  lemma PassKeeps(c: Conn, ev: Events, io: PassIo)
    requires Inv(c) && !c.phase.Connecting? && PassLegal(c, ev, io)
    requires ev.hup && !ev.in_ ==> Live(c)
    ensures Inv(Pass(c, ev, io))
  {
    var c0 := Pass1(c, ev);
    CloseKeeps(c, true);
    CallsKeep(c0, io.afterClose);
    CallsCloseOnce(c0, io.afterClose);
    var c1 := DoCalls(c0, io.afterClose);
    CloseKeeps(c1, io.fatal);
    ErrorClosesOnce(c1, ev, io);
    CallsKeep(Pass2(c1, ev, io), io.afterError);
    CallsCloseOnce(Pass2(c1, ev, io), io.afterError);
    var c2 := DoCalls(Pass2(c1, ev, io), io.afterError);
    ReadKeeps(c2, io.read);
    ReadClosesOnce(c2, ev, io);
    CallsKeep(Pass3(c2, ev, io), io.afterRead);
    CallsCloseOnce(Pass3(c2, ev, io), io.afterRead);
    WriteKeeps(DoCalls(Pass3(c2, ev, io), io.afterRead), io.write);
  }

  // A connection closed by a failed write, before its own event of the same batch is dispatched.
  lemma HangUpAfterClose(c: Conn)
    requires Fresh(c)
    ensures
      var ops := [Establish, Invoke(Send([0], Broken))];
      && Run(c, ops)
      && (var c' := Exec(c, ops);
          var ev := Events(true, false, false, false, false, false);
          var io := PassIo([], false, [], ReadAgain, [], Again);
          c'.phase.Disconnected? && PassLegal(c', ev, io) && Pass(c', ev, io).faults == 1 && Pass(c', ev, io).closes == 2)
  {
    var ops := [Establish, Invoke(Send([0], Broken))];
    var c1 := Do(c, ops[0]);
    assert ops[1..] == [Invoke(Send([0], Broken))];
    assert ops[1..][1..] == [];
    var c2 := Do(c1, ops[1]);
    assert Exec(c1, ops[1..]) == c2;
  }
}
