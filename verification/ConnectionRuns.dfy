/** The histories of a connection, read off its operations alone: what the socket took, what was
received and retrieved, when the phase moves; and an event pass as a run of operations. */
module ConnectionRuns {
  import opened Buffers
  import opened Connection
  import opened ConnectionProofs
  import opened Polling

  // ----- bytes out -----

  // How many bytes the write call of an operation reports, if the operation makes one: a send on a
  // connected connection with nothing buffered, or a writable event with something buffered.
  function Took(c: Conn, op: Op): nat
  {
    match op
    case Invoke(Send(data, Wrote(n))) => if c.phase.Connected? && c.out == [] && data != [] then n else 0
    case Invoke(Transfer(_, Wrote(n))) => if c.phase.Connected? && c.out == [] then n else 0
    case Writable(Wrote(n)) => if Live(c) && c.out != [] then n else 0
    case _ => 0
  }

  ghost function TookAll(c: Conn, ops: seq<Op>): nat
    requires Run(c, ops)
    decreases |ops|
  {
    if ops == [] then 0 else Took(c, ops[0]) + TookAll(Do(c, ops[0]), ops[1..])
  }

  lemma SendTook(c: Conn, data: seq<Byte>, w: Outcome)
    requires Inv(c) && c.phase.Connected? && WriteLegal(|data|, w)
    ensures |SendInLoop(c, data, w).sent| == |c.sent| + if c.out == [] && w.Wrote? then w.n else 0
  {}

  lemma StepTook(c: Conn, op: Op)
    requires Inv(c) && Enabled(c, op)
    ensures |Do(c, op).sent| == |c.sent| + Took(c, op)
  {
    if op.Invoke? && (op.call.Send? || op.call.Transfer?) && c.phase.Connected? {
      SendTook(c, op.call.data, op.call.w);
    }
  }

  lemma {:induction false} SentIsTook(c: Conn, ops: seq<Op>)
    requires Inv(c) && Run(c, ops)
    ensures |Exec(c, ops).sent| == |c.sent| + TookAll(c, ops)
    decreases |ops|
  {
    if ops == [] {
    } else {
      StepTook(c, ops[0]);
      StepKeeps(c, ops[0]);
      SentIsTook(Do(c, ops[0]), ops[1..]);
    }
  }

  /** The output buffer of a live connection, over every run: all data sent while connected, without
      as many bytes from the front as the write calls reported. */
  lemma BufferIsBacklog(c: Conn, ops: seq<Op>)
    requires Fresh(c) && Run(c, ops)
    ensures
      var c' := Exec(c, ops);
      && TookAll(c, ops) <= |Offered(c, ops)|
      && c'.sent == Offered(c, ops)[..TookAll(c, ops)]
      && (Live(c') ==> c'.out == Offered(c, ops)[TookAll(c, ops)..])
  {
    StreamPreserved(c, ops);
    SentIsTook(c, ops);
  }

  // ----- bytes in -----

  function Arrived(c: Conn, op: Op): seq<Byte>
  {
    if op.Readable? && op.r.Bytes? && !c.phase.Disconnected? then op.r.bytes else []
  }

  ghost function ArrivedAll(c: Conn, ops: seq<Op>): seq<Byte>
    requires Run(c, ops)
    decreases |ops|
  {
    if ops == [] then [] else Arrived(c, ops[0]) + ArrivedAll(Do(c, ops[0]), ops[1..])
  }

  function Retrieved(op: Op): nat
  {
    if op.Invoke? && op.call.Retrieve? then op.call.n else 0
  }

  function RetrievedAll(ops: seq<Op>): nat
  {
    if ops == [] then 0 else Retrieved(ops[0]) + RetrievedAll(ops[1..])
  }

  ghost predicate SameInput(c: Conn, c': Conn)
  {
    c'.received == c.received && c'.taken == c.taken
  }

  lemma EnqueueInput(c: Conn, rest: seq<Byte>)
    ensures SameInput(c, Enqueue(c, rest))
  {}

  lemma DirectInput(c: Conn, data: seq<Byte>, n: nat)
    requires n <= |data| && c.out == [] && !c.writing
    ensures SameInput(c, SendInLoop(c, data, Wrote(n)))
  {
    if !c.phase.Disconnected? {
      EnqueueInput(c.(accepted := c.accepted + data, sent := c.sent + data[..n],
                      completes := if n == |data| && c.watchComplete then c.completes + 1 else c.completes), data[n..]);
    }
  }

  lemma SendInput(c: Conn, data: seq<Byte>, w: Outcome)
    requires WriteLegal(|data|, w)
    ensures SameInput(c, SendInLoop(c, data, w))
  {
    if w.Wrote? && c.out == [] && !c.writing {
      DirectInput(c, data, w.n);
    } else {
      EnqueueInput(c.(accepted := c.accepted + data), data);
    }
  }

  lemma DrainedInput(c: Conn, n: nat)
    requires 0 < n <= |c.out|
    ensures SameInput(c, HandleWrite(c, Wrote(n)))
  {}

  lemma WriteInput(c: Conn, w: Outcome)
    requires WriteLegal(|c.out|, w)
    ensures SameInput(c, HandleWrite(c, w))
  {
    if w.Wrote? && w.n > 0 {
      DrainedInput(c, w.n);
    }
  }

  lemma ReadInput(c: Conn, r: Input)
    ensures HandleRead(c, r).received == c.received + Arrived(c, Readable(r)) && HandleRead(c, r).taken == c.taken
  {}

  lemma CallInput(c: Conn, call: Call)
    requires CallLegal(c, call)
    ensures DoCall(c, call).received == c.received && |DoCall(c, call).taken| == |c.taken| + Retrieved(Invoke(call))
  {
    if call.Send? || call.Transfer? {
      SendInput(c, call.data, call.w);
    }
  }

  lemma StepInput(c: Conn, op: Op)
    requires Enabled(c, op)
    ensures Do(c, op).received == c.received + Arrived(c, op)
    ensures |Do(c, op).taken| == |c.taken| + Retrieved(op)
  {
    match op
    case Invoke(call) => CallInput(c, call);
    case Writable(w) => WriteInput(c, w);
    case Readable(r) => ReadInput(c, r);
    case _ =>
  }

  lemma {:induction false} RunInput(c: Conn, ops: seq<Op>)
    requires Run(c, ops)
    ensures Exec(c, ops).received == c.received + ArrivedAll(c, ops)
    ensures |Exec(c, ops).taken| == |c.taken| + RetrievedAll(ops)
    decreases |ops|
  {
    if ops == [] {
    } else {
      StepInput(c, ops[0]);
      RunInput(Do(c, ops[0]), ops[1..]);
      Glue(c.received, Arrived(c, ops[0]), ArrivedAll(Do(c, ops[0]), ops[1..]));
    }
  }

  /** The input buffer, over every run: all bytes read before the close, without as many from the
      front as the user retrieved. */
  lemma InputIsUnread(c: Conn, ops: seq<Op>)
    requires Fresh(c) && Run(c, ops)
    ensures RetrievedAll(ops) <= |ArrivedAll(c, ops)|
    ensures Exec(c, ops).input == ArrivedAll(c, ops)[RetrievedAll(ops)..]
  {
    RunInput(c, ops);
    RunKeeps(c, ops);
    var c' := Exec(c, ops);
    assert [] + ArrivedAll(c, ops) == ArrivedAll(c, ops);
    assert c'.taken + c'.input == ArrivedAll(c, ops);
  }

  // ----- when the phase moves -----

  // The operation reports the end of the connection: end of stream, a fatal error, or a hang-up.
  predicate Fatal(c: Conn, op: Op)
  {
    match op
    case HangUp => true
    case Failure(fatal) => fatal
    case Readable(r) => r == Bytes([]) || r.ReadBroken?
    case Writable(w) => c.out != [] && (w.Broken? || w == Wrote(0))
    case Invoke(Send(data, w)) => c.phase.Connected? && c.out == [] && data != [] && w.Broken?
    case Invoke(Transfer(_, w)) => c.phase.Connected? && c.out == [] && w.Broken?
    case _ => false
  }

  lemma SendPhase(c: Conn, data: seq<Byte>, w: Outcome)
    requires Inv(c) && c.phase.Connected? && WriteLegal(|data|, w)
    ensures SendInLoop(c, data, w).phase == if c.out == [] && w.Broken? then Disconnected else Connected
    ensures SendInLoop(c, data, w).shutdowns == c.shutdowns
  {}

  function NextPhase(c: Conn, op: Op): Phase
  {
    if op.Destroy? || (Live(c) && Fatal(c, op)) then Disconnected
    else if op.Establish? then Connected
    else if op == Invoke(Shutdown) && c.phase.Connected? then Disconnecting
    else c.phase
  }

  ghost predicate Moved(c: Conn, op: Op, c': Conn)
  {
    && c'.phase == NextPhase(c, op)
    && c'.shutdowns == c.shutdowns + (if op == Invoke(Shutdown) && c.phase.Connected? then 1 else 0)
    && c'.closes == c.closes + if Live(c) && Fatal(c, op) then 1 else 0
  }

  lemma CallMoves(c: Conn, call: Call)
    requires Inv(c) && CallLegal(c, call)
    ensures Moved(c, Invoke(call), DoCall(c, call))
  {
    if (call.Send? || call.Transfer?) && c.phase.Connected? {
      SendPhase(c, call.data, call.w);
      SendClosesOnce(c, call.data, call.w);
    }
  }

  lemma WriteMoves(c: Conn, w: Outcome)
    requires Inv(c) && !c.phase.Connecting? && WriteLegal(|c.out|, w)
    ensures Moved(c, Writable(w), HandleWrite(c, w))
  {}

  lemma ReadMoves(c: Conn, r: Input)
    requires Inv(c) && !c.phase.Connecting?
    ensures Moved(c, Readable(r), HandleRead(c, r))
  {}

  /** The phase moves exactly as follows: a live connection closes on a fatal operation and on nothing
      else, so a transient error leaves it open; shutdown takes effect on a connected connection and on
      no other; establishing and destroying do what they say. */
  lemma PhaseMoves(c: Conn, op: Op)
    requires Inv(c) && Enabled(c, op)
    ensures Moved(c, op, Do(c, op))
  {
    match op
    case Invoke(call) => CallMoves(c, call);
    case Writable(w) => WriteMoves(c, w);
    case Readable(r) => ReadMoves(c, r);
    case _ =>
  }

  ghost predicate ClosedIn(c: Conn, ops: seq<Op>)
    requires Run(c, ops)
    decreases |ops|
  {
    ops != [] && (ops[0].Destroy? || (Live(c) && Fatal(c, ops[0])) || ClosedIn(Do(c, ops[0]), ops[1..]))
  }

  /** Over every run a connection is disconnected if and only if it was destroyed or a fatal operation
      reached it while it was live. */
  lemma {:induction false} DisconnectedIff(c: Conn, ops: seq<Op>)
    requires Inv(c) && Run(c, ops)
    ensures Exec(c, ops).phase.Disconnected? <==> c.phase.Disconnected? || ClosedIn(c, ops)
    decreases |ops|
  {
    if ops == [] {
    } else {
      PhaseMoves(c, ops[0]);
      StepKeeps(c, ops[0]);
      DisconnectedIff(Do(c, ops[0]), ops[1..]);
    }
  }

  ghost predicate ShutIn(c: Conn, ops: seq<Op>)
    requires Run(c, ops)
    decreases |ops|
  {
    ops != [] && ((ops[0] == Invoke(Shutdown) && c.phase.Connected?) || ShutIn(Do(c, ops[0]), ops[1..]))
  }

  lemma {:induction false} ShutdownsCounted(c: Conn, ops: seq<Op>)
    requires Inv(c) && Run(c, ops)
    ensures Exec(c, ops).shutdowns > 0 <==> c.shutdowns > 0 || ShutIn(c, ops)
    decreases |ops|
  {
    if ops == [] {
    } else {
      PhaseMoves(c, ops[0]);
      StepKeeps(c, ops[0]);
      ShutdownsCounted(Do(c, ops[0]), ops[1..]);
    }
  }

  /** Shutdown, over every run: a request made while connected is never forgotten. Unless the
      connection closes first, it is half-closed exactly when the write calls have reported all the
      data sent before; without a request it never is. */
  lemma HalfCloseIff(c: Conn, ops: seq<Op>)
    requires Fresh(c) && Run(c, ops)
    ensures
      var c' := Exec(c, ops);
      && (Live(c') ==> (c'.halfCloses == 1 <==> ShutIn(c, ops) && TookAll(c, ops) == |Offered(c, ops)|))
      && (!ShutIn(c, ops) ==> c'.halfCloses == 0)
  {
    RunKeeps(c, ops);
    ShutdownsCounted(c, ops);
    BufferIsBacklog(c, ops);
    ShutdownReachesSocket(c, ops);
  }

  // ----- an event pass is a run -----

  lemma {:induction false} RunAppend(c: Conn, a: seq<Op>, b: seq<Op>)
    requires Run(c, a) && Run(Exec(c, a), b)
    ensures Run(c, a + b) && Exec(c, a + b) == Exec(Exec(c, a), b)
    decreases |a|
  {
    if a == [] {
      assert a + b == b;
    } else {
      RunAppend(Do(c, a[0]), a[1..], b);
      assert (a + b)[0] == a[0] && (a + b)[1..] == a[1..] + b;
    }
  }

  lemma RunOne(c: Conn, op: Op)
    requires Enabled(c, op)
    ensures Run(c, [op]) && Exec(c, [op]) == Do(c, op)
  {
    assert [op][1..] == [];
    assert Run(Do(c, op), []) && Exec(Do(c, op), []) == Do(c, op);
  }

  function Invokes(calls: seq<Call>): seq<Op>
  {
    if calls == [] then [] else [Invoke(calls[0])] + Invokes(calls[1..])
  }

  lemma {:induction false} CallsAreRun(c: Conn, calls: seq<Call>)
    requires CallsLegal(c, calls)
    ensures Run(c, Invokes(calls)) && Exec(c, Invokes(calls)) == DoCalls(c, calls)
    decreases |calls|
  {
    if calls == [] {
    } else {
      assert Invokes(calls)[1..] == Invokes(calls[1..]);
      CallsAreRun(DoCall(c, calls[0]), calls[1..]);
    }
  }

  // The operation an event brings, if the mask has it.
  function Maybe(b: bool, op: Op): seq<Op>
  {
    if b then [op] else []
  }

  lemma MaybeRuns(c: Conn, b: bool, op: Op, calls: seq<Call>, c1: Conn)
    requires b ==> Enabled(c, op)
    requires c1 == (if b then Do(c, op) else c) && CallsLegal(c1, calls)
    ensures Run(c, Maybe(b, op) + Invokes(calls)) && Exec(c, Maybe(b, op) + Invokes(calls)) == DoCalls(c1, calls)
  {
    if b {
      RunOne(c, op);
    }
    CallsAreRun(c1, calls);
    RunAppend(c, Maybe(b, op), Invokes(calls));
  }

  // What one pass delivers, in the order of the source: hang-up, error, input, output, each followed
  // by the calls its callback makes.
  function PassOps(ev: Events, io: PassIo): seq<Op>
  {
    (Maybe(ev.hup && !ev.in_, HangUp) + Invokes(io.afterClose)) +
    ((Maybe(ev.err, Failure(io.fatal)) + Invokes(io.afterError)) +
     ((Maybe(ev.in_ || ev.pri || ev.rdhup, Readable(io.read)) + Invokes(io.afterRead)) +
      Maybe(ev.out, Writable(io.write))))
  }

  /** A pass that brings no late hang-up is a run of the operations its mask asks for: EPOLLOUT reaches
      the write handler, each of EPOLLIN, EPOLLPRI and EPOLLRDHUP the read handler, EPOLLERR the error
      handler. So what holds over every run holds across event passes. */
  lemma PassIsRun(c: Conn, ev: Events, io: PassIo)
    requires !c.phase.Connecting? && PassLegal(c, ev, io)
    requires ev.hup && !ev.in_ ==> Live(c)
    ensures Run(c, PassOps(ev, io)) && Exec(c, PassOps(ev, io)) == Pass(c, ev, io)
  {
    var p1 := Pass1(c, ev);
    var c1 := DoCalls(p1, io.afterClose);
    var p2 := Pass2(c1, ev, io);
    var c2 := DoCalls(p2, io.afterError);
    var p3 := Pass3(c2, ev, io);
    var c3 := DoCalls(p3, io.afterRead);
    CallsCloseOnce(p1, io.afterClose);
    ErrorClosesOnce(c1, ev, io);
    CallsCloseOnce(p2, io.afterError);
    ReadClosesOnce(c2, ev, io);
    CallsCloseOnce(p3, io.afterRead);
    MaybeRuns(c, ev.hup && !ev.in_, HangUp, io.afterClose, p1);
    MaybeRuns(c1, ev.err, Failure(io.fatal), io.afterError, p2);
    MaybeRuns(c2, ev.in_ || ev.pri || ev.rdhup, Readable(io.read), io.afterRead, p3);
    LastRuns(c3, ev.out, io.write);
    ChainRuns(c, Maybe(ev.hup && !ev.in_, HangUp) + Invokes(io.afterClose), c1,
              Maybe(ev.err, Failure(io.fatal)) + Invokes(io.afterError), c2,
              Maybe(ev.in_ || ev.pri || ev.rdhup, Readable(io.read)) + Invokes(io.afterRead), c3,
              Maybe(ev.out, Writable(io.write)));
  }

  lemma LastRuns(c: Conn, b: bool, w: Outcome)
    requires !c.phase.Connecting? && WriteLegal(|c.out|, w)
    ensures Run(c, Maybe(b, Writable(w))) && Exec(c, Maybe(b, Writable(w))) == if b then HandleWrite(c, w) else c
  {
    if b {
      RunOne(c, Writable(w));
    }
  }

  lemma ChainRuns(c: Conn, a: seq<Op>, c1: Conn, b: seq<Op>, c2: Conn, d: seq<Op>, c3: Conn, e: seq<Op>)
    requires Run(c, a) && Exec(c, a) == c1 && Run(c1, b) && Exec(c1, b) == c2
    requires Run(c2, d) && Exec(c2, d) == c3 && Run(c3, e)
    ensures Run(c, a + (b + (d + e))) && Exec(c, a + (b + (d + e))) == Exec(c3, e)
  {
    RunAppend(c2, d, e);
    RunAppend(c1, b, d + e);
    RunAppend(c, a, b + (d + e));
  }

  // ----- interest and handlers -----

  function EventsOf(flags: set<Flag>): Events
  {
    Events(Hup in flags, In in flags, Err in flags, Pri in flags, RdHup in flags, Out in flags)
  }

  lemma {:induction false} InvokesOnly(calls: seq<Call>, op: Op)
    requires op in Invokes(calls)
    ensures op.Invoke?
    decreases |calls|
  {
    if op == Invoke(calls[0]) {
    } else {
      InvokesOnly(calls[1..], op);
    }
  }

  /** What a channel asks for is what reaches its handlers: a reported event of the read interest, or a
      peer's half-close, runs the read handler, and exactly the write interest runs the write handler. */
  lemma InterestReachesHandlers(flags: set<Flag>, io: PassIo)
    ensures Readable(io.read) in PassOps(EventsOf(flags), io) <==> flags * (READ + {RdHup}) != {}
    ensures Writable(io.write) in PassOps(EventsOf(flags), io) <==> flags * WRITE != {}
  {
    var ev := EventsOf(flags);
    forall op | op in Invokes(io.afterClose) || op in Invokes(io.afterError) || op in Invokes(io.afterRead)
      ensures op.Invoke?
    {
      if op in Invokes(io.afterClose) {
        InvokesOnly(io.afterClose, op);
      } else if op in Invokes(io.afterError) {
        InvokesOnly(io.afterError, op);
      } else {
        InvokesOnly(io.afterRead, op);
      }
    }
    assert flags * WRITE != {} <==> Out in flags by {
      assert Out in flags ==> Out in flags * WRITE;
    }
    assert flags * (READ + {RdHup}) != {} <==> In in flags || Pri in flags || RdHup in flags by {
      var both := flags * (READ + {RdHup});
      assert In in flags ==> In in both;
      assert Pri in flags ==> Pri in both;
      assert RdHup in flags ==> RdHup in both;
    }
  }
}
