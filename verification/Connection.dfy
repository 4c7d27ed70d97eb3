/** One TCP connection on its loop thread: the output path, half-close, and the close states.

System calls are parameters: `Outcome` is what `write` or `read` returned. A handler does nothing
after the user callback it ends with, so calls made by callbacks are further operations.
*/
module Connection {
  import opened Buffers

  datatype Phase = Connecting | Connected | Disconnecting | Disconnected

  // EAGAIN, EWOULDBLOCK and EINTR are `Again`; any other failure is `Broken`.
  datatype Outcome = Wrote(n: nat) | Again | Broken

  datatype Input = Bytes(bytes: seq<Byte>) | ReadAgain | ReadBroken

  datatype Conn = Conn(
    phase: Phase,
    out: seq<Byte>,           // output buffer
    input: seq<Byte>,         // input buffer
    reading: bool,
    writing: bool,            // write interest
    registered: bool,         // the channel is in the poller
    open: bool,               // the socket descriptor is open
    mark: nat,                // high-water mark
    watchHigh: bool,          // a high-water callback is set
    watchComplete: bool,      // a write-complete callback is set
    // history
    sent: seq<Byte>,          // bytes the socket took
    accepted: seq<Byte>,      // bytes passed to sendInLoop while not disconnected
    received: seq<Byte>,      // bytes read
    taken: seq<Byte>,         // bytes the user retrieved from the input buffer
    notices: seq<nat>,        // high-water notifications queued
    completes: nat,           // write-complete notifications queued
    shutdowns: nat,           // shutdown requests that took effect
    halfCloses: nat,          // shutdownWrite calls
    closes: nat,              // entries of handleClose
    faults: nat,              // entries of handleClose that violate its assertion
    fdCloses: nat)            // close calls on the descriptor

  predicate Live(c: Conn)
  {
    c.phase.Connected? || c.phase.Disconnecting?
  }

  predicate Fresh(c: Conn)
  {
    && c.phase.Connecting? && c.out == [] && c.input == []
    && !c.reading && !c.writing && !c.registered && c.open
    && c.sent == [] && c.accepted == [] && c.received == [] && c.taken == [] && c.notices == []
    && c.completes == 0 && c.shutdowns == 0 && c.halfCloses == 0 && c.closes == 0 && c.faults == 0 && c.fdCloses == 0
  }

  // ----- handlers -----

  function HandleClose(c: Conn): Conn
  {
    c.(phase := Disconnected, reading := false, writing := false,
       closes := c.closes + 1, faults := if Live(c) then c.faults else c.faults + 1)
  }

  // handleError(err): transient errors are ignored, others close a live connection.
  function HandleError(c: Conn, fatal: bool): Conn
  {
    if fatal && Live(c) then HandleClose(c) else c
  }

  // The tail of sendInLoop: queue what the socket did not take.
  function Enqueue(c: Conn, rest: seq<Byte>): Conn
  {
    if rest == [] then c
    else
      var len := |c.out| + |rest|;
      c.(notices := if len >= c.mark && |c.out| < c.mark && c.watchHigh then c.notices + [len] else c.notices,
         out := c.out + rest,
         writing := true, registered := true)
  }

  predicate WriteLegal(len: nat, w: Outcome)
  {
    w.Wrote? ==> w.n <= len
  }

  function SendInLoop(c: Conn, data: seq<Byte>, w: Outcome): Conn
    requires WriteLegal(|data|, w)
  {
    if c.phase.Disconnected? then c
    else
      var c1 := c.(accepted := c.accepted + data);
      if !c.writing && c.out == [] then
        match w
        case Wrote(n) =>
          Enqueue(c1.(sent := c.sent + data[..n],
                      completes := if n == |data| && c.watchComplete then c.completes + 1 else c.completes), data[n..])
        case Again => Enqueue(c1, data)
        case Broken => HandleError(c1, true)
      else Enqueue(c1, data)
  }

  function ShutdownInLoop(c: Conn): Conn
  {
    if c.open && !c.writing then c.(halfCloses := c.halfCloses + 1) else c
  }

  function HandleWrite(c: Conn, w: Outcome): Conn
    requires WriteLegal(|c.out|, w)
  {
    if c.phase.Disconnected? || !c.writing then c
    else
      match w
      case Again => c
      case Broken => HandleError(c, true)
      case Wrote(n) =>
        if n == 0 then HandleError(c, true)
        else
          var c1 := c.(out := c.out[n..], sent := c.sent + c.out[..n]);
          if c1.out != [] then c1
          else
            var c2 := c1.(writing := false, completes := if c.watchComplete then c.completes + 1 else c.completes);
            if c2.phase.Disconnecting? then ShutdownInLoop(c2) else c2
  }

  function HandleRead(c: Conn, r: Input): Conn
  {
    if c.phase.Disconnected? then c
    else
      match r
      case Bytes(bytes) =>
        if bytes == [] then HandleClose(c)
        else c.(input := c.input + bytes, received := c.received + bytes)
      case ReadAgain => c
      case ReadBroken => HandleError(c, true)
  }

  // A read handler first buffers what arrived, then looks at the result.
  lemma ReadParts(c: Conn, r: Input)
    requires !c.phase.Disconnected?
    ensures
      var more := if r.Bytes? then r.bytes else [];
      var c1 := c.(input := c.input + more, received := c.received + more);
      HandleRead(c, r) == if r == Bytes([]) then HandleClose(c1) else if r.Bytes? then c1 else HandleError(c1, r.ReadBroken?)
  {
    assert c.input + [] == c.input && c.received + [] == c.received;
  }

  function ConnectEstablished(c: Conn): Conn
  {
    c.(phase := Connected, reading := true, registered := true)
  }

  function ConnectDestroyed(c: Conn): Conn
  {
    var c1 := if c.phase.Disconnected? then c
              else c.(phase := Disconnected, reading := false, writing := false);
    c1.(registered := false, open := false, fdCloses := if c.open then c.fdCloses + 1 else c.fdCloses)
  }

  // ----- calls of the user, on the loop thread or carried there by a functor -----

  datatype Call =
    | Send(data: seq<Byte>, w: Outcome)
    | Transfer(data: seq<Byte>, w: Outcome)   // send(Buffer*), which also passes on an empty buffer
    | Shutdown
    | Retrieve(n: nat)

  predicate CallLegal(c: Conn, call: Call)
  {
    match call
    case Send(data, w) => WriteLegal(|data|, w)
    case Transfer(data, w) => WriteLegal(|data|, w)
    case Shutdown => true
    case Retrieve(n) => n <= |c.input|
  }

  function DoCall(c: Conn, call: Call): Conn
    requires CallLegal(c, call)
  {
    match call
    case Send(data, w) => if data != [] && c.phase.Connected? then SendInLoop(c, data, w) else c
    case Transfer(data, w) => if c.phase.Connected? then SendInLoop(c, data, w) else c
    case Shutdown =>
      if c.phase.Connected? then
        ShutdownInLoop(c.(phase := Disconnecting, shutdowns := c.shutdowns + 1))
      else c
    case Retrieve(n) => c.(input := c.input[n..], taken := c.taken + c.input[..n])
  }

  // retrieveAll on the input buffer
  function Emptied(c: Conn): Conn
  {
    c.(input := [], taken := c.taken + c.input)
  }

  lemma RetrieveAllInput(c: Conn)
    ensures DoCall(c, Retrieve(|c.input|)) == Emptied(c)
  {
    assert c.input[|c.input|..] == [] && c.input[..|c.input|] == c.input;
  }

  // ----- operations -----

  datatype Op =
    | Establish
    | Invoke(call: Call)
    | Readable(r: Input)
    | Writable(w: Outcome)
    | HangUp                 // EPOLLHUP without EPOLLIN: handleClose with no guard
    | Failure(fatal: bool)   // EPOLLERR
    | Destroy

  predicate Enabled(c: Conn, op: Op)
  {
    match op
    case Establish => c.phase.Connecting? && c.open
    case Invoke(call) => CallLegal(c, call)
    case Readable(_) => !c.phase.Connecting?
    case Writable(w) => !c.phase.Connecting? && WriteLegal(|c.out|, w)
    case HangUp => Live(c)
    case Failure(_) => !c.phase.Connecting?
    case Destroy => true
  }

  function Do(c: Conn, op: Op): Conn
    requires Enabled(c, op)
  {
    match op
    case Establish => ConnectEstablished(c)
    case Invoke(call) => DoCall(c, call)
    case Readable(r) => HandleRead(c, r)
    case Writable(w) => HandleWrite(c, w)
    case HangUp => HandleClose(c)
    case Failure(fatal) => HandleError(c, fatal)
    case Destroy => ConnectDestroyed(c)
  }

  ghost predicate Run(c: Conn, ops: seq<Op>)
    decreases |ops|
  {
    ops == [] || (Enabled(c, ops[0]) && Run(Do(c, ops[0]), ops[1..]))
  }

  ghost function Exec(c: Conn, ops: seq<Op>): Conn
    requires Run(c, ops)
    decreases |ops|
  {
    if ops == [] then c else Exec(Do(c, ops[0]), ops[1..])
  }
}
