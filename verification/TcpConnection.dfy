/** The connection object: its channel, its buffers and its state, driven by system-call outcomes.
Each method is proved to act as the operation of the same name in `Connection`. */
module TcpConnections {
  import opened Buffers
  import opened Polling
  import Spec = Connection
  import opened Connection

  class TcpConnection {
    var state: Phase
    const channel: Channel
    var socketFd: int
    const inputBuffer: Buffer
    const outputBuffer: Buffer
    const highWaterMark: nat
    const hasHighWaterCallback: bool
    const hasWriteCompleteCallback: bool
    ghost var sent: seq<Byte>
    ghost var accepted: seq<Byte>
    ghost var received: seq<Byte>
    ghost var taken: seq<Byte>
    ghost var notices: seq<nat>
    ghost var completes: nat
    ghost var shutdowns: nat
    ghost var halfCloses: nat
    ghost var closes: nat
    ghost var fdCloses: nat

    ghost predicate Buffered()
      reads inputBuffer, outputBuffer
    {
      inputBuffer.Valid() && outputBuffer.Valid()
    }

    ghost predicate Valid()
      reads this, channel, channel.poller, channel.poller.channels.Values,
            inputBuffer, outputBuffer
    {
      && channel.Valid() && channel.Free() && Buffered()
      && inputBuffer != outputBuffer && inputBuffer.data != outputBuffer.data
      && channel.events == (if channel.IsReading() then READ else {}) + (if channel.IsWriting() then WRITE else {})
      && (state.Disconnected? ==> channel.events == {})
    }

    ghost function View(): Conn
      requires Buffered()
      reads this, channel, inputBuffer, outputBuffer, inputBuffer.data, outputBuffer.data
    {
      Conn(state, outputBuffer.Contents(), inputBuffer.Contents(),
           channel.IsReading(), channel.IsWriting(), channel.addedToLoop, socketFd >= 0,
           highWaterMark, hasHighWaterCallback, hasWriteCompleteCallback,
           sent, accepted, received, taken, notices, completes, shutdowns, halfCloses, closes, 0, fdCloses)
    }

    constructor (poller: Poller, sockfd: int, mark: nat, onHighWater: bool, onWriteComplete: bool)
      requires poller.Valid() && sockfd >= 0 && sockfd !in poller.channels
      ensures Valid() && Fresh(View()) && channel.poller == poller && channel.fd == sockfd
      ensures View().mark == mark && View().watchHigh == onHighWater && View().watchComplete == onWriteComplete
    {
      state, socketFd := Connecting, sockfd;
      channel := new Channel(poller, sockfd);
      inputBuffer := new Buffer(1024);
      outputBuffer := new Buffer(1024);
      highWaterMark, hasHighWaterCallback, hasWriteCompleteCallback := mark, onHighWater, onWriteComplete;
      sent, accepted, received, taken, notices := [], [], [], [], [];
      completes, shutdowns, halfCloses, closes, fdCloses := 0, 0, 0, 0, 0;
    }

    method ConnectEstablished()
      requires Valid() && state.Connecting?
      modifies this`state, channel, channel.poller
      ensures Valid() && View() == Spec.ConnectEstablished(old(View()))
    {
      state := Connected;
      channel.EnableReading();
    }

    // setState(kDisconnected) and disableAll
    method Deactivate()
      requires Valid()
      modifies this`state, channel, channel.poller
      ensures Valid() && View() == old(View()).(phase := Disconnected, reading := false, writing := false)
    {
      state := Disconnected;
      channel.DisableAll();
    }

    method HandleClose()
      requires Valid() && (state.Connected? || state.Disconnecting?)
      modifies this`state, this`closes, channel, channel.poller
      ensures Valid() && View() == Spec.HandleClose(old(View()))
    {
      Deactivate();
      closes := closes + 1;
    }

    method HandleError(fatal: bool)
      requires Valid()
      modifies this`state, this`closes, channel, channel.poller
      ensures Valid() && View() == Spec.HandleError(old(View()), fatal)
    {
      if !fatal {
        return;
      }
      if state.Connected? || state.Disconnecting? {
        HandleClose();
      }
    }

    // outputBuffer_.append
    method PutOutput(rest: seq<Byte>)
      requires Valid()
      modifies outputBuffer, outputBuffer.data
      ensures outputBuffer.data == old(outputBuffer.data) || fresh(outputBuffer.data)
      ensures Valid() && View() == old(View()).(out := old(View()).out + rest)
    {
      outputBuffer.Append(rest);
    }

    // outputBuffer_.retrieve, after the socket took the first `n` bytes
    method TakeOutput(n: nat)
      requires Valid() && n <= outputBuffer.ReadableBytes()
      modifies this`sent, outputBuffer
      ensures Valid() && View() == old(View()).(out := old(View()).out[n..], sent := old(View()).sent + old(View()).out[..n])
    {
      sent := sent + outputBuffer.Contents()[..n];
      outputBuffer.Retrieve(n);
    }

    method StartWriting()
      requires Valid() && !state.Disconnected?
      modifies channel, channel.poller
      ensures Valid() && View() == old(View()).(writing := true, registered := true)
    {
      if !channel.IsWriting() {
        channel.EnableWriting();
      }
    }

    method StopWriting()
      requires Valid()
      modifies channel, channel.poller
      ensures Valid() && View() == old(View()).(writing := false)
    {
      channel.DisableWriting();
    }

    // The callbacks that are queued as functors.
    method NoteHighWater(more: nat)
      requires Valid()
      modifies this`notices
      ensures Valid()
      ensures
        var c, len := old(View()), |old(View()).out| + more;
        View() == c.(notices := if len >= c.mark && |c.out| < c.mark && c.watchHigh then c.notices + [len] else c.notices)
    {
      var oldLen := outputBuffer.ReadableBytes();
      if oldLen + more >= highWaterMark && oldLen < highWaterMark && hasHighWaterCallback {
        notices := notices + [oldLen + more];
      }
    }

    method NoteComplete()
      requires Valid()
      modifies this`completes
      ensures Valid()
      ensures View() == old(View()).(completes := old(View()).completes + if hasWriteCompleteCallback then 1 else 0)
    {
      if hasWriteCompleteCallback {
        completes := completes + 1;
      }
    }

    // The socket took bytes that were never buffered.
    method NoteSent(bytes: seq<Byte>)
      requires Valid()
      modifies this`sent
      ensures Valid() && View() == old(View()).(sent := old(View()).sent + bytes)
    {
      sent := sent + bytes;
    }

    method QueueOutput(rest: seq<Byte>)
      requires Valid() && !state.Disconnected?
      modifies channel, channel.poller, outputBuffer, outputBuffer.data
      ensures outputBuffer.data == old(outputBuffer.data) || fresh(outputBuffer.data)
      ensures Valid()
      ensures View() == old(View()).(out := old(View()).out + rest, writing := true, registered := true)
    {
      PutOutput(rest);
      StartWriting();
    }

    // The tail of sendInLoop.
    method EnqueueOutput(rest: seq<Byte>)
      requires Valid() && !state.Disconnected?
      modifies this`notices, channel, channel.poller, outputBuffer, outputBuffer.data
      ensures outputBuffer.data == old(outputBuffer.data) || fresh(outputBuffer.data)
      ensures Valid() && View() == Enqueue(old(View()), rest)
    {
      if |rest| > 0 {
        NoteHighWater(|rest|);
        QueueOutput(rest);
      }
    }

    // The direct write of sendInLoop, tried when nothing is queued.
    method TryWrite(data: seq<Byte>, w: Outcome) returns (nwrote: nat, remaining: nat, faultError: bool)
      requires Valid() && WriteLegal(|data|, w) && !state.Disconnected?
      modifies this`sent, this`completes, this`state, this`closes, channel, channel.poller
      ensures Valid() && faultError == w.Broken?
      ensures w.Wrote? ==> nwrote == w.n && remaining == |data| - w.n
      ensures w.Wrote? ==>
        View() == old(View()).(sent := old(View()).sent + data[..w.n],
                               completes := old(View()).completes + if w.n == |data| && hasWriteCompleteCallback then 1 else 0)
      ensures w.Again? ==> nwrote == 0 && remaining == |data| && View() == old(View())
      ensures w.Broken? ==> remaining == 0 && View() == Spec.HandleError(old(View()), true)
    {
      nwrote, remaining, faultError := 0, |data|, false;
      match w
      case Wrote(n) =>
        nwrote := n;
        remaining := |data| - nwrote;
        NoteSent(data[..nwrote]);
        if remaining == 0 {
          NoteComplete();
        }
      case Again =>
      case Broken =>
        faultError := true;
        HandleError(true);
        remaining := 0;
    }

    // Records a message as accepted.
    method Accept(data: seq<Byte>)
      requires Valid()
      modifies this`accepted
      ensures Valid() && View() == old(View()).(accepted := old(View()).accepted + data)
    {
      accepted := accepted + data;
    }

    method SendInLoop(data: seq<Byte>, w: Outcome)
      requires Valid() && WriteLegal(|data|, w)
      modifies this, channel, channel.poller, outputBuffer, outputBuffer.data
      ensures outputBuffer.data == old(outputBuffer.data) || fresh(outputBuffer.data)
      ensures Valid() && View() == Spec.SendInLoop(old(View()), data, w)
    {
      if state.Disconnected? {
        return;
      }
      Accept(data);
      var nwrote, remaining, faultError := 0, |data|, false;
      if !channel.IsWriting() && outputBuffer.ReadableBytes() == 0 {
        nwrote, remaining, faultError := TryWrite(data, w);
      }
      if !faultError && remaining > 0 {
        EnqueueOutput(data[nwrote..]);
      }
    }

    method ShutdownInLoop()
      requires Valid()
      modifies this`halfCloses
      ensures Valid() && View() == Spec.ShutdownInLoop(old(View()))
    {
      if socketFd >= 0 && !channel.IsWriting() {
        halfCloses := halfCloses + 1;
      }
    }

    /** `send` of bytes. */
    method Send(data: seq<Byte>, w: Outcome)
      requires Valid() && WriteLegal(|data|, w)
      modifies this, channel, channel.poller, outputBuffer, outputBuffer.data
      ensures outputBuffer.data == old(outputBuffer.data) || fresh(outputBuffer.data)
      ensures Valid() && View() == DoCall(old(View()), Connection.Send(data, w))
    {
      if |data| == 0 {
        return;
      }
      if state.Connected? {
        SendInLoop(data, w);
      }
    }

    // retrieveAll on a buffer of the caller
    method EmptyForeign(buf: Buffer)
      requires Valid() && buf.Valid() && buf != inputBuffer && buf != outputBuffer
      modifies buf
      ensures Valid() && View() == old(View())
      ensures buf.Valid() && buf.Contents() == []
    {
      buf.RetrieveAll();
    }

    ghost method NoteTaken(bytes: seq<Byte>)
      requires Valid()
      modifies this`taken
      ensures Valid() && View() == old(View()).(taken := old(View()).taken + bytes)
    {
      taken := taken + bytes;
    }

    method ClearInput()
      requires Valid()
      modifies inputBuffer
      ensures Valid() && View() == old(View()).(input := [])
    {
      inputBuffer.RetrieveAll();
    }

    method DropInput(n: nat) returns (bytes: seq<Byte>)
      requires Valid() && n <= inputBuffer.ReadableBytes()
      modifies inputBuffer
      ensures Valid() && View() == old(View()).(input := old(View()).input[n..]) && bytes == old(View()).input[..n]
    {
      bytes := inputBuffer.RetrieveAsString(n);
    }

    // retrieveAll on the buffer a message callback receives
    method EmptyInput()
      requires Valid()
      modifies this`taken, inputBuffer
      ensures Valid() && View() == Emptied(old(View()))
    {
      NoteTaken(inputBuffer.Contents());
      ClearInput();
    }

    method SendForeign(buf: Buffer, w: Outcome)
      requires Valid() && buf.Valid() && WriteLegal(buf.ReadableBytes(), w) && state.Connected?
      requires buf != inputBuffer && buf != outputBuffer
      modifies this, channel, channel.poller, outputBuffer, outputBuffer.data, buf
      ensures outputBuffer.data == old(outputBuffer.data) || fresh(outputBuffer.data)
      ensures Valid() && View() == Spec.SendInLoop(old(View()), old(buf.Contents()), w)
      ensures buf.Valid() && buf.Contents() == []
    {
      var data := buf.Peek();
      SendInLoop(data, w);
      EmptyForeign(buf);
    }

    method SendInput(w: Outcome)
      requires Valid() && WriteLegal(inputBuffer.ReadableBytes(), w) && state.Connected?
      modifies this, channel, channel.poller, outputBuffer, outputBuffer.data, inputBuffer
      ensures outputBuffer.data == old(outputBuffer.data) || fresh(outputBuffer.data)
      ensures Valid() && View() == Emptied(Spec.SendInLoop(old(View()), old(View()).input, w))
    {
      var data := inputBuffer.Peek();
      SendInLoop(data, w);
      EmptyInput();
    }

    /** `send` of a buffer whose contents it takes over, be it a buffer of the caller or the input
        buffer that a message callback receives. */
    method SendBuffer(buf: Buffer, w: Outcome)
      requires Valid() && buf.Valid() && WriteLegal(buf.ReadableBytes(), w)
      requires buf != outputBuffer
      modifies this, channel, channel.poller, outputBuffer, outputBuffer.data, buf
      ensures outputBuffer.data == old(outputBuffer.data) || fresh(outputBuffer.data)
      ensures Valid() && buf.Valid()
      ensures !old(state).Connected? ==> View() == old(View()) && buf.Contents() == old(buf.Contents())
      ensures old(state).Connected? ==>
        var c := DoCall(old(View()), Transfer(old(buf.Contents()), w));
        buf.Contents() == [] && View() == if buf != inputBuffer then c else DoCall(c, Retrieve(|c.input|))
    {
      if state.Connected? {
        if buf == inputBuffer {
          RetrieveAllInput(DoCall(View(), Transfer(buf.Contents(), w)));
          SendInput(w);
        } else {
          SendForeign(buf, w);
        }
      }
    }

    method StartDisconnecting()
      requires Valid() && state.Connected?
      modifies this`state, this`shutdowns
      ensures Valid() && View() == old(View()).(phase := Disconnecting, shutdowns := old(View()).shutdowns + 1)
    {
      state := Disconnecting;
      shutdowns := shutdowns + 1;
    }

    method RequestShutdown()
      requires Valid()
      modifies this`state, this`shutdowns, this`halfCloses
      ensures Valid() && View() == DoCall(old(View()), Shutdown)
    {
      if state.Connected? {
        StartDisconnecting();
        ShutdownInLoop();
      }
    }

    // A message callback takes bytes from the input buffer.
    method RetrieveInput(n: nat) returns (bytes: seq<Byte>)
      requires Valid() && n <= inputBuffer.ReadableBytes()
      modifies this`taken, inputBuffer
      ensures Valid() && View() == DoCall(old(View()), Retrieve(n)) && bytes == old(View()).input[..n]
    {
      bytes := DropInput(n);
      NoteTaken(bytes);
    }

    // What handleWrite does once the output buffer has run empty.
    method OutputDrained()
      requires Valid()
      modifies this`completes, this`halfCloses, channel, channel.poller
      ensures Valid()
      ensures
        var c := old(View()).(writing := false,
                              completes := old(View()).completes + if hasWriteCompleteCallback then 1 else 0);
        View() == if state.Disconnecting? then Spec.ShutdownInLoop(c) else c
    {
      StopWriting();
      NoteComplete();
      if state.Disconnecting? {
        ShutdownInLoop();
      }
    }

    // The socket took the first `n` bytes of the output buffer.
    method WroteOutput(n: nat)
      requires Valid() && 0 < n <= outputBuffer.ReadableBytes() && channel.IsWriting() && !state.Disconnected?
      modifies this`sent, this`completes, this`halfCloses, channel, channel.poller, outputBuffer
      ensures Valid() && View() == Spec.HandleWrite(old(View()), Wrote(n))
    {
      TakeOutput(n);
      if outputBuffer.ReadableBytes() == 0 {
        OutputDrained();
      }
    }

    method HandleWrite(w: Outcome)
      requires Valid() && WriteLegal(outputBuffer.ReadableBytes(), w)
      modifies this, channel, channel.poller, outputBuffer
      ensures Valid() && View() == Spec.HandleWrite(old(View()), w)
    {
      if state.Disconnected? {
        return;
      }
      if channel.IsWriting() {
        if w.Wrote? && w.n > 0 {
          WroteOutput(w.n);
        } else {
          HandleError(!w.Again?);
        }
      }
    }

    method FillInput(r: ReadResult) returns (n: int)
      requires Valid() && Deliverable(inputBuffer.View(), r)
      modifies inputBuffer, inputBuffer.data
      ensures inputBuffer.data == old(inputBuffer.data) || fresh(inputBuffer.data)
      ensures r.Got? ==> n == |r.bytes|
      ensures r.Failed? ==> n < 0
      ensures Valid()
      ensures View() == old(View()).(input := old(View()).input + if r.Got? then r.bytes else [])
    {
      n := inputBuffer.ReadFd(r);
    }

    method NoteReceived(bytes: seq<Byte>)
      requires Valid()
      modifies this`received
      ensures Valid() && View() == old(View()).(received := old(View()).received + bytes)
    {
      received := received + bytes;
    }

    // inputBuffer_.readFd
    method ReadInput(r: Input) returns (n: int)
      requires Valid() && (r.Bytes? ==> Deliverable(inputBuffer.View(), Got(r.bytes)))
      modifies this`received, inputBuffer, inputBuffer.data
      ensures inputBuffer.data == old(inputBuffer.data) || fresh(inputBuffer.data)
      ensures r.Bytes? ==> n == |r.bytes|
      ensures !r.Bytes? ==> n < 0
      ensures Valid()
      ensures
        var more := if r.Bytes? then r.bytes else [];
        View() == old(View()).(input := old(View()).input + more, received := old(View()).received + more)
    {
      n := FillInput(if r.Bytes? then Got(r.bytes) else Failed);
      if n > 0 {
        NoteReceived(r.bytes);
      }
    }

    // End of stream closes; an error closes if it is fatal.
    method AfterRead(n: int, fatal: bool)
      requires Valid() && (state.Connected? || state.Disconnecting?)
      modifies this`state, this`closes, channel, channel.poller
      ensures Valid()
      ensures View() == if n == 0 then Spec.HandleClose(old(View()))
                        else if n < 0 then Spec.HandleError(old(View()), fatal) else old(View())
    {
      if n == 0 {
        HandleClose();
      } else if n < 0 {
        HandleError(fatal);
      }
    }

    method HandleRead(r: Input)
      requires Valid() && !state.Connecting?
      requires r.Bytes? ==> Deliverable(inputBuffer.View(), Got(r.bytes))
      modifies this, channel, channel.poller, inputBuffer, inputBuffer.data
      ensures inputBuffer.data == old(inputBuffer.data) || fresh(inputBuffer.data)
      ensures Valid() && View() == Spec.HandleRead(old(View()), r)
    {
      if state.Disconnected? {
        return;
      }
      ghost var c := View();
      var n := ReadInput(r);
      ReadParts(c, r);
      AfterRead(n, r.ReadBroken?);
    }

    method CloseSocket()
      modifies this`socketFd, this`fdCloses
      ensures socketFd < 0
      ensures fdCloses == old(fdCloses) + if old(socketFd) >= 0 then 1 else 0
    {
      if socketFd >= 0 {
        fdCloses := fdCloses + 1;
        socketFd := -1;
      }
    }

    method LeavePoller()
      requires Valid() && channel.events == {}
      modifies channel, channel.poller
      ensures Valid() && View() == old(View()).(registered := false)
      ensures channel.fd !in channel.poller.kernel
    {
      channel.Remove();
    }

    method ConnectDestroyed()
      requires Valid()
      modifies this, channel, channel.poller
      ensures Valid() && View() == Spec.ConnectDestroyed(old(View()))
      ensures channel.fd !in channel.poller.kernel
    {
      if !state.Disconnected? {
        Deactivate();
      }
      LeavePoller();
      CloseSocket();
    }
  }
}
