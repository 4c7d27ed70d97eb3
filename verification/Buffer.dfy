/** The byte buffer: a growing, compacting array that stands for a plain byte sequence. */
module Buffers {
  newtype Byte = x: int | 0 <= x < 256

  const CHEAP_PREPEND: nat := 8
  const SPILL: nat := 65536

  // What `readv` delivers.
  datatype ReadResult = Failed | Got(bytes: seq<Byte>)

  // A buffer as its assertions see it: the contents, where they start, and the size of the vector.
  datatype Layout = Layout(contents: seq<Byte>, reader: nat, capacity: nat)

  predicate Fits(l: Layout)
  {
    l.reader + |l.contents| <= l.capacity && CHEAP_PREPEND <= l.capacity
  }

  function TailRoom(l: Layout): nat
    requires Fits(l)
  {
    l.capacity - l.reader - |l.contents|
  }

  // Room for `len` more bytes: nothing to do, or a larger vector, or the contents at the front.
  function WithRoom(l: Layout, len: nat): (r: Layout)
    requires Fits(l)
    ensures Fits(r) && TailRoom(r) >= len && r.contents == l.contents
    ensures r.reader == l.reader || r.reader == CHEAP_PREPEND < l.reader
  {
    if TailRoom(l) >= len then l
    else if TailRoom(l) + l.reader < len + CHEAP_PREPEND then l.(capacity := l.reader + |l.contents| + len)
    else l.(reader := CHEAP_PREPEND)
  }

  /** The vector grows exactly when the new bytes would not fit with the contents at the front, and
      otherwise the contents move only if the tail is too short. */
  lemma GrowsIff(l: Layout, len: nat)
    requires Fits(l)
    ensures WithRoom(l, len).capacity > l.capacity <==> CHEAP_PREPEND + |l.contents| + len > l.capacity && TailRoom(l) < len
    ensures WithRoom(l, len).capacity <= l.capacity ==> WithRoom(l, len).capacity == l.capacity
    ensures WithRoom(l, len).reader != l.reader ==> TailRoom(l) < len && CHEAP_PREPEND + |l.contents| + len <= l.capacity
  {}

  function Appended(l: Layout, bytes: seq<Byte>): (r: Layout)
    requires Fits(l)
    ensures Fits(r)
  {
    WithRoom(l, |bytes|).(contents := l.contents + bytes)
  }

  // What `readv` can deliver in one call: the tail, and the spill buffer unless the tail is larger.
  predicate Deliverable(l: Layout, r: ReadResult)
    requires Fits(l)
  {
    r.Got? ==> |r.bytes| <= TailRoom(l) + if TailRoom(l) < SPILL then SPILL else 0
  }

  // The tail takes what it can; the rest arrives by way of the spill buffer.
  function Scattered(l: Layout, bytes: seq<Byte>): (r: Layout)
    requires Fits(l)
    ensures Fits(r) && r.contents == l.contents + bytes
  {
    var w := TailRoom(l);
    if |bytes| <= w then l.(contents := l.contents + bytes)
    else
      assert bytes == bytes[..w] + bytes[w..];
      Appended(l.(contents := l.contents + bytes[..w]), bytes[w..])
  }

  class Buffer {
    var data: array<Byte>
    var readerIndex: nat
    var writerIndex: nat

    ghost predicate Valid()
      reads this
    {
      readerIndex <= writerIndex <= data.Length && CHEAP_PREPEND <= data.Length
    }

    ghost function Contents(): seq<Byte>
      requires Valid()
      reads this, data
    {
      data[readerIndex..writerIndex]
    }

    ghost function View(): (l: Layout)
      requires Valid()
      reads this, data
      ensures Fits(l) && TailRoom(l) == WritableBytes()
    {
      Layout(Contents(), readerIndex, data.Length)
    }

    constructor (initialSize: nat)
      ensures Valid() && fresh(data)
      ensures View() == Layout([], CHEAP_PREPEND, CHEAP_PREPEND + initialSize)
    {
      data := new Byte[CHEAP_PREPEND + initialSize];
      readerIndex, writerIndex := CHEAP_PREPEND, CHEAP_PREPEND;
    }

    function ReadableBytes(): (n: nat)
      requires Valid()
      reads this, data
      ensures n == |Contents()|
    {
      writerIndex - readerIndex
    }

    function WritableBytes(): nat
      requires Valid()
      reads this
    {
      data.Length - writerIndex
    }

    /** Bytes before the contents that `Prepend` may use. */
    function PrependableBytes(): nat
      reads this
    {
      readerIndex
    }

    method Peek() returns (bytes: seq<Byte>)
      requires Valid()
      ensures bytes == Contents()
    {
      bytes := data[readerIndex..writerIndex];
    }

    method Retrieve(len: nat)
      requires Valid() && len <= ReadableBytes()
      modifies this`readerIndex, this`writerIndex
      ensures Valid() && Contents() == old(Contents())[len..]
      ensures readerIndex == if len < old(ReadableBytes()) then old(readerIndex) + len else CHEAP_PREPEND
    {
      if len < ReadableBytes() {
        readerIndex := readerIndex + len;
      } else {
        RetrieveAll();
      }
    }

    method RetrieveAll()
      requires Valid()
      modifies this`readerIndex, this`writerIndex
      ensures Valid() && Contents() == [] && readerIndex == CHEAP_PREPEND
    {
      readerIndex := CHEAP_PREPEND;
      writerIndex := CHEAP_PREPEND;
    }

    method RetrieveAsString(len: nat) returns (s: seq<Byte>)
      requires Valid() && len <= ReadableBytes()
      modifies this`readerIndex, this`writerIndex
      ensures Valid() && s + Contents() == old(Contents()) && |s| == len
    {
      s := data[readerIndex..readerIndex + len];
      Retrieve(len);
    }

    /** `makeSpace`: grow the vector, or move the contents to the front. */
    method MakeSpace(len: nat)
      requires Valid() && WritableBytes() < len
      modifies this, data
      ensures Valid() && (data == old(data) || fresh(data))
      ensures Contents() == old(Contents()) && WritableBytes() >= len
      ensures View() == WithRoom(old(View()), len)
    {
      if WritableBytes() + PrependableBytes() < len + CHEAP_PREPEND {
        var bigger := new Byte[writerIndex + len];
        forall i | 0 <= i < data.Length {
          bigger[i] := data[i];
        }
        data := bigger;
      } else {
        assert CHEAP_PREPEND < readerIndex;
        var readable := ReadableBytes();
        forall i | 0 <= i < readable {
          data[CHEAP_PREPEND + i] := data[readerIndex + i];
        }
        readerIndex := CHEAP_PREPEND;
        writerIndex := readerIndex + readable;
        assert readable == ReadableBytes();
      }
    }

    method EnsureWritableBytes(len: nat)
      requires Valid()
      modifies this, data
      ensures Valid() && (data == old(data) || fresh(data))
      ensures Contents() == old(Contents()) && WritableBytes() >= len
      ensures View() == WithRoom(old(View()), len)
    {
      if WritableBytes() < len {
        MakeSpace(len);
      }
      assert WritableBytes() >= len;
    }

    // Copy bytes behind the contents, without taking them into the contents yet.
    method CopyToTail(bytes: seq<Byte>)
      requires Valid() && |bytes| <= WritableBytes()
      modifies data
      ensures Contents() == old(Contents())
      ensures data[writerIndex..writerIndex + |bytes|] == bytes
    {
      forall i | 0 <= i < |bytes| {
        data[writerIndex + i] := bytes[i];
      }
    }

    method HasWritten(len: nat)
      requires Valid() && len <= WritableBytes()
      modifies this`writerIndex
      ensures Valid() && writerIndex == old(writerIndex) + len
      ensures Contents() == old(Contents()) + old(data[writerIndex..writerIndex + len])
    {
      writerIndex := writerIndex + len;
    }

    // Bytes that fit the tail join the contents.
    method Fill(bytes: seq<Byte>)
      requires Valid() && |bytes| <= WritableBytes()
      modifies this`writerIndex, data
      ensures Valid() && View() == old(View()).(contents := old(Contents()) + bytes)
    {
      CopyToTail(bytes);
      HasWritten(|bytes|);
    }

    method Append(bytes: seq<Byte>)
      requires Valid()
      modifies this, data
      ensures Valid() && (data == old(data) || fresh(data))
      ensures Contents() == old(Contents()) + bytes
      ensures View() == Appended(old(View()), bytes)
    {
      EnsureWritableBytes(|bytes|);
      Fill(bytes);
    }

    method Prepend(bytes: seq<Byte>)
      requires Valid() && |bytes| <= PrependableBytes()
      modifies this`readerIndex, data
      ensures Valid() && Contents() == bytes + old(Contents())
      ensures readerIndex == old(readerIndex) - |bytes|
    {
      ghost var before := Contents();
      readerIndex := readerIndex - |bytes|;
      forall i | 0 <= i < |bytes| {
        data[readerIndex + i] := bytes[i];
      }
      assert data[readerIndex + |bytes|..writerIndex] == before;
    }

    // The tail is full and the rest is in the spill buffer.
    method Spill(bytes: seq<Byte>)
      requires Valid() && WritableBytes() < |bytes|
      modifies this, data
      ensures Valid() && (data == old(data) || fresh(data))
      ensures View() == Scattered(old(View()), bytes)
    {
      var writable := WritableBytes();
      Fill(bytes[..writable]);
      assert writerIndex == data.Length;
      Append(bytes[writable..]);
    }

    /** `readFd`: scatter into the tail, then append what went to the spill buffer. */
    method ReadFd(r: ReadResult) returns (n: int)
      requires Valid() && Deliverable(View(), r)
      modifies this, data
      ensures Valid() && (data == old(data) || fresh(data))
      ensures r.Failed? ==> n < 0 && View() == old(View())
      ensures r.Got? ==> n == |r.bytes| && Contents() == old(Contents()) + r.bytes
      ensures r.Got? ==> View() == Scattered(old(View()), r.bytes)
      ensures n > old(WritableBytes()) ==> n - old(WritableBytes()) <= SPILL && n < 2 * SPILL
    {
      if r.Failed? {
        return -1;
      }
      n := |r.bytes|;
      if n <= WritableBytes() {
        Fill(r.bytes);
      } else {
        Spill(r.bytes);
      }
    }
  }

  // ----- whole operation sequences -----

  datatype Edit =
    | DoAppend(bytes: seq<Byte>)
    | DoEnsure(len: nat)
    | DoRead(r: ReadResult)
    | DoRetrieve(len: nat)       // retrieve or retrieveAsString
    | DoRetrieveAll
    | DoPrepend(bytes: seq<Byte>)

  // What an operation does to a plain byte sequence.
  function Apply(c: seq<Byte>, op: Edit): seq<Byte>
    requires op.DoRetrieve? ==> op.len <= |c|
  {
    match op
    case DoAppend(bytes) => c + bytes
    case DoEnsure(_) => c
    case DoRead(r) => if r.Got? then c + r.bytes else c
    case DoRetrieve(len) => c[len..]
    case DoRetrieveAll => []
    case DoPrepend(bytes) => bytes + c
  }

  predicate Bounded(c: seq<Byte>, ops: seq<Edit>)
    decreases |ops|
  {
    ops == [] || ((ops[0].DoRetrieve? ==> ops[0].len <= |c|) && Bounded(Apply(c, ops[0]), ops[1..]))
  }

  function ApplyAll(c: seq<Byte>, ops: seq<Edit>): seq<Byte>
    requires Bounded(c, ops)
    decreases |ops|
  {
    if ops == [] then c else ApplyAll(Apply(c, ops[0]), ops[1..])
  }

  // The assertions of the source, and what the kernel can deliver.
  predicate Asserted(l: Layout, op: Edit)
    requires Fits(l)
  {
    match op
    case DoAppend(_) => true
    case DoEnsure(_) => true
    case DoRead(r) => Deliverable(l, r)
    case DoRetrieve(len) => len <= |l.contents|
    case DoRetrieveAll => true
    case DoPrepend(bytes) => |bytes| <= l.reader
  }

  function Edited(l: Layout, op: Edit): (r: Layout)
    requires Fits(l) && Asserted(l, op)
    ensures Fits(r) && r.contents == Apply(l.contents, op)
  {
    match op
    case DoAppend(bytes) => Appended(l, bytes)
    case DoEnsure(len) => WithRoom(l, len)
    case DoRead(r) => if r.Got? then Scattered(l, r.bytes) else l
    case DoRetrieve(len) =>
      l.(contents := l.contents[len..], reader := if len < |l.contents| then l.reader + len else CHEAP_PREPEND)
    case DoRetrieveAll => l.(contents := [], reader := CHEAP_PREPEND)
    case DoPrepend(bytes) => l.(contents := bytes + l.contents, reader := l.reader - |bytes|)
  }

  predicate Legal(l: Layout, ops: seq<Edit>)
    requires Fits(l)
    decreases |ops|
  {
    ops == [] || (Asserted(l, ops[0]) && Legal(Edited(l, ops[0]), ops[1..]))
  }

  function EditedAll(l: Layout, ops: seq<Edit>): Layout
    requires Fits(l) && Legal(l, ops)
    decreases |ops|
  {
    if ops == [] then l else EditedAll(Edited(l, ops[0]), ops[1..])
  }

  /** Growing, compacting, scattering and resetting are invisible in the contents. */
  lemma {:induction false} ContentsPlain(l: Layout, ops: seq<Edit>)
    requires Fits(l) && Legal(l, ops)
    ensures Bounded(l.contents, ops) && EditedAll(l, ops).contents == ApplyAll(l.contents, ops)
    decreases |ops|
  {
    if ops == [] {
    } else {
      ContentsPlain(Edited(l, ops[0]), ops[1..]);
    }
  }

  /** Refinement: a buffer driven by any script that meets the assertions of the source holds what
      the byte sequence would. */
  method Drive(b: Buffer, ops: seq<Edit>)
    requires b.Valid() && Legal(b.View(), ops)
    modifies b, b.data
    ensures b.Valid() && (b.data == old(b.data) || fresh(b.data))
    ensures Bounded(old(b.Contents()), ops) && b.Contents() == ApplyAll(old(b.Contents()), ops)
  {
    ContentsPlain(b.View(), ops);
    assert ops[0..] == ops;
    var i := 0;
    while i < |ops|
      invariant 0 <= i <= |ops|
      invariant b.Valid() && (b.data == old(b.data) || fresh(b.data))
      invariant Legal(b.View(), ops[i..])
      invariant EditedAll(b.View(), ops[i..]) == EditedAll(old(b.View()), ops)
    {
      assert ops[i..][1..] == ops[i + 1..];
      Perform(b, ops[i]);
      i := i + 1;
    }
  }

  method Perform(b: Buffer, op: Edit)
    requires b.Valid() && Asserted(b.View(), op)
    modifies b, b.data
    ensures b.Valid() && (b.data == old(b.data) || fresh(b.data))
    ensures b.View() == Edited(old(b.View()), op)
  {
    match op
    case DoAppend(bytes) => b.Append(bytes);
    case DoEnsure(len) => b.EnsureWritableBytes(len);
    case DoRead(r) => var _ := b.ReadFd(r);
    case DoRetrieve(len) => b.Retrieve(len);
    case DoRetrieveAll => b.RetrieveAll();
    case DoPrepend(bytes) => b.Prepend(bytes);
  }

  // ----- scripts a caller can judge without knowing the capacity -----

  // The prepend room that is left after an operation, whether or not the buffer compacts.
  function RoomAfter(c: seq<Byte>, op: Edit, room: nat): nat
    requires op.DoRetrieve? ==> op.len <= |c|
    requires op.DoPrepend? ==> |op.bytes| <= room
  {
    match op
    case DoRetrieve(len) => if len < |c| then room + len else CHEAP_PREPEND
    case DoRetrieveAll => CHEAP_PREPEND
    case DoPrepend(bytes) => room - |bytes|
    case _ => if room < CHEAP_PREPEND then room else CHEAP_PREPEND
  }

  // Retrieves stay within the contents, prepends within the room, reads within the spill buffer.
  predicate Modest(c: seq<Byte>, ops: seq<Edit>, room: nat)
    decreases |ops|
  {
    ops == [] ||
    (&& (ops[0].DoRetrieve? ==> ops[0].len <= |c|)
     && (ops[0].DoPrepend? ==> |ops[0].bytes| <= room)
     && (ops[0].DoRead? && ops[0].r.Got? ==> |ops[0].r.bytes| <= SPILL)
     && Modest(Apply(c, ops[0]), ops[1..], RoomAfter(c, ops[0], room)))
  }

  /** A modest script meets every assertion, on a buffer of any capacity. */
  lemma {:induction false} ModestIsLegal(l: Layout, ops: seq<Edit>, room: nat)
    requires Fits(l) && room <= l.reader && Modest(l.contents, ops, room)
    ensures Legal(l, ops)
    decreases |ops|
  {
    if ops == [] {
    } else {
      ModestIsLegal(Edited(l, ops[0]), ops[1..], RoomAfter(l.contents, ops[0], room));
    }
  }

  // One message after another: append the body, put a header in front, hand the whole on.
  datatype Frame = Frame(header: seq<Byte>, body: seq<Byte>)

  function Framing(frames: seq<Frame>): seq<Edit>
  {
    if frames == [] then []
    else [DoAppend(frames[0].body), DoPrepend(frames[0].header), DoRetrieveAll] + Framing(frames[1..])
  }

  /** Any number of messages can be framed in one buffer, if and only if no header is longer than
      the cheap-prepend area. */
  lemma {:induction false} FramingLegalIff(frames: seq<Frame>, capacity: nat)
    requires CHEAP_PREPEND <= capacity
    ensures Legal(Layout([], CHEAP_PREPEND, capacity), Framing(frames)) <==>
            forall i :: 0 <= i < |frames| ==> |frames[i].header| <= CHEAP_PREPEND
    decreases |frames|
  {
    if frames == [] {
    } else {
      var l, ops := Layout([], CHEAP_PREPEND, capacity), Framing(frames);
      var l1 := Edited(l, ops[0]);
      assert l1.reader == CHEAP_PREPEND && Legal(l, ops) == Legal(l1, ops[1..]);
      assert ops[1..][0] == DoPrepend(frames[0].header) && ops[1..][1..] == ops[2..];
      if |frames[0].header| <= CHEAP_PREPEND {
        assert ops[2..][0] == DoRetrieveAll && ops[2..][1..] == Framing(frames[1..]);
        FramingLegalIff(frames[1..], l1.capacity);
      }
    }
  }
}
