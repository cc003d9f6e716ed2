/** The class `pointer` of `net_worker.hpp`: one connection slot with its receive buffer, parsed in place, and its
    send path. */
module WorkerSlot {
  import opened Wire
  import opened FrameCodec
  import DataPacket

  datatype NetStatus = Unconnect | Waiting | Connected

  /** How a turn of the parse loop ends. */
  datatype Turn = Incomplete | Rejected | Consumed

  lemma IncompleteIsShort(bytes: seq<Byte>)
    ensures !Complete(bytes) ==> |bytes| <= MAX_REST
  {
  }

  class WorkerSlot {
    const handlers: Handlers
    /** Whether the id is in the outward table, where a close waits for a reconnect. */
    const outward: bool
    /** `m_recv_buf_ptr`, of `max_recv_size` bytes. */
    const recvBuf: array<Byte>
    var recvSize: nat
    var status: NetStatus
    /** The handler calls made so far. */
    var log: seq<Frame>
    /** How often `net_worker::close` was called. */
    var closes: nat

    ghost predicate Valid()
      reads this
    {
      HEADER <= recvBuf.Length && recvSize <= recvBuf.Length
    }

    /** The bytes received and not consumed. */
    ghost function Buffered(): seq<Byte>
      requires Valid()
      reads this, recvBuf
    {
      recvBuf[..recvSize]
    }

    ghost function View(): Conn
      requires Valid()
      reads this, recvBuf
    {
      Conn(log, Buffered(), status.Connected?)
    }

    /** `init` and `start` of a slot used for the first time. */
    constructor (handlers: Handlers, outward: bool, maxRecvSize: nat)
      requires HEADER <= maxRecvSize
      ensures Valid() && fresh(recvBuf) && recvBuf.Length == maxRecvSize
      ensures View() == NEW_CONN && closes == 0 && this.handlers == handlers && this.outward == outward
    {
      this.handlers, this.outward := handlers, outward;
      recvBuf := new Byte[maxRecvSize];
      recvSize := 0;
      status := Connected;
      log := [];
      closes := 0;
    }

    /** `close`: an outward slot waits for its timer, any other becomes free. */
    method Close()
      modifies this`status, this`closes
      ensures status == (if outward then Waiting else Unconnect) && closes == old(closes) + 1
    {
      status := if outward then Waiting else Unconnect;
      closes := closes + 1;
    }

    /** `parse_msg`. */
    method ParseMsg(id: U16, body: Body) returns (ok: bool)
      modifies this`log
      ensures id !in handlers.registered ==> !ok && log == old(log)
      ensures id in handlers.registered ==> log == old(log) + [Frame(id, body)] && ok == handlers.answer(log)
      ensures ok == Accepts(handlers, old(log), Frame(id, body))
      ensures log == Called(handlers, old(log), Frame(id, body))
    {
      if id !in handlers.registered {
        return false;
      }
      log := log + [Frame(id, body)];
      ok := handlers.answer(log);
    }

    /** `memcpy` of what follows the consumed package to the front of the buffer. */
    method Shift(consumed: nat)
      requires Valid() && consumed + recvSize <= recvBuf.Length
      modifies recvBuf
      ensures recvBuf[..recvSize] == old(recvBuf[consumed..consumed + recvSize])
    {
      forall i | 0 <= i < recvSize {
        recvBuf[i] := recvBuf[consumed + i];
      }
    }

    /** One turn of the loop of `parse_data`: dispatch and consume the first package, if it is complete. */
    method ParsePackage() returns (turn: Turn)
      requires Valid()
      modifies this`log, this`recvSize, this`status, this`closes, recvBuf
      ensures Valid()
      ensures turn.Incomplete? <==> !Complete(old(Buffered()))
      ensures turn.Incomplete? ==> log == old(log) && Buffered() == old(Buffered())
      ensures !turn.Incomplete? ==>
        var f := First(old(Buffered()));
        && (turn.Consumed? <==> Accepts(handlers, old(log), f)) && log == Called(handlers, old(log), f)
        && Buffered() == if turn.Consumed? then old(Buffered())[PackageSize(old(Buffered()))..] else old(Buffered())
      ensures turn.Rejected? ==> status == (if outward then Waiting else Unconnect) && closes == old(closes) + 1
      ensures !turn.Rejected? ==> status == old(status) && closes == old(closes)
    {
      var id := GetU16(recvBuf[0], recvBuf[1]);
      var bodySize: nat := GetU16(recvBuf[2], recvBuf[3]);
      var packageSize: nat := bodySize + 4;
      if packageSize > recvSize {
        return Incomplete;
      }
      ghost var bytes := Buffered();
      assert packageSize == PackageSize(bytes) && Complete(bytes);
      var body: Body := recvBuf[HEADER..packageSize];
      assert First(bytes) == Frame(id, body);
      var ok := ParseMsg(id, body);
      if !ok {
        Close();
        return Rejected;
      }
      recvSize := recvSize - packageSize;
      if recvSize > 0 {
        Shift(packageSize);
      }
      assert Buffered() == bytes[packageSize..];
      turn := Consumed;
    }

    /** `parse_data`.  With at least a header buffered the in-place loop computes the pure decoding; with less it
        closes, and the loop it then falls into finds no complete package whatever stale bytes it reads. */
    method ParseData()
      requires Valid()
      modifies this`log, this`recvSize, this`status, this`closes, recvBuf
      ensures Valid()
      ensures old(recvSize) < HEADER ==>
        && log == old(log) && Buffered() == old(Buffered())
        && !status.Connected? && closes == old(closes) + 1
      ensures old(recvSize) >= HEADER ==>
        var p := Parse(handlers, old(log), old(Buffered()));
        && log == p.log && Buffered() == p.rest
        && (if p.rejected then !status.Connected? && closes == old(closes) + 1
            else status == old(status) && closes == old(closes))
      ensures !status.Connected? && old(status).Connected? ==> status == if outward then Waiting else Unconnect
    {
      if recvSize < HEADER {
        Close();
      }
      ghost var entered, count := status, closes;
      var turn := Consumed;
      while turn.Consumed?
        invariant Valid()
        invariant Parse(handlers, log, Buffered()) == Parse(handlers, old(log), old(Buffered())) || turn.Rejected?
        invariant !turn.Rejected? ==> status == entered && closes == count
        invariant turn.Incomplete? ==> !Complete(Buffered())
        invariant turn.Rejected? ==>
          && status == (if outward then Waiting else Unconnect) && closes == count + 1 && old(recvSize) >= HEADER
          && Parse(handlers, old(log), old(Buffered())) == Parsed(log, Buffered(), true)
        invariant old(recvSize) < HEADER ==> recvSize == old(recvSize)
        decreases turn.Consumed?, recvSize
      {
        turn := ParsePackage();
        if turn.Consumed? && recvSize < 4 {
          turn := Incomplete;
        }
      }
    }

    /** `read_start`: a read is posted exactly on a connected slot; what is buffered and what it may deliver fill the
        buffer, and with room for more than the longest incomplete package it can always deliver something. */
    method ReadStart() returns (space: Option<nat>)
      requires Valid()
      ensures space.Some? <==> status.Connected?
      ensures space.Some? ==> |Buffered()| + space.value == recvBuf.Length
      ensures space.Some? && !Complete(Buffered()) && recvBuf.Length > MAX_REST ==> space.value > 0
    {
      if !status.Connected? {
        return None;
      }
      IncompleteIsShort(Buffered());
      space := Some(recvBuf.Length - recvSize);
    }

    /** The completion handler of a read.  A read that failed or delivered nothing closes; otherwise the bytes are
        already in the buffer, after the old ones, and are parsed. */
    method ReadCompleted(failed: bool, chunk: seq<Byte>) returns (space: Option<nat>)
      requires Valid() && status.Connected? && |chunk| <= recvBuf.Length - recvSize
      modifies this`log, this`recvSize, this`status, this`closes, recvBuf
      ensures Valid()
      ensures failed || chunk == [] ==> View() == old(View()).(live := false)
      ensures !failed && chunk != [] ==> View() == Receive(handlers, old(View()), chunk)
      ensures status.Connected? || status == if outward then Waiting else Unconnect
      ensures closes == old(closes) + if status.Connected? then 0 else 1
      ensures space.Some? <==> status.Connected?
      ensures space.Some? ==> |Buffered()| + space.value == recvBuf.Length
      ensures space.Some? && recvBuf.Length > MAX_REST ==> space.value > 0
    {
      if failed || |chunk| == 0 {
        Close();
        return None;
      }
      forall i | 0 <= i < |chunk| {
        recvBuf[recvSize + i] := chunk[i];
      }
      recvSize := recvSize + |chunk|;
      assert Buffered() == old(Buffered()) + chunk;
      RestIsBounded(handlers, log, Buffered());
      ParseData();
      space := ReadStart();
    }

    /** `send`: the bytes put on the wire, or nothing if the slot is not connected. */
    method Send(id: U16, data: Body) returns (sent: Option<seq<Byte>>)
      ensures sent == if status.Connected? then Some(Encode(Frame(id, data))) else None
    {
      if !status.Connected? {
        return None;
      }
      var packet := new DataPacket.Packet();
      packet.PutU16(id, true);
      packet.PutU16(|data|, true);
      var region := packet.WriteData(Some(data), |data|, true);
      assert [] + PutU16(id) == PutU16(id);
      sent := Some(packet.Contents());
    }

    /** The destructor of `msg_send_guard`: the serialised size is passed on as a `uint16_t`, so a message of more
        than 65535 bytes is cut to its size modulo 65536. */
    method SendMessage(id: U16, message: seq<Byte>) returns (sent: Option<seq<Byte>>)
      ensures sent.Some? <==> status.Connected?
      ensures sent.Some? ==>
        && Complete(sent.value)
        && First(sent.value) == Frame(id, message[..|message| % 0x1_0000])
        && (First(sent.value).body == message <==> |message| <= 0xffff)
    {
      var packet := DataPacket.Serialise(message);
      var bytes := packet.Contents();
      var size: U16 := |bytes| % 0x1_0000;
      sent := Send(id, bytes[..size]);
      if sent.Some? {
        EncodeFirst(Frame(id, bytes[..size]), []);
        assert sent.value + [] == sent.value;
      }
    }
  }

  /** As long as the connection lives every read delivers something, in the space it was posted with. */
  ghost predicate ReadsFit(h: Handlers, chunks: seq<seq<Byte>>, capacity: nat) {
    forall i :: 0 <= i < |chunks| && ReceiveAll(h, chunks[..i]).live ==>
      0 < |chunks[i]| && |chunks[i]| + |ReceiveAll(h, chunks[..i]).buffer| <= capacity
  }

  /** A whole connection: reads arrive until one closes it or there are no more. */
  method Serve(slot: WorkerSlot, chunks: seq<seq<Byte>>)
    requires slot.Valid() && slot.View() == NEW_CONN
    requires ReadsFit(slot.handlers, chunks, slot.recvBuf.Length)
    modifies slot`log, slot`recvSize, slot`status, slot`closes, slot.recvBuf
    ensures slot.Valid() && slot.View() == ReceiveAll(slot.handlers, chunks)
    ensures slot.log <= Parse(slot.handlers, [], Joined(chunks)).log
    ensures NeverShort(slot.handlers, chunks) ==> slot.log == Parse(slot.handlers, [], Joined(chunks)).log
  {
    var i := 0;
    while i < |chunks|
      invariant i <= |chunks| && slot.Valid()
      invariant slot.View() == ReceiveAll(slot.handlers, chunks[..i])
    {
      assert chunks[..i + 1][..i] == chunks[..i];
      if slot.status.Connected? {
        var space := slot.ReadCompleted(false, chunks[i]);
      }
      i := i + 1;
    }
    assert chunks[..i] == chunks;
    assert slot.View() == ReceiveAll(slot.handlers, chunks);
    ChunkingIndependence(slot.handlers, chunks);
  }

  /** The bytes a connected slot puts on the wire for these messages, one `send` after the other. */
  method SendAll(slot: WorkerSlot, frames: seq<Frame>) returns (wire: seq<Byte>)
    requires slot.status.Connected?
    ensures wire == EncodeAll(frames)
  {
    wire := [];
    for i := 0 to |frames|
      invariant wire + EncodeAll(frames[i..]) == EncodeAll(frames)
    {
      var sent := slot.Send(frames[i].id, frames[i].body);
      assert frames[i..][1..] == frames[i + 1..];
      wire := wire + sent.value;
    }
  }

  /** One slot sends and another receives: however the network cuts up the bytes, as long as every read fits and none
      leaves the receiver with less than a header, the messages reach the receiver's handlers once, in order, and
      nothing else does; the connection lives and nothing is left over. */
  method Exchange(sender: WorkerSlot, receiver: WorkerSlot, frames: seq<Frame>, chunks: seq<seq<Byte>>)
      returns (ghost wire: seq<Byte>)
    requires sender.status.Connected? && receiver.Valid() && receiver.View() == NEW_CONN
    requires AllAccepted(receiver.handlers, [], frames)
    requires Joined(chunks) == EncodeAll(frames) && NeverShort(receiver.handlers, chunks)
    requires ReadsFit(receiver.handlers, chunks, receiver.recvBuf.Length)
    modifies receiver`log, receiver`recvSize, receiver`status, receiver`closes, receiver.recvBuf
    ensures wire == Joined(chunks)
    ensures receiver.Valid() && receiver.View() == Conn(frames, [], true)
  {
    wire := SendAll(sender, frames);
    Serve(receiver, chunks);
    RoundTripThroughChunks(receiver.handlers, frames, chunks);
  }

  /** With a buffer of at least 65539 bytes every read of a live connection is posted with room to spare. */
  lemma ReadsAlwaysHaveRoom(h: Handlers, chunks: seq<seq<Byte>>, maxRecvSize: nat)
    requires maxRecvSize >= MAX_REST + 1
    ensures ReceiveAll(h, chunks).live ==> maxRecvSize - |ReceiveAll(h, chunks).buffer| > 0
  {
    BufferIsBounded(h, chunks);
  }

  /** With a smaller buffer (that still holds a header) a peer can fill it with one unfinished frame, and the next
      read is posted with no room at all. */
  lemma SmallerBufferCanFillUp(h: Handlers, maxRecvSize: nat)
    requires HEADER <= maxRecvSize <= MAX_REST
    ensures exists chunk: seq<Byte> :: |chunk| == maxRecvSize && ReceiveAll(h, [chunk]) == Conn([], chunk, true)
  {
    var chunk: seq<Byte> := PutU16(0) + PutU16(0xffff) + seq(maxRecvSize - HEADER, _ => 0);
    assert chunk[2] == PutU16(0xffff)[0] && chunk[3] == PutU16(0xffff)[1];
    assert !Complete(chunk);
    assert [chunk][..0] == [];
    assert [] + chunk == chunk;
    assert ReceiveAll(h, [chunk]) == Receive(h, NEW_CONN, chunk);
  }
}
