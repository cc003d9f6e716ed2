/** The framing of `net_worker`: a 4-byte header (message id, body size) and a body.  This is the pure decoder
    the in-place receive loop is proved against, and the laws about it. */
module FrameCodec {
  import opened Wire

  const HEADER: nat := 4
  /** The most bytes an incomplete frame can have: one less than header and largest body. */
  const MAX_REST: nat := 65538

  /** The size field is a `uint16_t`. */
  type Body = bytes: seq<Byte> | |bytes| < 0x1_0000

  datatype Frame = Frame(id: U16, body: Body)

  function Encode(f: Frame): seq<Byte> {
    PutU16(f.id) + PutU16(|f.body|) + f.body
  }

  function EncodeAll(frames: seq<Frame>): seq<Byte> {
    if frames == [] then [] else Encode(frames[0]) + EncodeAll(frames[1..])
  }

  predicate Complete(bytes: seq<Byte>) {
    |bytes| >= HEADER && HEADER + GetU16(bytes[2], bytes[3]) <= |bytes|
  }

  function PackageSize(bytes: seq<Byte>): nat
    requires |bytes| >= HEADER
  {
    HEADER + GetU16(bytes[2], bytes[3])
  }

  function First(bytes: seq<Byte>): Frame
    requires Complete(bytes)
  {
    Frame(GetU16(bytes[0], bytes[1]), bytes[HEADER..PackageSize(bytes)])
  }

  // ------------------------------------------------------------- the handlers

  /** The registered ids, and what the handlers answer: a handler may remember every call made so far, of which
      the last is the one it answers. */
  datatype Handlers = Handlers(registered: set<U16>, answer: seq<Frame> -> bool)

  /** The handler calls after `parse_msg` on a frame: an unregistered id reaches no handler. */
  function Called(h: Handlers, log: seq<Frame>, f: Frame): seq<Frame> {
    if f.id in h.registered then log + [f] else log
  }

  /** What `parse_msg` returns. */
  predicate Accepts(h: Handlers, log: seq<Frame>, f: Frame) {
    f.id in h.registered && h.answer(log + [f])
  }

  // ------------------------------------------------------------- pure decoding

  /** Handler calls so far, bytes not consumed, and whether the first of those is a frame that was rejected. */
  datatype Parsed = Parsed(log: seq<Frame>, rest: seq<Byte>, rejected: bool)

  function Parse(h: Handlers, log: seq<Frame>, bytes: seq<Byte>): Parsed
    decreases |bytes|
  {
    if !Complete(bytes) then Parsed(log, bytes, false)
    else
      var f := First(bytes);
      if !Accepts(h, log, f) then Parsed(Called(h, log, f), bytes, true)
      else Parse(h, Called(h, log, f), bytes[PackageSize(bytes)..])
  }

  /** A header is the id and then the size of the body, each with its low byte first; the body follows. */
  lemma HeaderLayout(f: Frame)
    ensures var bytes := Encode(f);
      && |bytes| == 4 + |f.body| && bytes[4..] == f.body
      && bytes[0] as int + 0x100 * bytes[1] as int == f.id
      && bytes[2] as int + 0x100 * bytes[3] as int == |f.body|
  {
    var bytes := Encode(f);
    assert bytes[0] == PutU16(f.id)[0] && bytes[1] == PutU16(f.id)[1];
    assert bytes[2] == PutU16(|f.body|)[0] && bytes[3] == PutU16(|f.body|)[1];
  }

  lemma FirstReadsHeader(bytes: seq<Byte>)
    requires |bytes| >= 4
    ensures var size := bytes[2] as int + 0x100 * bytes[3] as int;
      && (Complete(bytes) <==> 4 + size <= |bytes|)
      && (Complete(bytes) ==>
            First(bytes).id == bytes[0] as int + 0x100 * bytes[1] as int && First(bytes).body == bytes[4..4 + size])
  {
  }

  /** Bytes that arrive later are decoded as if they had been there from the start. */
  lemma {:induction false} ParseConcat(h: Handlers, log: seq<Frame>, a: seq<Byte>, b: seq<Byte>)
    ensures var p := Parse(h, log, a);
      Parse(h, log, a + b) == if p.rejected then Parsed(p.log, p.rest + b, true) else Parse(h, p.log, p.rest + b)
    decreases |a|
  {
    if Complete(a) {
      var f := First(a);
      assert (a + b)[..PackageSize(a)] == a[..PackageSize(a)];
      assert First(a + b) == f;
      if Accepts(h, log, f) {
        assert (a + b)[PackageSize(a)..] == a[PackageSize(a)..] + b;
        ParseConcat(h, Called(h, log, f), a[PackageSize(a)..], b);
      }
    }
  }

  /** Decoding only appends handler calls. */
  lemma {:induction false} ParseExtendsLog(h: Handlers, log: seq<Frame>, bytes: seq<Byte>)
    ensures log <= Parse(h, log, bytes).log
    decreases |bytes|
  {
    if Complete(bytes) && Accepts(h, log, First(bytes)) {
      ParseExtendsLog(h, Called(h, log, First(bytes)), bytes[PackageSize(bytes)..]);
    }
  }

  lemma EncodeFirst(f: Frame, rest: seq<Byte>)
    ensures Complete(Encode(f) + rest) && First(Encode(f) + rest) == f
    ensures PackageSize(Encode(f) + rest) == |Encode(f)| && (Encode(f) + rest)[|Encode(f)|..] == rest
  {
    var bytes := Encode(f) + rest;
    assert bytes[0..2] == PutU16(f.id) && bytes[2..4] == PutU16(|f.body|);
    assert bytes[0] == PutU16(f.id)[0] && bytes[1] == PutU16(f.id)[1];
    assert bytes[2] == PutU16(|f.body|)[0] && bytes[3] == PutU16(|f.body|)[1];
    GetPutU16(f.id);
    GetPutU16(|f.body|);
    assert bytes[HEADER..HEADER + |f.body|] == f.body;
  }

  lemma FirstEncode(bytes: seq<Byte>)
    requires Complete(bytes)
    ensures Encode(First(bytes)) == bytes[..PackageSize(bytes)]
  {
    PutGetU16(bytes[0], bytes[1]);
    PutGetU16(bytes[2], bytes[3]);
    assert bytes[..PackageSize(bytes)] == bytes[..2] + bytes[2..4] + bytes[4..PackageSize(bytes)];
    assert bytes[..2] == [bytes[0], bytes[1]] && bytes[2..4] == [bytes[2], bytes[3]];
  }

  /** The handlers accept each of these frames, given the calls before it. */
  predicate AllAccepted(h: Handlers, log: seq<Frame>, frames: seq<Frame>)
    decreases |frames|
  {
    frames == [] || (Accepts(h, log, frames[0]) && AllAccepted(h, log + [frames[0]], frames[1..]))
  }

  lemma Assoc<T>(a: seq<T>, b: seq<T>, c: seq<T>)
    ensures (a + b) + c == a + (b + c)
  {
  }

  lemma EncodeAllCons(f: Frame, frames: seq<Frame>, rest: seq<Byte>)
    ensures EncodeAll([f] + frames) + rest == Encode(f) + (EncodeAll(frames) + rest)
  {
    assert ([f] + frames)[1..] == frames;
    Assoc(Encode(f), EncodeAll(frames), rest);
  }

  lemma ParseOne(h: Handlers, log: seq<Frame>, f: Frame, rest: seq<Byte>)
    requires Accepts(h, log, f)
    ensures Parse(h, log, Encode(f) + rest) == Parse(h, log + [f], rest)
  {
    EncodeFirst(f, rest);
  }

  /** Round trip: what was encoded is what is dispatched, in order, and the decoder stops where the frames end. */
  lemma {:induction false} ParseEncodeAll(h: Handlers, log: seq<Frame>, frames: seq<Frame>, rest: seq<Byte>)
    requires AllAccepted(h, log, frames)
    ensures Parse(h, log, EncodeAll(frames) + rest) == Parse(h, log + frames, rest)
    decreases |frames|
  {
    if frames == [] {
      assert [] + rest == rest && log + frames == log;
    } else {
      var f := frames[0];
      var more := frames[1..];
      assert frames == [f] + more;
      EncodeAllCons(f, more, rest);
      ParseOne(h, log, f, EncodeAll(more) + rest);
      ParseEncodeAll(h, log + [f], more, rest);
      Assoc(log, [f], more);
    }
  }

  /** The stream is the encoding of these accepted frames, then the rest; the rest starts with no complete frame,
      or with the one the handlers rejected. */
  ghost predicate Accounts(h: Handlers, log: seq<Frame>, bytes: seq<Byte>, p: Parsed, frames: seq<Frame>) {
    && AllAccepted(h, log, frames)
    && bytes == EncodeAll(frames) + p.rest
    && (!p.rejected ==> p.log == log + frames && !Complete(p.rest))
    && (p.rejected ==> Complete(p.rest) && p.log == Called(h, log + frames, First(p.rest))
                       && !Accepts(h, log + frames, First(p.rest)))
  }

  lemma AccountsForOneMore(h: Handlers, log: seq<Frame>, f: Frame, tail: seq<Byte>, p: Parsed, more: seq<Frame>)
    requires Accepts(h, log, f) && Accounts(h, log + [f], tail, p, more)
    ensures Accounts(h, log, Encode(f) + tail, p, [f] + more)
  {
    assert ([f] + more)[1..] == more;
    Assoc(log, [f], more);
    EncodeAllCons(f, more, p.rest);
  }

  /** Nothing is lost or invented by decoding, whatever the stream. */
  lemma {:induction false} ParseAccountsForEveryByte(h: Handlers, log: seq<Frame>, bytes: seq<Byte>)
      returns (frames: seq<Frame>)
    ensures Accounts(h, log, bytes, Parse(h, log, bytes), frames)
    decreases |bytes|
  {
    if Complete(bytes) && Accepts(h, log, First(bytes)) {
      var f := First(bytes);
      var tail := bytes[PackageSize(bytes)..];
      var more := ParseAccountsForEveryByte(h, log + [f], tail);
      frames := [f] + more;
      FirstEncode(bytes);
      AccountsForOneMore(h, log, f, tail, Parse(h, log + [f], tail), more);
    } else {
      frames := [];
      assert log + [] == log && [] + bytes == bytes;
    }
  }

  /** Outside a rejection at most 65538 bytes wait for the rest of their frame ... */
  lemma {:induction false} RestIsBounded(h: Handlers, log: seq<Frame>, bytes: seq<Byte>)
    ensures !Parse(h, log, bytes).rejected ==> |Parse(h, log, bytes).rest| <= MAX_REST
    decreases |bytes|
  {
    if Complete(bytes) && Accepts(h, log, First(bytes)) {
      RestIsBounded(h, Called(h, log, First(bytes)), bytes[PackageSize(bytes)..]);
    }
  }

  /** ... and that bound is attained. */
  lemma RestBoundIsTight(h: Handlers, log: seq<Frame>)
    ensures exists bytes: seq<Byte> ::
      Parse(h, log, bytes) == Parsed(log, bytes, false) && |bytes| == MAX_REST
  {
    var bytes: seq<Byte> := PutU16(0) + PutU16(0xffff) + seq(0xfffe, _ => 0);
    assert bytes[2] == PutU16(0xffff)[0] && bytes[3] == PutU16(0xffff)[1];
    assert !Complete(bytes) && |bytes| == MAX_REST;
  }

  // --------------------------------------------------------------- a connection

  /** A connection as the receive path sees it: handler calls, unconsumed bytes, not yet closed. */
  datatype Conn = Conn(log: seq<Frame>, buffer: seq<Byte>, live: bool)

  const NEW_CONN := Conn([], [], true)

  /** One read completion: a parse entered with fewer than 4 bytes closes and dispatches nothing. */
  function Receive(h: Handlers, c: Conn, chunk: seq<Byte>): Conn {
    if !c.live then c
    else
      var bytes := c.buffer + chunk;
      if |bytes| < HEADER then Conn(c.log, bytes, false)
      else
        var p := Parse(h, c.log, bytes);
        Conn(p.log, p.rest, !p.rejected)
  }

  function ReceiveAll(h: Handlers, chunks: seq<seq<Byte>>): Conn {
    if chunks == [] then NEW_CONN
    else Receive(h, ReceiveAll(h, chunks[..|chunks| - 1]), chunks[|chunks| - 1])
  }

  function Joined(chunks: seq<seq<Byte>>): seq<Byte> {
    if chunks == [] then [] else Joined(chunks[..|chunks| - 1]) + chunks[|chunks| - 1]
  }

  // What the handlers are called with.

  /** Every call was of a registered id, and all calls but the last, or all if the connection lives, were answered
      true. */
  ghost predicate Dispatched(h: Handlers, log: seq<Frame>, live: bool) {
    forall i :: 0 <= i < |log| ==> CalledAt(h, log, live, i)
  }

  ghost predicate CalledAt(h: Handlers, log: seq<Frame>, live: bool, i: nat)
    requires i < |log|
  {
    log[i].id in h.registered && (i + 1 < |log| || live ==> h.answer(log[..i + 1]))
  }

  lemma DispatchedBefore(h: Handlers, log: seq<Frame>, live: bool)
    requires Dispatched(h, log, true)
    ensures Dispatched(h, log, live)
  {
    forall i | 0 <= i < |log| ensures CalledAt(h, log, live, i) {
      assert CalledAt(h, log, true, i);
    }
  }

  lemma CallIsDispatched(h: Handlers, log: seq<Frame>, f: Frame)
    requires Dispatched(h, log, true)
    ensures Dispatched(h, Called(h, log, f), Accepts(h, log, f))
  {
    if f.id !in h.registered {
      DispatchedBefore(h, log, false);
    } else {
      var accepted := Accepts(h, log, f);
      forall i | 0 <= i <= |log| ensures CalledAt(h, log + [f], accepted, i) {
        if i < |log| {
          assert CalledAt(h, log, true, i) && (log + [f])[..i + 1] == log[..i + 1];
        } else {
          assert (log + [f])[..i + 1] == log + [f];
        }
      }
    }
  }

  lemma {:induction false} ParseDispatches(h: Handlers, log: seq<Frame>, bytes: seq<Byte>)
    requires Dispatched(h, log, true)
    ensures Dispatched(h, Parse(h, log, bytes).log, !Parse(h, log, bytes).rejected)
    decreases |bytes|
  {
    if Complete(bytes) {
      CallIsDispatched(h, log, First(bytes));
      if Accepts(h, log, First(bytes)) {
        ParseDispatches(h, Called(h, log, First(bytes)), bytes[PackageSize(bytes)..]);
      }
    }
  }

  /** Over a connection no handler is called for an unregistered id, and after a rejection none is called at all. */
  lemma {:induction false} OnlyRegisteredIdsAreDispatched(h: Handlers, chunks: seq<seq<Byte>>)
    ensures Dispatched(h, ReceiveAll(h, chunks).log, ReceiveAll(h, chunks).live)
    decreases |chunks|
  {
    if chunks != [] {
      var c := ReceiveAll(h, chunks[..|chunks| - 1]);
      OnlyRegisteredIdsAreDispatched(h, chunks[..|chunks| - 1]);
      if c.live {
        DispatchedBefore(h, c.log, false);
        ParseDispatches(h, c.log, c.buffer + chunks[|chunks| - 1]);
      }
    }
  }

  /** Every parse finds at least a header's worth of bytes: those left over by the pure decoding of the earlier
      chunks plus the new ones. */
  ghost predicate NeverShort(h: Handlers, chunks: seq<seq<Byte>>) {
    forall i :: 0 <= i < |chunks| ==>
      |Parse(h, [], Joined(chunks[..i])).rest| + |chunks[i]| >= HEADER
  }

  lemma NeverShortInit(h: Handlers, chunks: seq<seq<Byte>>)
    requires chunks != []
    ensures var n := |chunks| - 1;
      NeverShort(h, chunks) <==>
        NeverShort(h, chunks[..n]) && |Parse(h, [], Joined(chunks[..n])).rest| + |chunks[n]| >= HEADER
  {
    var n := |chunks| - 1;
    assert forall i :: 0 <= i < n ==> chunks[..n][..i] == chunks[..i];
    if NeverShort(h, chunks) {
      forall i | 0 <= i < n
        ensures |Parse(h, [], Joined(chunks[..n][..i])).rest| + |chunks[..n][i]| >= HEADER
      {
        assert |Parse(h, [], Joined(chunks[..i])).rest| + |chunks[i]| >= HEADER;
      }
    }
    if NeverShort(h, chunks[..n]) && |Parse(h, [], Joined(chunks[..n])).rest| + |chunks[n]| >= HEADER {
      forall i | 0 <= i < |chunks|
        ensures |Parse(h, [], Joined(chunks[..i])).rest| + |chunks[i]| >= HEADER
      {
        if i < n {
          assert |Parse(h, [], Joined(chunks[..n][..i])).rest| + |chunks[..n][i]| >= HEADER;
        }
      }
    }
  }

  /** Chunking independence, and exactly when it holds.  For every split of a stream into reads the connection
      survives if and only if the whole stream decodes without a rejection and no parse is short; then calls and
      buffer are those of the whole stream.  If a frame is rejected and no parse is short, the calls still are
      those of the whole stream; and whatever happens they are a prefix of them. */
  lemma {:induction false} ChunkingIndependence(h: Handlers, chunks: seq<seq<Byte>>)
    ensures var c := ReceiveAll(h, chunks); var p := Parse(h, [], Joined(chunks));
      && (c.live <==> !p.rejected && NeverShort(h, chunks))
      && (c.live ==> c.log == p.log && c.buffer == p.rest)
      && (NeverShort(h, chunks) ==> c.log == p.log)
      && c.log <= p.log
  {
    if chunks != [] {
      var n := |chunks| - 1;
      var front := chunks[..n];
      ChunkingIndependence(h, front);
      NeverShortInit(h, chunks);
      ParseConcat(h, [], Joined(front), chunks[n]);
      var p := Parse(h, [], Joined(front));
      if !p.rejected {
        ParseExtendsLog(h, p.log, p.rest + chunks[n]);
      }
    }
  }

  /** Two admissible splits of the same stream cannot be told apart by the handlers. */
  lemma SplitsAgree(h: Handlers, a: seq<seq<Byte>>, b: seq<seq<Byte>>)
    requires Joined(a) == Joined(b) && NeverShort(h, a) && NeverShort(h, b)
    ensures ReceiveAll(h, a).log == ReceiveAll(h, b).log
    ensures ReceiveAll(h, a).live == ReceiveAll(h, b).live
    ensures ReceiveAll(h, a).live ==> ReceiveAll(h, a).buffer == ReceiveAll(h, b).buffer
  {
    ChunkingIndependence(h, a);
    ChunkingIndependence(h, b);
  }

  /** Frames sent one after the other and read through any admissible chunking are dispatched exactly once, in
      order, and leave the buffer empty. */
  lemma RoundTripThroughChunks(h: Handlers, frames: seq<Frame>, chunks: seq<seq<Byte>>)
    requires AllAccepted(h, [], frames)
    requires Joined(chunks) == EncodeAll(frames) && NeverShort(h, chunks)
    ensures ReceiveAll(h, chunks) == Conn(frames, [], true)
  {
    ChunkingIndependence(h, chunks);
    ParseEncodeAll(h, [], frames, []);
    assert EncodeAll(frames) + [] == EncodeAll(frames) && [] + frames == frames;
  }

  /** While a connection is live at most 65538 bytes are buffered between reads. */
  lemma BufferIsBounded(h: Handlers, chunks: seq<seq<Byte>>)
    ensures ReceiveAll(h, chunks).live ==> |ReceiveAll(h, chunks).buffer| <= MAX_REST
  {
    ChunkingIndependence(h, chunks);
    RestIsBounded(h, [], Joined(chunks));
  }
}
