/** The UART transport: h_uart_write turns a buffer into bytes on the wire, and
    uart_rx_task cuts the byte stream back into frames. */
module UartStream {
  import opened Transport
  import opened Frame

  // ----- sending -----

  datatype SendResult = Sent(wire: seq<Byte>) | Refused

  /** h_uart_write with an active or inactive interface; a frame without payload passes
      only as a flow-control frame. */
  method HUartWrite(active: bool, p: Packet) returns (r: SendResult)
    requires Fits(p)
    ensures r == if !active || (p.throttle == 0 && p.payload == []) then Refused else Sent(Encode(p))
  {
    if !active {
      return Refused;
    }
    if p.throttle == 0 && p.payload == [] {
      return Refused;
    }
    var totalLen := |p.payload| + HEADER;
    var sendbuf := new Byte[totalLen](_ => 0);
    FillHeader(sendbuf, p);
    assert sendbuf[..HEADER] == Header(p, 0);
    CopyIn(sendbuf, HEADER, p.payload);
    assert sendbuf[..totalLen] == sendbuf[..] == Blank(p);
    var checksum := ComputeChecksum(sendbuf, totalLen);
    sendbuf[6], sendbuf[7] := Low(checksum), High(checksum);
    assert sendbuf[..] == Blank(p)[6 := Low(checksum)][7 := High(checksum)] == Encode(p);
    r := Sent(sendbuf[..]);
  }

  /** The header fields, in the order the writer stores them into a zeroed buffer. */
  method FillHeader(buf: array<Byte>, p: Packet)
    requires Fits(p) && buf.Length >= HEADER && (forall i :: 0 <= i < HEADER ==> buf[i] == 0)
    modifies buf
    ensures forall i :: 0 <= i < HEADER ==> buf[i] == Header(p, 0)[i]
    ensures forall i :: HEADER <= i < buf.Length ==> buf[i] == old(buf[i])
  {
    var len := |p.payload|;
    buf[0] := p.ifType + 16 * p.ifNum;
    buf[2], buf[3] := Low(len), High(len);
    buf[4], buf[5] := Low(HEADER), High(HEADER);
    buf[8], buf[9] := Low(p.seqNum), High(p.seqNum);
    buf[1] := p.flags;
    buf[10] := p.throttle;
  }

  /** memcpy of a run of bytes into an array. */
  method CopyIn(a: array<Byte>, at: nat, s: seq<Byte>)
    requires at + |s| <= a.Length
    modifies a
    ensures a[..] == Stored(old(a[..]), at, s)
  {
    var i := 0;
    while i < |s|
      invariant 0 <= i <= |s|
      invariant a[..at] == old(a[..at]) && a[at..at + i] == s[..i] && a[at + i..] == old(a[at + i..])
    {
      a[at + i] := s[i];
      i := i + 1;
      assert a[at..at + i] == a[at..at + i - 1] + [s[i - 1]];
    }
  }

  // ----- receiving -----

  /** What is put in a receive queue: the interface and the frame as stored. */
  datatype Delivery = Delivery(ifType: Nibble, ifNum: Nibble, bytes: seq<Byte>)

  /** Frames delivered and the bytes still unread when the task blocks. `fault` marks a
      header whose offset would put the payload outside the scratch buffer. */
  datatype RxResult = RxResult(delivered: seq<Delivery>, left: seq<Byte>, fault: bool)

  function Before(ds: seq<Delivery>, r: RxResult): RxResult { r.(delivered := ds + r.delivered) }

  /** One round of the task's loop: it blocks for good, or goes on with what is unread,
      the scratch buffer as left, and perhaps a delivery. */
  datatype Round =
    | Blocked(left: seq<Byte>, fault: bool)
    | Done(rest: seq<Byte>, scratch: seq<Byte>, delivery: seq<Delivery>)

  function RxRound(stream: seq<Byte>, scratch: seq<Byte>): (r: Round)
    requires |scratch| == BUFFER_SIZE
    ensures r.Done? ==> |r.rest| < |stream| && |r.scratch| == BUFFER_SIZE
  {
    if |stream| < HEADER then Blocked(stream, false)
    else
      var head := Stored(scratch, 0, stream[..HEADER]);
      var rest := stream[HEADER..];
      var len := WordAt(head, 2);
      var offset := WordAt(head, 4);
      if len + HEADER > BUFFER_SIZE then Done(rest, head, [])
      else if |rest| < len then Blocked(rest, false)
      else if offset + len > BUFFER_SIZE then Blocked(rest, true)
      else
        var full := Stored(head, offset, rest[..len]);
        Done(rest[len..], Cleared(full), Checked(full, len + HEADER))
  }

  /** A buffer with a run of bytes stored into it. */
  function Stored(buf: seq<Byte>, at: nat, s: seq<Byte>): (r: seq<Byte>)
    requires at + |s| <= |buf|
    ensures |r| == |buf|
  {
    buf[..at] + s + buf[at + |s|..]
  }

  /** The delivery of a stored frame, if its checksum holds once the field is zeroed. */
  function Checked(full: seq<Byte>, totalLen: nat): seq<Delivery>
    requires HEADER <= totalLen <= |full|
  {
    var clear := Cleared(full);
    if Checksum(clear[..totalLen]) != WordAt(full, 6) then []
    else [Delivery(clear[0] % 16, clear[0] / 16, clear[..totalLen])]
  }

  /** uart_rx_task on a stream, from a scratch buffer with any content. */
  function RxLoop(stream: seq<Byte>, scratch: seq<Byte>): RxResult
    requires |scratch| == BUFFER_SIZE
    decreases |stream|
  {
    match RxRound(stream, scratch)
    case Blocked(left, fault) => RxResult([], left, fault)
    case Done(rest, scratch', delivery) => Before(delivery, RxLoop(rest, scratch'))
  }

  /** The checksum test and the copy into a receive buffer. */
  method CheckFrame(scratch: array<Byte>, totalLen: Word16) returns (delivery: seq<Delivery>)
    requires HEADER <= totalLen <= scratch.Length
    modifies scratch
    ensures scratch[..] == Cleared(old(scratch[..]))
    ensures delivery == Checked(old(scratch[..]), totalLen)
  {
    var rxChecksum := Word(scratch[6], scratch[7]);
    scratch[6] := 0;
    scratch[7] := 0;
    assert scratch[..] == Cleared(old(scratch[..]));
    var checksum := ComputeChecksum(scratch, totalLen);
    assert scratch[..totalLen] == Cleared(old(scratch[..]))[..totalLen];
    delivery := [];
    if checksum == rxChecksum {
      delivery := [Delivery(scratch[0] % 16, scratch[0] / 16, scratch[..totalLen])];
    }
  }

  /** One round on the scratch buffer itself. */
  method ReadFrame(scratch: array<Byte>, stream: seq<Byte>)
    returns (blocked: bool, rest: seq<Byte>, fault: bool, delivery: seq<Delivery>)
    requires scratch.Length == BUFFER_SIZE
    modifies scratch
    ensures RxRound(stream, old(scratch[..]))
      == if blocked then Blocked(rest, fault) else Done(rest, scratch[..], delivery)
  {
    blocked, rest, fault, delivery := true, stream, false, [];
    if |stream| < HEADER {
      return;
    }
    CopyIn(scratch, 0, stream[..HEADER]);
    rest := stream[HEADER..];
    var len := Word(scratch[2], scratch[3]);
    var offset := Word(scratch[4], scratch[5]);
    ghost var head := scratch[..];
    assert len == WordAt(head, 2) && offset == WordAt(head, 4);
    if len + HEADER > BUFFER_SIZE {
      blocked := false;
      return;
    }
    if |rest| < len {
      return;
    }
    if offset + len > BUFFER_SIZE {
      fault := true;
      return;
    }
    CopyIn(scratch, offset, rest[..len]);
    blocked, rest := false, rest[len..];
    delivery := CheckFrame(scratch, len + HEADER);
  }

  /** uart_rx_task: header reads and payload reads into one scratch buffer, for ever. */
  method UartRxTask(scratch: array<Byte>, stream: seq<Byte>) returns (r: RxResult)
    requires scratch.Length == BUFFER_SIZE
    modifies scratch
    ensures r == RxLoop(stream, old(scratch[..]))
  {
    var delivered, rest := [], stream;
    while true
      invariant RxLoop(stream, old(scratch[..])) == Before(delivered, RxLoop(rest, scratch[..]))
      decreases |rest|
    {
      var blocked, rest', fault, delivery := ReadFrame(scratch, rest);
      if blocked {
        return RxResult(delivered, rest', fault);
      }
      delivered := delivered + delivery;
      rest := rest';
    }
  }

  // ----- the stream round trip -----

  function WireAll(items: seq<Item>): seq<Byte>
    requires forall i :: 0 <= i < |items| ==> WellFormed(items[i])
  {
    if items == [] then [] else Wire(items[0]) + WireAll(items[1..])
  }

  /** The deliveries the receiver owes for one frame. */
  function Due(item: Item): seq<Delivery>
    requires WellFormed(item)
  {
    if item.Intact? then [Delivery(item.p.ifType, item.p.ifNum, Blank(item.p))] else []
  }

  function DueAll(items: seq<Item>): seq<Delivery>
    requires forall i :: 0 <= i < |items| ==> WellFormed(items[i])
  {
    if items == [] then [] else Due(items[0]) + DueAll(items[1..])
  }

  /** Any stream of frames, any of them with one byte damaged: the receiver delivers exactly
      the intact ones, in order, and reads the stream to its end. */
  lemma {:induction false} StreamRoundTrip(items: seq<Item>, scratch: seq<Byte>)
    requires |scratch| == BUFFER_SIZE
    requires forall i :: 0 <= i < |items| ==> WellFormed(items[i])
    ensures RxLoop(WireAll(items), scratch) == RxResult(DueAll(items), [], false)
    decreases |items|
  {
    if items != [] {
      var scratch' := OneFrame(items[0], WireAll(items[1..]), scratch);
      StreamRoundTrip(items[1..], scratch');
    }
  }

  /** One frame is consumed whole, and delivered exactly if it is intact. */
  lemma OneFrame(item: Item, tail: seq<Byte>, scratch: seq<Byte>) returns (scratch': seq<Byte>)
    requires WellFormed(item) && |scratch| == BUFFER_SIZE
    ensures |scratch'| == BUFFER_SIZE
    ensures RxLoop(Wire(item) + tail, scratch) == Before(Due(item), RxLoop(tail, scratch'))
  {
    scratch' := OneRound(item, tail, scratch);
  }

  lemma OneRound(item: Item, tail: seq<Byte>, scratch: seq<Byte>) returns (scratch': seq<Byte>)
    requires WellFormed(item) && |scratch| == BUFFER_SIZE
    ensures RxRound(Wire(item) + tail, scratch) == Done(tail, scratch', Due(item))
  {
    var w, len := Wire(item), |item.p.payload|;
    Delimited(item);
    var full := StoreFrame(w, len, tail, scratch);
    CheckedDue(item, full);
    scratch' := RoundOfFrame(w, len, tail, scratch, full);
  }

  /** What the loop body does with a frame whose header delimits it. */
  lemma RoundOfFrame(w: seq<Byte>, len: nat, tail: seq<Byte>, scratch: seq<Byte>, full: seq<Byte>)
    returns (scratch': seq<Byte>)
    requires |scratch| == BUFFER_SIZE && |w| == HEADER + len && len <= MAX_PAYLOAD
    requires WordAt(w, 2) == len && WordAt(w, 4) == HEADER
    requires StoredFrame(w, len, tail, scratch, full)
    ensures RxRound(w + tail, scratch) == Done(tail, scratch', Checked(full, len + HEADER))
  {
    scratch' := Cleared(full);
  }

  ghost predicate StoredFrame(w: seq<Byte>, len: nat, tail: seq<Byte>, scratch: seq<Byte>, full: seq<Byte>)
    requires |scratch| == BUFFER_SIZE && |w| == HEADER + len && len <= MAX_PAYLOAD
  {
    var head := Stored(scratch, 0, (w + tail)[..HEADER]);
    var rest := (w + tail)[HEADER..];
    && WordAt(head, 2) == WordAt(w, 2) && WordAt(head, 4) == WordAt(w, 4)
    && |rest| >= len && rest[len..] == tail
    && full == Stored(head, HEADER, rest[..len])
  }

  /** A stored frame is delivered exactly if it is intact. */
  lemma CheckedDue(item: Item, full: seq<Byte>)
    requires WellFormed(item)
    requires var w := Wire(item); HEADER <= |w| <= |full| && full[..|w|] == w
    ensures Checked(full, |Wire(item)|) == Due(item)
  {
    CheckedPrefix(full, Wire(item));
    AcceptedExactlyIntact(item);
  }

  /** Header and payload end up side by side at the start of the buffer. */
  lemma StoreFrame(w: seq<Byte>, len: nat, tail: seq<Byte>, scratch: seq<Byte>) returns (full: seq<Byte>)
    requires |scratch| == BUFFER_SIZE && |w| == HEADER + len && len <= MAX_PAYLOAD
    ensures StoredFrame(w, len, tail, scratch, full)
    ensures |full| == BUFFER_SIZE && full[..HEADER + len] == w
  {
    var head := Stored(scratch, 0, (w + tail)[..HEADER]);
    var rest := (w + tail)[HEADER..];
    full := Stored(head, HEADER, rest[..len]);
    assert head[..HEADER] == w[..HEADER] && rest[..len] == w[HEADER..];
    assert full[..HEADER + len] == w[..HEADER] + w[HEADER..];
  }

  /** The check looks only at the frame, not at what lies behind it. */
  lemma CheckedPrefix(full: seq<Byte>, w: seq<Byte>)
    requires HEADER <= |w| <= |full| && full[..|w|] == w
    ensures Checked(full, |w|)
         == if Checksum(Cleared(w)) != WordAt(w, 6) then []
            else [Delivery(Cleared(w)[0] % 16, Cleared(w)[0] / 16, Cleared(w))]
  {
    assert Cleared(full)[..|w|] == Cleared(w);
    assert full[6] == w[6] && full[7] == w[7] && full[0] == w[0];
  }

  /** The delivered bytes still carry the packet: flags, number, flow control and payload. */
  lemma DeliveredPacket(p: Packet, scratch: seq<Byte>)
    requires |p.payload| <= MAX_PAYLOAD && |scratch| == BUFFER_SIZE
    ensures var r := RxLoop(Encode(p), scratch);
      |r.delivered| == 1 && HEADER <= |r.delivered[0].bytes| && Decode(r.delivered[0].bytes) == p
  {
    StreamRoundTrip([Intact(p)], scratch);
    assert WireAll([Intact(p)][1..]) == [];
    assert Encode(p) + [] == Encode(p);
    assert DueAll([Intact(p)]) == Due(Intact(p)) + DueAll([Intact(p)][1..]);
    DecodeBlank(p);
  }
}
