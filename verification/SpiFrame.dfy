/** The frame checks of the SPI driver's process_spi_rx, on a whole receive buffer. */
module SpiFrame {
  import opened Transport
  import opened Frame
  import UartStream

  datatype Verdict = Dropped | Accepted(queue: Class, ifType: Nibble, ifNum: Nibble, totalLen: nat)

  /** The receive queue for an interface: ESP_SERIAL_IF is 3, ESP_HCI_IF is 4. */
  function QueueFor(ifType: Nibble): Class
  {
    if ifType == 3 then SERIAL else if ifType == 4 then BT else OTHERS
  }

  function Verdicts(buf: seq<Byte>): Verdict
    requires |buf| == BUFFER_SIZE
  {
    var len, offset := WordAt(buf, 2), WordAt(buf, 4);
    if len == 0 || len + offset > BUFFER_SIZE then Dropped
    else if Checksum(Cleared(buf)[..len + offset]) != WordAt(buf, 6) then Dropped
    else
      var b := Cleared(buf)[0];
      Accepted(QueueFor(b % 16), b % 16, b / 16, len + offset)
  }

  /** A buffer of 1600 bytes that process_spi_rx must file. */
  predicate Acceptable(buf: seq<Byte>)
    requires |buf| == 1600
  {
    var len, offset := Little(buf[2], buf[3]), Little(buf[4], buf[5]);
    && len > 0
    && len + offset <= 1600
    && SumBut(buf, len + offset) % 65536 == Little(buf[6], buf[7])
  }

  /** process_spi_rx with checksums enabled: what it drops and what it files, and where, in
      the bytes of the buffer. */
  method ProcessSpiRx(buf: array<Byte>) returns (r: Verdict)
    requires buf.Length == 1600
    modifies buf
    ensures r == Verdicts(old(buf[..]))
    ensures r.Accepted? <==> Acceptable(old(buf[..]))
    ensures r.Accepted? ==> buf[..] == old(buf[..])[6 := 0][7 := 0]
    ensures r.Accepted? ==>
      && r.ifType == old(buf[0]) % 16 && r.ifNum == old(buf[0]) / 16
      && r.totalLen == old(Little(buf[2], buf[3]) + Little(buf[4], buf[5]))
      && r.queue == (if r.ifType == 3 then 0 else if r.ifType == 4 then 1 else 2)
  {
    AcceptedExactly(buf[..]);
    var len, offset := Word(buf[2], buf[3]), Word(buf[4], buf[5]);
    if len == 0 {
      return Dropped;
    }
    if len + offset > BUFFER_SIZE {
      return Dropped;
    }
    var rxChecksum := Word(buf[6], buf[7]);
    buf[6], buf[7] := 0, 0;
    assert buf[..] == Cleared(old(buf[..]));
    var checksum := ComputeChecksum(buf, len + offset);
    assert buf[..len + offset] == buf[..][..len + offset];
    if checksum != rxChecksum {
      return Dropped;
    }
    var ifType := buf[0] % 16;
    var queue := if ifType == 3 then SERIAL else if ifType == 4 then BT else OTHERS;
    r := Accepted(queue, ifType, buf[0] / 16, len + offset);
  }

  /** For every buffer: it is filed exactly if its length is not zero, the frame lies inside
      the buffer, and the sum of all its bytes but the checksum's is the checksum. */
  lemma AcceptedExactly(buf: seq<Byte>)
    requires |buf| == 1600
    ensures Verdicts(buf).Accepted? <==> Acceptable(buf)
    ensures Verdicts(buf).Accepted? ==>
      Verdicts(buf).totalLen == Little(buf[2], buf[3]) + Little(buf[4], buf[5])
  {
    var n := WordAt(buf, 2) + WordAt(buf, 4);
    if n <= 1600 {
      ClearedSum(buf, n);
    }
  }

  /** A frame without payload, such as the dummy buffer of an idle host, is always dropped. */
  lemma EmptyIsDropped(buf: seq<Byte>)
    requires |buf| == 1600 && buf[2] == 0 && buf[3] == 0
    ensures Verdicts(buf) == Dropped
  {
    AcceptedExactly(buf);
  }

  /** A frame with a payload, at the start of a buffer with any other content: it is
      accepted exactly if none of the bytes considered was changed. */
  lemma AcceptsExactlyIntact(item: Item, buf: seq<Byte>)
    requires WellFormed(item) && item.p.payload != [] && |buf| == BUFFER_SIZE
    requires |Wire(item)| <= |buf| && buf[..|Wire(item)|] == Wire(item)
    ensures Verdicts(buf)
         == if item.Intact? then Accepted(QueueFor(item.p.ifType), item.p.ifType, item.p.ifNum, HEADER + |item.p.payload|)
            else Dropped
  {
    Delimited(item);
    AcceptedExactlyIntact(item);
    FrontByte(item.p);
    VerdictOfFrame(Wire(item), |item.p.payload|, buf);
  }

  lemma FrontByte(p: Packet)
    requires Fits(p)
    ensures Blank(p)[0] % 16 == p.ifType && Blank(p)[0] / 16 == p.ifNum
  {
    assert Blank(p)[0] == p.ifType + 16 * p.ifNum;
  }

  /** What the tests make of a frame whose header delimits it. */
  lemma VerdictOfFrame(w: seq<Byte>, len: nat, buf: seq<Byte>)
    requires |w| == HEADER + len <= |buf| == BUFFER_SIZE && buf[..|w|] == w && len > 0
    requires WordAt(w, 2) == len && WordAt(w, 4) == HEADER
    ensures Verdicts(buf)
         == if Checksum(Cleared(w)) != WordAt(w, 6) then Dropped
            else Accepted(QueueFor(Cleared(w)[0] % 16), Cleared(w)[0] % 16, Cleared(w)[0] / 16, HEADER + len)
  {
    FrameInBuffer(w, buf);
  }

  lemma FrameInBuffer(w: seq<Byte>, buf: seq<Byte>)
    requires HEADER <= |w| <= |buf| == BUFFER_SIZE && buf[..|w|] == w
    ensures WordAt(buf, 2) == WordAt(w, 2) && WordAt(buf, 4) == WordAt(w, 4) && WordAt(buf, 6) == WordAt(w, 6)
    ensures Cleared(buf)[..|w|] == Cleared(w) && Cleared(buf)[0] == Cleared(w)[0]
  {
    assert forall i :: 0 <= i < |w| ==> buf[i] == buf[..|w|][i];
  }

  // ----- sending -----

  /** MAKE_SPI_DMA_ALIGNED, where needed. */
  function DmaAligned(n: nat): nat { if n % 4 == 0 then n else n + 4 - n % 4 }

  datatype WriteResult = Refused | Queued(queue: Class, buf: seq<Byte>, len: nat)

  /** esp_spi_write up to the transmit queue: the frame at the start of a zeroed block, and
      the length handed on. */
  method EspSpiWrite(p: Packet) returns (r: WriteResult)
    requires Fits(p)
    ensures r.Refused? <==> p.payload == [] || |p.payload| + 12 > 1600
    ensures r.Queued? ==>
      && |r.buf| == 1600 && r.buf[..12 + |p.payload|] == Encode(p)
      && (forall i :: 12 + |p.payload| <= i < 1600 ==> r.buf[i] == 0)
      && r.queue == (if p.ifType == 3 then 0 else if p.ifType == 4 then 1 else 2)
      && 12 + |p.payload| <= r.len < 16 + |p.payload| && r.len % 4 == 0 && r.len <= 1600
  {
    if p.payload == [] {
      return Refused;
    }
    var total := |p.payload| + HEADER;
    var totalLen := DmaAligned(total);
    if totalLen > BUFFER_SIZE {
      return Refused;
    }
    var buf := new Byte[BUFFER_SIZE](_ => 0);
    BuildFrame(buf, p);
    var queue := if p.ifType == 3 then SERIAL else if p.ifType == 4 then BT else OTHERS;
    r := Queued(queue, buf[..], totalLen);
  }

  /** Header, payload and checksum, in a zeroed block. */
  method BuildFrame(buf: array<Byte>, p: Packet)
    requires Fits(p) && HEADER + |p.payload| <= buf.Length
    requires forall i :: 0 <= i < buf.Length ==> buf[i] == 0
    modifies buf
    ensures buf[..HEADER + |p.payload|] == Encode(p)
    ensures forall i :: HEADER + |p.payload| <= i < buf.Length ==> buf[i] == 0
  {
    var total := HEADER + |p.payload|;
    UartStream.FillHeader(buf, p);
    ghost var before := buf[..];
    assert before[..HEADER] == Header(p, 0);
    UartStream.CopyIn(buf, HEADER, p.payload);
    ghost var after := buf[..];
    assert after == before[..HEADER] + p.payload + before[total..];
    assert after[..total] == Blank(p) && after[total..] == before[total..];
    assert buf[..total] == after[..total];
    var checksum := ComputeChecksum(buf, total);
    buf[6], buf[7] := Low(checksum), High(checksum);
    EncodeBlank(p);
    assert buf[..] == after[6 := Low(checksum)][7 := High(checksum)];
    assert buf[..total] == after[..total][6 := Low(checksum)][7 := High(checksum)];
  }

  lemma EncodeBlank(p: Packet)
    requires Fits(p)
    ensures var c := Checksum(Blank(p)); Encode(p) == Blank(p)[6 := Low(c)][7 := High(c)]
  {
  }

  /** What the writer builds passes the receiver's tests, with nothing changed. */
  lemma WrittenIsAccepted(p: Packet, buf: seq<Byte>)
    requires 0 < |p.payload| <= MAX_PAYLOAD && |buf| == 1600 && buf[..12 + |p.payload|] == Encode(p)
    ensures Acceptable(buf)
    ensures Decode(buf[6 := 0][7 := 0][..12 + |p.payload|]) == p
  {
    AcceptsExactlyIntact(Intact(p), buf);
    AcceptedExactly(buf);
    ClearedFront(p, buf);
    DecodeBlank(p);
  }

  lemma ClearedFront(p: Packet, buf: seq<Byte>)
    requires Fits(p) && 12 + |p.payload| <= |buf| && buf[..12 + |p.payload|] == Encode(p)
    ensures buf[6 := 0][7 := 0][..12 + |p.payload|] == Blank(p)
  {
    assert buf[6 := 0][7 := 0][..12 + |p.payload|] == Encode(p)[6 := 0][7 := 0];
  }
}
