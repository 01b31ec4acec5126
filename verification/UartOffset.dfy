/** Frames on the UART whose offset field was damaged: the loop still reads header and
    payload in step, but puts the payload elsewhere in the scratch buffer. */
module UartOffset {
  import opened Transport
  import opened Frame
  import opened UartStream

  /** A frame as before, or one with a byte of its offset field changed. */
  datatype Arrival = Plain(item: Item) | Shifted(p: Packet, at: nat, value: Byte)

  /** The changed offset keeps the payload inside the scratch buffer. */
  predicate Receivable(a: Arrival)
  {
    match a
    case Plain(item) => WellFormed(item)
    case Shifted(p, at, value) =>
      && |p.payload| <= MAX_PAYLOAD && 4 <= at <= 5 && value != Encode(p)[at]
      && WordAt(Encode(p)[at := value], 4) + |p.payload| <= BUFFER_SIZE
  }

  function Sent(a: Arrival): seq<Byte>
    requires Receivable(a)
  {
    if a.Plain? then Wire(a.item) else Encode(a.p)[a.at := a.value]
  }

  function Offset(a: Arrival): Word16
    requires Receivable(a)
  {
    WordAt(Sent(a), 4)
  }

  function AllSent(arrivals: seq<Arrival>): seq<Byte>
    requires forall i :: 0 <= i < |arrivals| ==> Receivable(arrivals[i])
  {
    if arrivals == [] then [] else Sent(arrivals[0]) + AllSent(arrivals[1..])
  }

  lemma SentFields(a: Arrival)
    requires Receivable(a)
    ensures var p := if a.Plain? then a.item.p else a.p;
      && |p.payload| <= MAX_PAYLOAD && |Sent(a)| == HEADER + |p.payload|
      && WordAt(Sent(a), 2) == |p.payload|
      && (a.Plain? ==> Offset(a) == HEADER)
      && (a.Shifted? ==> Sent(a)[HEADER..] == p.payload)
  {
    if a.Plain? {
      Delimited(a.item);
    } else {
      assert Encode(a.p)[HEADER..] == a.p.payload;
    }
  }

  /** The scratch buffer with header and payload in it, wherever the offset put that. */
  function Landed(a: Arrival, scratch: seq<Byte>): (r: seq<Byte>)
    requires Receivable(a) && |scratch| == BUFFER_SIZE
    ensures |r| == BUFFER_SIZE
  {
    SentFields(a);
    Stored(Stored(scratch, 0, Sent(a)[..HEADER]), Offset(a), Sent(a)[HEADER..])
  }

  /** What the receiver owes for one arrival: an intact frame as sent, a damaged one not at
      all, a displaced one if the old scratch content makes its checksum right. */
  function DueFrom(a: Arrival, scratch: seq<Byte>): seq<Delivery>
    requires Receivable(a) && |scratch| == BUFFER_SIZE
  {
    if a.Plain? then Due(a.item) else Checked(Landed(a, scratch), HEADER + |a.p.payload|)
  }

  function DueAllFrom(arrivals: seq<Arrival>, scratch: seq<Byte>): seq<Delivery>
    requires forall i :: 0 <= i < |arrivals| ==> Receivable(arrivals[i])
    requires |scratch| == BUFFER_SIZE
    decreases |arrivals|
  {
    if arrivals == [] then []
    else DueFrom(arrivals[0], scratch) + DueAllFrom(arrivals[1..], Cleared(Landed(arrivals[0], scratch)))
  }

  /** Any stream of such frames is read to its end in step: whatever became of the displaced
      ones, every intact frame is delivered and every other damaged one dropped. */
  lemma {:induction false} OffsetDamageKeepsStep(arrivals: seq<Arrival>, scratch: seq<Byte>)
    requires |scratch| == BUFFER_SIZE
    requires forall i :: 0 <= i < |arrivals| ==> Receivable(arrivals[i])
    ensures RxLoop(AllSent(arrivals), scratch) == RxResult(DueAllFrom(arrivals, scratch), [], false)
    decreases |arrivals|
  {
    if arrivals != [] {
      var tail := AllSent(arrivals[1..]);
      ArrivalRound(arrivals[0], tail, scratch);
      OffsetDamageKeepsStep(arrivals[1..], Cleared(Landed(arrivals[0], scratch)));
    }
  }

  lemma ArrivalRound(a: Arrival, tail: seq<Byte>, scratch: seq<Byte>)
    requires Receivable(a) && |scratch| == BUFFER_SIZE
    ensures RxRound(Sent(a) + tail, scratch) == Done(tail, Cleared(Landed(a, scratch)), DueFrom(a, scratch))
  {
    var w, len := Sent(a), |Sent(a)| - HEADER;
    SentFields(a);
    Pieces(w, len, tail, scratch);
    RoundWithOffset(w, len, Offset(a), tail, scratch);
    if a.Plain? {
      InPlace(w, len, scratch);
      CheckedDue(a.item, Landed(a, scratch));
    }
  }

  lemma InPlace(w: seq<Byte>, len: nat, scratch: seq<Byte>)
    requires |w| == HEADER + len <= BUFFER_SIZE == |scratch|
    ensures Stored(Stored(scratch, 0, w[..HEADER]), HEADER, w[HEADER..])[..|w|] == w
  {
  }

  lemma Pieces(w: seq<Byte>, len: nat, tail: seq<Byte>, scratch: seq<Byte>)
    requires |w| == HEADER + len && |scratch| == BUFFER_SIZE
    ensures (w + tail)[..HEADER] == w[..HEADER]
    ensures |(w + tail)[HEADER..]| >= len
    ensures (w + tail)[HEADER..][..len] == w[HEADER..] && (w + tail)[HEADER..][len..] == tail
    ensures var head := Stored(scratch, 0, w[..HEADER]);
      WordAt(head, 2) == WordAt(w, 2) && WordAt(head, 4) == WordAt(w, 4)
  {
  }

  /** The loop body on a frame whose header says where its payload goes. */
  lemma RoundWithOffset(w: seq<Byte>, len: nat, offset: Word16, tail: seq<Byte>, scratch: seq<Byte>)
    requires |w| == HEADER + len && |scratch| == BUFFER_SIZE && len <= MAX_PAYLOAD
    requires WordAt(w, 2) == len && WordAt(w, 4) == offset && offset + len <= BUFFER_SIZE
    requires (w + tail)[..HEADER] == w[..HEADER] && |(w + tail)[HEADER..]| >= len
    requires (w + tail)[HEADER..][..len] == w[HEADER..] && (w + tail)[HEADER..][len..] == tail
    requires var head := Stored(scratch, 0, w[..HEADER]);
      WordAt(head, 2) == WordAt(w, 2) && WordAt(head, 4) == WordAt(w, 4)
    ensures var full := Stored(Stored(scratch, 0, w[..HEADER]), offset, w[HEADER..]);
      RxRound(w + tail, scratch) == Done(tail, Cleared(full), Checked(full, HEADER + len))
  {
  }

  // ----- when a displaced frame passes -----

  /** The byte at i: the payload wherever it landed, else the header, else what an earlier
      frame left behind. */
  lemma LandedAt(a: Arrival, scratch: seq<Byte>, i: nat)
    requires Receivable(a) && a.Shifted? && |scratch| == BUFFER_SIZE && i < BUFFER_SIZE
    ensures Landed(a, scratch)[i] ==
      if Offset(a) <= i < Offset(a) + |a.p.payload| then a.p.payload[i - Offset(a)]
      else if i < HEADER then Sent(a)[i]
      else scratch[i]
  {
    SentFields(a);
    StoredAt(Stored(scratch, 0, Sent(a)[..HEADER]), Offset(a), a.p.payload, i);
    StoredAt(scratch, 0, Sent(a)[..HEADER], i);
  }

  lemma StoredAt(buf: seq<Byte>, at: nat, s: seq<Byte>, i: nat)
    requires at + |s| <= |buf| && i < |buf|
    ensures Stored(buf, at, s)[i] == if at <= i < at + |s| then s[i - at] else buf[i]
  {
  }

  /** The bytes summed in the payload's place. */
  function Region(a: Arrival, scratch: seq<Byte>): seq<Byte>
    requires Receivable(a) && a.Shifted? && |scratch| == BUFFER_SIZE
  {
    Landed(a, scratch)[HEADER..HEADER + |a.p.payload|]
  }

  lemma {:induction false} SumConcat(a: seq<Byte>, b: seq<Byte>)
    ensures ByteSum(a + b) == ByteSum(a) + ByteSum(b)
  {
    if b == [] {
      assert a + b == a;
    } else {
      SumConcat(a, b[..|b| - 1]);
      assert (a + b)[..|a + b| - 1] == a + b[..|b| - 1];
    }
  }

  /** A frame displaced behind its header passes exactly if the change of the offset byte and
      the exchange of payload for stale bytes cancel modulo 2^16. */
  lemma PassesExactly(a: Arrival, scratch: seq<Byte>)
    requires Receivable(a) && a.Shifted? && |scratch| == BUFFER_SIZE && Offset(a) >= HEADER
    ensures DueFrom(a, scratch) != [] <==>
      (ByteSum(Region(a, scratch)) + a.value) % 0x1_0000
        == (ByteSum(a.p.payload) + Encode(a.p)[a.at]) % 0x1_0000
  {
    PassesBySum(a, scratch);
    SumsMeet(a, scratch);
  }

  /** The sum the receiver takes of a displaced frame. */
  function SumTaken(a: Arrival, scratch: seq<Byte>): nat
    requires Receivable(a) && a.Shifted? && |scratch| == BUFFER_SIZE
  {
    ByteSum(Cleared(Landed(a, scratch))[..HEADER + |a.p.payload|])
  }

  lemma PassesBySum(a: Arrival, scratch: seq<Byte>)
    requires Receivable(a) && a.Shifted? && |scratch| == BUFFER_SIZE && Offset(a) >= HEADER
    ensures DueFrom(a, scratch) != [] <==> SumTaken(a, scratch) % 0x1_0000 == ByteSum(Blank(a.p)) % 0x1_0000
  {
    HeaderInPlace(a, scratch);
    CheckedExactly(Landed(a, scratch), HEADER + |a.p.payload|);
  }

  lemma SumsMeet(a: Arrival, scratch: seq<Byte>)
    requires Receivable(a) && a.Shifted? && |scratch| == BUFFER_SIZE && Offset(a) >= HEADER
    ensures SumTaken(a, scratch) % 0x1_0000 == ByteSum(Blank(a.p)) % 0x1_0000
       <==> (ByteSum(Region(a, scratch)) + a.value) % 0x1_0000
              == (ByteSum(a.p.payload) + Encode(a.p)[a.at]) % 0x1_0000
  {
    var h, o, r, l := ByteSum(Header(a.p, 0)), Encode(a.p)[a.at], ByteSum(Region(a, scratch)), ByteSum(a.p.payload);
    assert SumTaken(a, scratch) + o == h + a.value + r by {
      HeaderInPlace(a, scratch);
      SumInPlace(a, scratch);
    }
    assert ByteSum(Blank(a.p)) == h + l by {
      SumConcat(Header(a.p, 0), a.p.payload);
    }
    SumsAgree(SumTaken(a, scratch), ByteSum(Blank(a.p)), h, a.value, o, r, l);
  }

  lemma CheckedExactly(full: seq<Byte>, total: nat)
    requires HEADER <= total <= |full|
    ensures Checked(full, total) != [] <==> Checksum(Cleared(full)[..total]) == WordAt(full, 6)
  {
  }

  /** The sum over the frame: the header with its changed byte, and the region. */
  lemma SumInPlace(a: Arrival, scratch: seq<Byte>)
    requires Receivable(a) && a.Shifted? && |scratch| == BUFFER_SIZE && Offset(a) >= HEADER
    ensures SumTaken(a, scratch) + Header(a.p, 0)[a.at] == ByteSum(Header(a.p, 0)) + a.value + ByteSum(Region(a, scratch))
  {
    HeaderInPlace(a, scratch);
    var blank := Header(a.p, 0)[a.at := a.value];
    var clear := Cleared(Landed(a, scratch));
    SplitAt(clear, HEADER, HEADER + |a.p.payload|);
    assert clear[HEADER..HEADER + |a.p.payload|] == Region(a, scratch);
    SumConcat(blank, Region(a, scratch));
    SumUpdate(Header(a.p, 0), a.at, a.value);
  }

  lemma SplitAt(s: seq<Byte>, i: nat, j: nat)
    requires i <= j <= |s|
    ensures s[..j] == s[..i] + s[i..j]
  {
  }

  /** A header behind which the payload landed stands as it was received. */
  lemma HeaderInPlace(a: Arrival, scratch: seq<Byte>)
    requires Receivable(a) && a.Shifted? && |scratch| == BUFFER_SIZE && Offset(a) >= HEADER
    ensures Landed(a, scratch)[..HEADER] == Sent(a)[..HEADER]
    ensures Cleared(Landed(a, scratch))[..HEADER] == Header(a.p, 0)[a.at := a.value]
    ensures WordAt(Landed(a, scratch), 6) == Checksum(Blank(a.p))
    ensures Encode(a.p)[a.at] == Header(a.p, 0)[a.at]
  {
    var full := Landed(a, scratch);
    assert full[..HEADER] == Sent(a)[..HEADER];
    assert full[6] == Sent(a)[6] && full[7] == Sent(a)[7];
  }

  lemma SumsAgree(x: nat, y: nat, header: nat, value: nat, was: nat, region: nat, payload: nat)
    requires x + was == header + value + region && y == header + payload
    ensures x % 0x1_0000 == y % 0x1_0000 <==> (region + value) % 0x1_0000 == (payload + was) % 0x1_0000
  {
    SameModulo(x, y);
    SameModulo(region + value, payload + was);
  }

  lemma SameModulo(x: nat, y: nat)
    ensures x % 0x1_0000 == y % 0x1_0000 <==> (x - y) % 0x1_0000 == 0
  {
  }

  /** What passes is never the payload that was sent. */
  lemma PassedIsWrong(a: Arrival, scratch: seq<Byte>)
    requires Receivable(a) && a.Shifted? && |scratch| == BUFFER_SIZE && Offset(a) >= HEADER
    ensures DueFrom(a, scratch) != [] ==> Region(a, scratch) != a.p.payload
  {
    PassesBySum(a, scratch);
    SumsMeet(a, scratch);
    DifferentBytes(ByteSum(a.p.payload), a.value, Encode(a.p)[a.at]);
  }

  lemma DifferentBytes(x: nat, v: Byte, w: Byte)
    requires v != w
    ensures (x + v) % 0x1_0000 != (x + w) % 0x1_0000
  {
  }
}
