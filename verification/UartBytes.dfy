/** The UART receive loop in terms of the bytes on the stream and in the scratch buffer. */
module UartBytes {
  import opened Transport
  import opened Frame
  import opened UartStream

  /** The scratch buffer behind a header. */
  function WithHeader(stream: seq<Byte>, scratch: seq<Byte>): seq<Byte>
    requires |stream| >= 12 && |scratch| == 1600
  {
    stream[..12] + scratch[12..]
  }

  /** And with `len` bytes of payload put at `offset`. */
  function WithPayload(stream: seq<Byte>, scratch: seq<Byte>, len: nat, offset: nat): (r: seq<Byte>)
    requires |stream| >= 12 + len && |scratch| == 1600 && offset + len <= 1600
    ensures |r| == 1600
  {
    var h := WithHeader(stream, scratch);
    h[..offset] + stream[12..12 + len] + h[offset + len..]
  }

  function Len(stream: seq<Byte>): nat
    requires |stream| >= 12
  {
    Little(stream[2], stream[3])
  }

  function Offset(stream: seq<Byte>): nat
    requires |stream| >= 12
  {
    Little(stream[4], stream[5])
  }

  /** A stream that ends inside a header, or inside a payload, leaves the task blocked with
      nothing delivered from it. */
  lemma Incomplete(stream: seq<Byte>, scratch: seq<Byte>)
    requires |scratch| == 1600
    ensures |stream| < 12 ==> RxLoop(stream, scratch) == RxResult([], stream, false)
    ensures |stream| >= 12 && Len(stream) <= 1588 && |stream| < 12 + Len(stream) ==>
      RxLoop(stream, scratch) == RxResult([], stream[12..], false)
  {
    if |stream| >= 12 {
      HeaderRead(stream, scratch);
    }
  }

  /** A header that announces more than 1588 bytes is skipped, and only the header. */
  lemma OversizeSkipped(stream: seq<Byte>, scratch: seq<Byte>)
    requires |scratch| == 1600 && |stream| >= 12 && Len(stream) > 1588
    ensures RxLoop(stream, scratch) == RxLoop(stream[12..], WithHeader(stream, scratch))
  {
    HeaderRead(stream, scratch);
    var r := RxLoop(stream[12..], WithHeader(stream, scratch));
    assert [] + r.delivered == r.delivered;
  }

  /** A payload that would leave the scratch buffer is the fault. */
  lemma MisplacedFaults(stream: seq<Byte>, scratch: seq<Byte>)
    requires |scratch| == 1600 && |stream| >= 12 && Len(stream) <= 1588 && |stream| >= 12 + Len(stream)
    requires Offset(stream) + Len(stream) > 1600
    ensures RxLoop(stream, scratch) == RxResult([], stream[12..], true)
  {
    HeaderRead(stream, scratch);
  }

  /** Any other frame is delivered exactly if the sum over its 12 + len bytes in the scratch
      buffer, but for bytes 6 and 7, is the number in bytes 6 and 7; then with these cleared,
      and the interface from byte 0. The loop goes on behind it in any case. */
  lemma FrameJudged(stream: seq<Byte>, scratch: seq<Byte>)
    requires |scratch| == 1600 && |stream| >= 12 && Len(stream) <= 1588 && |stream| >= 12 + Len(stream)
    requires Offset(stream) + Len(stream) <= 1600
    ensures var len := Len(stream); var full := WithPayload(stream, scratch, len, Offset(stream));
            var clear := full[6 := 0][7 := 0];
      RxLoop(stream, scratch) == Before(
        if SumBut(full, 12 + len) % 65536 == Little(full[6], full[7])
        then [Delivery(clear[0] % 16, clear[0] / 16, clear[..12 + len])] else [],
        RxLoop(stream[12 + len..], clear))
  {
    var len, offset := Len(stream), Offset(stream);
    HeaderRead(stream, scratch);
    PayloadRead(stream, scratch, len, offset);
    ClearedSum(WithPayload(stream, scratch, len, offset), 12 + len);
  }

  lemma HeaderRead(stream: seq<Byte>, scratch: seq<Byte>)
    requires |scratch| == 1600 && |stream| >= 12
    ensures var head := Stored(scratch, 0, stream[..HEADER]);
      head == WithHeader(stream, scratch) && WordAt(head, 2) == Len(stream) && WordAt(head, 4) == Offset(stream)
  {
  }

  lemma PayloadRead(stream: seq<Byte>, scratch: seq<Byte>, len: nat, offset: nat)
    requires |stream| >= 12 + len && |scratch| == 1600 && offset + len <= 1600
    ensures Stored(WithHeader(stream, scratch), offset, stream[12..][..len])
         == WithPayload(stream, scratch, len, offset)
    ensures stream[12..][len..] == stream[12 + len..]
  {
    assert stream[12..][..len] == stream[12..12 + len];
  }
}
