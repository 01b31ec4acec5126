/** Vocabulary shared by the models: bytes, little-endian words, priority classes
    and the buffer handles that travel to the host. */
module Transport {

  type Byte = b: int | 0 <= b < 256
  type Word16 = w: int | 0 <= w < 0x1_0000

  type Word32 = w: int | 0 <= w < SPAN

  const SPAN: nat := 0x1_0000_0000

  /** PRIO_Q_SERIAL, PRIO_Q_BT and PRIO_Q_OTHERS are 0, 1 and 2. */
  type Class = c: int | 0 <= c < 3

  const SERIAL: Class := 0
  const BT: Class := 1
  const OTHERS: Class := 2

  /** An interface_buffer_handle_t on its way to the host. `call` names the heap
      block its payload points into; `owner` says that the handle carries the
      block's free function, so handling it frees the block. */
  datatype Buffer = Buffer(
    cls: Class,
    call: nat,
    owner: bool,
    payload: seq<Byte>,
    seqNum: Word16,
    more: bool)

  /** The buffers of one call: one class, one heap block, and only the last one
      may own that block. */
  ghost predicate OneCall(bufs: seq<Buffer>, call: nat, cls: Class)
  {
    && bufs != []
    && (forall i :: 0 <= i < |bufs| ==> bufs[i].call == call && bufs[i].cls == cls)
    && (forall i :: 0 <= i < |bufs| - 1 ==> !bufs[i].owner)
  }

  function Low(w: Word16): Byte { w % 256 }

  function High(w: Word16): Byte { w / 256 }

  /** The number two bytes stand for, low byte first. */
  function Little(low: nat, high: nat): nat { low + 256 * high }

  function Word(low: Byte, high: Byte): Word16 { low + 256 * high }
}
