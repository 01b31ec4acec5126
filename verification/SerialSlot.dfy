/** Reassembly of control messages: recv_task gathers fragments in the single slot `r` and
    hands it over through the request queue; pserial_task reads the slot and clears it.
    Events of other tasks share the queue. */
module SerialSlot {
  import opened Transport
  import Tlv

  const SLOT_SIZE: nat := 4096

  /** A fragment as received: its number, whether more follow, its payload. */
  datatype Frag = Frag(seqNum: Word16, more: bool, payload: seq<Byte>)

  /** struct rx_data. */
  datatype Slot = Slot(valid: bool, curSeqNo: Word16, len: nat, data: seq<Byte>)

  datatype Arg = AnEvent(id: nat) | ARequest(copy: seq<Byte>)

  datatype Receiver =
    | Ready
    | Waiting(f: Frag, rem: int)    // room computed, waiting for the slot
    | HandingOver                   // valid set, bytes not yet copied
    | Queueing(copy: seq<Byte>)     // copied, not yet in the request queue

  datatype Reader = Resting | Took(arg: Arg)

  datatype State = State(
    cap: nat,
    slot: Slot,
    recv: Receiver,
    queue: seq<Arg>,
    reader: Reader,
    // history
    arrived: seq<Frag>,             // fragments processed
    stored: seq<Frag>,              // the same, each cut to the room it was given
    offered: seq<seq<Byte>>,        // slot contents at each hand-over
    returned: seq<seq<Byte>>,       // what serial_read_data returned
    handled: seq<Tlv.Parsed>,       // outcomes of rpc_req_handler
    clear: bool)                    // so far every fragment arrived with valid clear

  datatype Step = Arrive(f: Frag) | Accept | CopyOut | Enqueue | PostEvent(id: nat) | Take | Serve

  predicate Shaped(s: State)
  {
    && s.cap >= 1 && |s.slot.data| == SLOT_SIZE && s.slot.len <= SLOT_SIZE
    && (s.recv.Waiting? ==> 0 <= s.recv.rem <= SLOT_SIZE - s.slot.len)
  }

  predicate Enabled(s: State, st: Step)
  {
    match st
    case Arrive(_) => s.recv.Ready?
    case Accept => s.recv.Waiting? && !s.slot.valid
    case CopyOut => s.recv.HandingOver?
    case Enqueue => s.recv.Queueing? && |s.queue| < s.cap
    case PostEvent(_) => |s.queue| < s.cap
    case Take => s.reader.Resting? && s.queue != []
    case Serve => s.reader.Took?
  }

  // ----- process_serial_rx_pkt and serial_read_data -----

  function Min(a: int, b: int): int { if a < b then a else b }

  /** The payload cut to the room computed on arrival. */
  function CutTo(f: Frag, rem: nat): Frag
  {
    f.(payload := f.payload[..Min(|f.payload|, rem)])
  }

  /** A new message takes its number from its first fragment. */
  function Numbered(r: Slot, f: Frag): Slot
  {
    if r.len == 0 then r.(curSeqNo := f.seqNum) else r
  }

  /** The slot after a fragment for which `rem` bytes of room were computed. */
  function Processed(r: Slot, f: Frag, rem: nat): (r': Slot)
    requires |r.data| == SLOT_SIZE && r.len + rem <= SLOT_SIZE
    ensures |r'.data| == SLOT_SIZE && r.len <= r'.len <= SLOT_SIZE
  {
    var n := Numbered(r, f);
    var bytes := CutTo(f, rem).payload;
    if f.seqNum != n.curSeqNo then n.(valid := true)
    else Slot(!f.more, n.curSeqNo, r.len + |bytes|,
              r.data[..r.len] + bytes + r.data[r.len + |bytes|..])
  }

  /** serial_read_data into a buffer that holds a copy already. */
  function ReadBytes(r: Slot, copy: seq<Byte>): seq<Byte>
    requires r.len <= |r.data|
  {
    var len := Min(|copy|, r.len);
    if r.valid then r.data[..len] else copy[..len]
  }

  function Emptied(r: Slot): Slot
  {
    if r.valid then r.(valid := false, len := 0, curSeqNo := 0) else r
  }

  function Next(s: State, st: Step): State
    requires Shaped(s) && Enabled(s, st)
  {
    match st
    case Arrive(f) =>
      s.(recv := Waiting(f, SLOT_SIZE - s.slot.len), clear := s.clear && !s.slot.valid)
    case Accept =>
      var f, rem := s.recv.f, s.recv.rem;
      var slot := Processed(s.slot, f, rem);
      s.(slot := slot, recv := if slot.valid then HandingOver else Ready,
         arrived := s.arrived + [f], stored := s.stored + [CutTo(f, rem)],
         offered := if slot.valid then s.offered + [slot.data[..slot.len]] else s.offered)
    case CopyOut => s.(recv := Queueing(s.slot.data[..s.slot.len]))
    case Enqueue => s.(recv := Ready, queue := s.queue + [ARequest(s.recv.copy)])
    case PostEvent(id) => s.(queue := s.queue + [AnEvent(id)])
    case Take => s.(reader := Took(s.queue[0]), queue := s.queue[1..])
    case Serve =>
      match s.reader.arg
      case AnEvent(_) => s.(reader := Resting)
      case ARequest(copy) =>
        var bytes := ReadBytes(s.slot, copy);
        s.(reader := Resting, slot := Emptied(s.slot), returned := s.returned + [bytes],
           handled := if bytes == [] then s.handled else s.handled + [Tlv.Parse(bytes)])
  }

  predicate Init(s: State)
  {
    && Shaped(s) && !s.slot.valid && s.slot.len == 0
    && s.recv.Ready? && s.queue == [] && s.reader.Resting?
    && s.arrived == [] && s.stored == [] && s.offered == [] && s.returned == [] && s.handled == []
    && s.clear
  }

  lemma ShapedNext(s: State, st: Step)
    requires Shaped(s) && Enabled(s, st)
    ensures Shaped(Next(s, st)) && Next(s, st).cap == s.cap
  {
  }

  ghost predicate IsRun(s: State, steps: seq<Step>)
    requires Shaped(s)
    decreases |steps|
  {
    steps == [] || (Enabled(s, steps[0])
      && Shaped(Next(s, steps[0])) && IsRun(Next(s, steps[0]), steps[1..]))
  }

  ghost function Run(s: State, steps: seq<Step>): (t: State)
    requires Shaped(s) && IsRun(s, steps)
    ensures Shaped(t) && t.cap == s.cap
    decreases |steps|
  {
    if steps == [] then s else Run(Next(s, steps[0]), steps[1..])
  }

  // ----- the reference: what a list of fragments means -----

  /** Bytes gathered so far under one number, and the messages completed. */
  datatype Gather = Gather(seqNum: Word16, bytes: seq<Byte>, out: seq<seq<Byte>>)

  /** A fragment with a foreign number ends the message and is lost; the last fragment ends
      it too. */
  function Gathered(g: Gather, f: Frag): Gather
  {
    var n := if g.bytes == [] then f.seqNum else g.seqNum;
    if f.seqNum != n then Gather(n, [], g.out + [g.bytes])
    else if f.more then Gather(n, g.bytes + f.payload, g.out)
    else Gather(n, [], g.out + [g.bytes + f.payload])
  }

  function GatherAll(fs: seq<Frag>): Gather
  {
    if fs == [] then Gather(0, [], []) else Gathered(GatherAll(fs[..|fs| - 1]), fs[|fs| - 1])
  }

  lemma GatherAppend(fs: seq<Frag>, f: Frag)
    ensures GatherAll(fs + [f]) == Gathered(GatherAll(fs), f)
  {
    assert (fs + [f])[..|fs|] == fs;
  }

  // ----- the invariant -----

  function RequestsIn(q: seq<Arg>): seq<seq<Byte>>
  {
    if q == [] then []
    else if q[0].ARequest? then [q[0].copy] + RequestsIn(q[1..])
    else RequestsIn(q[1..])
  }

  function Held(r: Reader): nat { if r.Took? && r.arg.ARequest? then 1 else 0 }

  /** Requests somewhere between setting `valid` and reading the slot: at the receiver, in
      the queue, at the reader. */
  function Pending(s: State): nat
  {
    (if s.recv.HandingOver? || s.recv.Queueing? then 1 else 0) + |RequestsIn(s.queue)| + Held(s.reader)
  }

  function Bytes(r: Slot): seq<Byte>
    requires r.len <= |r.data|
  {
    r.data[..r.len]
  }

  /** valid is set exactly while one request is pending, and the request's copy is the
      slot's contents. */
  predicate Handshake(s: State)
    requires Shaped(s)
  {
    && Pending(s) == (if s.slot.valid then 1 else 0)
    && (s.recv.Queueing? ==> s.recv.copy == Bytes(s.slot))
    && (RequestsIn(s.queue) != [] ==> RequestsIn(s.queue)[0] == Bytes(s.slot))
    && (Held(s.reader) == 1 ==> s.reader.arg.copy == Bytes(s.slot))
  }

  /** The slot is the reference's partial message; what was handed over is its output, all
      of it read but the hand-over pending. */
  ghost predicate Meaning(s: State)
    requires Shaped(s)
  {
    var g := GatherAll(s.stored);
    var bytes := Bytes(s.slot);
    && s.offered == g.out
    && s.offered == s.returned + (if s.slot.valid then [bytes] else [])
    && g.bytes == (if s.slot.valid then [] else bytes)
    && (!s.slot.valid && s.slot.len > 0 ==> g.seqNum == s.slot.curSeqNo)
  }

  ghost predicate Inv(s: State) { Shaped(s) && Handshake(s) && Meaning(s) }

  lemma InvInit(s: State)
    requires Init(s)
    ensures Inv(s)
  {
    assert RequestsIn(s.queue) == [];
  }

  lemma {:induction false} RequestsAppend(q: seq<Arg>, a: Arg)
    ensures RequestsIn(q + [a]) == RequestsIn(q) + RequestsIn([a])
  {
    if q == [] {
      assert q + [a] == [a];
    } else {
      assert (q + [a])[1..] == q[1..] + [a];
      RequestsAppend(q[1..], a);
    }
  }

  lemma RequestsHead(q: seq<Arg>)
    requires q != []
    ensures RequestsIn(q) == (if q[0].ARequest? then [q[0].copy] else []) + RequestsIn(q[1..])
  {
  }

  lemma HandshakeNext(s: State, st: Step)
    requires Shaped(s) && Handshake(s) && Enabled(s, st)
    ensures Shaped(Next(s, st)) && Handshake(Next(s, st))
  {
    match st {
      case Enqueue =>
        RequestsAppend(s.queue, ARequest(s.recv.copy));
        RequestsHead([ARequest(s.recv.copy)]);
      case PostEvent(id) =>
        RequestsAppend(s.queue, AnEvent(id));
        RequestsHead([AnEvent(id)]);
      case Take => RequestsHead(s.queue);
      case _ =>
    }
  }

  lemma MeaningNext(s: State, st: Step)
    requires Shaped(s) && Handshake(s) && Meaning(s) && Enabled(s, st)
    ensures Shaped(Next(s, st)) && Meaning(Next(s, st))
  {
    match st {
      case Accept => AcceptMeans(s);
      case Serve => ServeMeans(s);
      case _ =>
    }
  }

  lemma AcceptMeans(s: State)
    requires Shaped(s) && Meaning(s) && Enabled(s, Accept)
    ensures Shaped(Next(s, Accept)) && Meaning(Next(s, Accept))
  {
    var cut := CutTo(s.recv.f, s.recv.rem);
    GatherAppend(s.stored, cut);
    ProcessedGathers(s.slot, s.recv.f, s.recv.rem, GatherAll(s.stored));
  }

  /** On a slot that holds the reference's partial message, the source's branches are the
      reference's. */
  lemma ProcessedGathers(r: Slot, f: Frag, rem: nat, g: Gather)
    requires |r.data| == SLOT_SIZE && r.len + rem <= SLOT_SIZE && !r.valid
    requires g.bytes == Bytes(r) && (r.len > 0 ==> g.seqNum == r.curSeqNo)
    ensures var r' := Processed(r, f, rem); var g' := Gathered(g, CutTo(f, rem));
      && g'.out == (if r'.valid then g.out + [Bytes(r')] else g.out)
      && g'.bytes == (if r'.valid then [] else Bytes(r'))
      && (!r'.valid && r'.len > 0 ==> g'.seqNum == r'.curSeqNo)
  {
    var bytes := CutTo(f, rem).payload;
    var stored := r.data[..r.len] + bytes + r.data[r.len + |bytes|..];
    assert stored[..r.len + |bytes|] == r.data[..r.len] + bytes;
  }

  lemma ServeMeans(s: State)
    requires Shaped(s) && Handshake(s) && Meaning(s) && Enabled(s, Serve)
    ensures Shaped(Next(s, Serve)) && Meaning(Next(s, Serve))
  {
    if s.reader.arg.ARequest? {
      assert Held(s.reader) == 1 && s.slot.valid;
      assert ReadBytes(s.slot, s.reader.arg.copy) == Bytes(s.slot);
    }
  }

  lemma InvNext(s: State, st: Step)
    requires Inv(s) && Enabled(s, st)
    ensures Inv(Next(s, st))
  {
    HandshakeNext(s, st);
    MeaningNext(s, st);
  }

  lemma {:induction false} InvRun(s: State, steps: seq<Step>)
    requires Inv(s) && IsRun(s, steps)
    ensures Inv(Run(s, steps))
    decreases |steps|
  {
    if steps != [] {
      InvNext(s, steps[0]);
      InvRun(Next(s, steps[0]), steps[1..]);
    }
  }
}
