/** The reassembly slot as recv_task and pserial_task run it: `r` updated in place, one
    method per uninterrupted stretch of a task. */
module SerialTasks {
  import opened Transport
  import opened SerialSlot
  import Tlv

  class SerialPath {
    const cap: nat
    var valid: bool
    var curSeqNo: Word16
    var len: nat
    const data: array<Byte>
    var recv: Receiver
    var queue: seq<Arg>
    var reader: Reader
    ghost var arrived: seq<Frag>
    ghost var stored: seq<Frag>
    ghost var offered: seq<seq<Byte>>
    ghost var returned: seq<seq<Byte>>
    ghost var handled: seq<Tlv.Parsed>
    ghost var clear: bool

    ghost function TheSlot(): Slot
      reads this, data
    {
      Slot(valid, curSeqNo, len, data[..])
    }

    ghost function View(): State
      reads this, data
    {
      State(cap, TheSlot(), recv, queue, reader, arrived, stored, offered, returned, handled, clear)
    }

    ghost predicate Can(st: Step)
      reads this, data
    {
      Shaped(View()) && Enabled(View(), st)
    }

    constructor (cap: nat)
      requires cap >= 1
      ensures Init(View()) && this.cap == cap && fresh(data)
    {
      this.cap := cap;
      valid, curSeqNo, len, data := false, 0, 0, new Byte[SLOT_SIZE](_ => 0);
      recv, queue, reader := Ready, [], Resting;
      arrived, stored, offered, returned, handled, clear := [], [], [], [], [], true;
    }

    /** process_serial_rx_pkt up to its wait: the room is computed from the slot as it is. */
    method FragmentArrives(f: Frag)
      requires Can(Arrive(f))
      modifies this`recv, this`clear
      ensures View() == Next(old(View()), Arrive(f)) && recv == Waiting(f, 4096 - len)
    {
      var remBuffSize := SLOT_SIZE - len;
      recv := Waiting(f, remBuffSize);
      clear := clear && !valid;
    }

    /** memcpy of a payload behind the bytes gathered. */
    method CopyIn(bytes: seq<Byte>)
      requires data.Length == SLOT_SIZE && len + |bytes| <= SLOT_SIZE
      modifies data
      ensures data[..] == old(data[..])[..len] + bytes + old(data[..])[len + |bytes|..]
    {
      var i := 0;
      while i < |bytes|
        invariant 0 <= i <= |bytes|
        invariant data[..len] == old(data[..])[..len]
        invariant data[len..len + i] == bytes[..i]
        invariant data[len + i..] == old(data[..])[len + i..]
      {
        data[len + i] := bytes[i];
        i := i + 1;
        assert data[len..len + i] == data[len..len + i - 1] + [bytes[i - 1]];
      }
      assert bytes[..i] == bytes;
    }

    /** The rest of process_serial_rx_pkt on the slot. */
    method ProcessSerialRxPkt(f: Frag, rem: nat)
      requires data.Length == SLOT_SIZE && len + rem <= SLOT_SIZE && !valid
      modifies `valid, `curSeqNo, `len, data
      ensures TheSlot() == Processed(old(TheSlot()), f, rem)
    {
      if len == 0 {
        curSeqNo := f.seqNum;
      }
      if f.seqNum != curSeqNo {
        valid := true;
        return;
      }
      var count := if |f.payload| < rem then |f.payload| else rem;
      CopyIn(f.payload[..count]);
      len := len + count;
      if !f.more {
        valid := true;
      }
    }

    method AcceptFragment()
      requires Can(Accept)
      modifies `valid, `curSeqNo, `len, `recv, `arrived, `stored, `offered, data
      ensures View() == Next(old(View()), Accept)
    {
      var f, rem := recv.f, recv.rem;
      ProcessSerialRxPkt(f, rem);
      arrived, stored := arrived + [f], stored + [CutTo(f, rem)];
      if valid {
        recv, offered := HandingOver, offered + [data[..len]];
      } else {
        recv := Ready;
      }
      assert data[..][..len] == data[..len];
    }

    /** protocomm_pserial_data_ready: the copy. */
    method CopySlot()
      requires Can(CopyOut)
      modifies `recv
      ensures View() == Next(old(View()), CopyOut)
    {
      assert data[..][..len] == data[..len];
      recv := Queueing(data[..len]);
    }

    /** protocomm_pserial_data_ready: the queue. */
    method QueueRequest()
      requires Can(Enqueue)
      modifies `recv, `queue
      ensures View() == Next(old(View()), Enqueue)
    {
      queue := queue + [ARequest(recv.copy)];
      recv := Ready;
    }

    /** send_event_to_host from any task. */
    method SendEvent(id: nat)
      requires Can(PostEvent(id))
      modifies `queue
      ensures View() == Next(old(View()), PostEvent(id))
    {
      queue := queue + [AnEvent(id)];
    }

    method TakeArgument()
      requires Can(Take)
      modifies `queue, `reader
      ensures View() == Next(old(View()), Take)
    {
      reader := Took(queue[0]);
      queue := queue[1..];
    }

    /** serial_read_data, on the caller's buffer. */
    method SerialReadData(copy: seq<Byte>) returns (bytes: seq<Byte>)
      requires data.Length == SLOT_SIZE && len <= SLOT_SIZE
      modifies `valid, `len, `curSeqNo
      ensures bytes == ReadBytes(old(TheSlot()), copy) && TheSlot() == Emptied(old(TheSlot()))
      ensures |bytes| == if |copy| < old(len) then |copy| else old(len)
      ensures old(valid) ==> bytes == old(data[..])[..|bytes|] && !valid && len == 0 && curSeqNo == 0
      ensures !old(valid) ==> bytes == copy[..|bytes|] && unchanged(this)
    {
      var count := if |copy| < len then |copy| else len;
      bytes := copy[..count];
      if valid {
        assert data[..][..count] == data[..count];
        bytes := data[..count];
        valid, len, curSeqNo := false, 0, 0;
      }
    }

    /** pserial_task with what it took. */
    method ServeArgument()
      requires Can(Serve)
      modifies this
      ensures View() == Next(old(View()), Serve)
    {
      match reader.arg
      case AnEvent(_) =>
        reader := Resting;
      case ARequest(copy) =>
        var bytes := SerialReadData(copy);
        returned := returned + [bytes];
        if bytes != [] {
          var outcome := Tlv.ReqHandler(bytes);
          handled := handled + [outcome];
        }
        reader := Resting;
    }

    method Advance(st: Step)
      requires Can(st)
      modifies this, data
      ensures View() == Next(old(View()), st)
    {
      match st
      case Arrive(f) => FragmentArrives(f);
      case Accept => AcceptFragment();
      case CopyOut => CopySlot();
      case Enqueue => QueueRequest();
      case PostEvent(id) => SendEvent(id);
      case Take => TakeArgument();
      case Serve => ServeArgument();
    }

    /** Any schedule at all, played on the fields, keeps the invariant. */
    method Play(steps: seq<Step>)
      requires Inv(View()) && IsRun(View(), steps)
      modifies this, data
      ensures Shaped(old(View())) && IsRun(old(View()), steps)
      ensures View() == Run(old(View()), steps) && Inv(View())
    {
      var i := 0;
      while i < |steps|
        invariant 0 <= i <= |steps|
        invariant Inv(View()) && IsRun(View(), steps[i..])
        invariant Run(View(), steps[i..]) == Run(old(View()), steps)
      {
        InvNext(View(), steps[i]);
        assert steps[i..][1..] == steps[i + 1..];
        Advance(steps[i]);
        i := i + 1;
      }
    }
  }
}
