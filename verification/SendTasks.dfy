/** The send path as the tasks run it: the queues and flags updated in place, one
    method per uninterrupted stretch of a task, and the fragmenting loop of
    serial_write_data. */
module SendTasks {
  import opened Transport
  import opened SendPath
  import opened SendPathProof
  import opened SendPathResults

  const ETH_DATA_LEN: nat := 1500

  class TransmitPath {
    const n: nat
    var datapath: bool
    var meta: seq<Class>
    var queues: seq<seq<Buffer>>
    var producers: seq<Producer>
    var consumer: Consumer
    ghost var calls: map<nat, seq<Buffer>>
    ghost var pushed: seq<seq<Buffer>>
    ghost var handled: seq<seq<Buffer>>
    ghost var written: seq<seq<Buffer>>
    ghost var freed: seq<nat>
    ghost var everClosed: bool

    ghost function View(): State
      reads this
    {
      State(n, datapath, meta, queues, producers, consumer,
            calls, pushed, handled, written, freed, everClosed)
    }

    ghost predicate Ready(st: Step)
      reads this
    {
      Shaped(View()) && Enabled(View(), st)
    }

    constructor (n: nat, tasks: nat, open: bool)
      requires n >= 1
      ensures Init(View()) && this.n == n && |producers| == tasks
    {
      this.n, datapath, everClosed := n, open, !open;
      meta, queues, consumer := [], [[], [], []], Top;
      producers := seq(tasks, _ => Idle);
      calls, freed := map[], [];
      pushed, handled, written := [[], [], []], [[], [], []], [[], [], []];
    }

    /** Entry of serial_write_data, or of a receive callback with one buffer. */
    method Enter(p: nat, bufs: seq<Buffer>)
      requires Ready(Begin(p, bufs))
      modifies this
      ensures View() == Next(old(View()), Begin(p, bufs))
    {
      producers := producers[p := Sending(bufs[0].call, bufs)];
      calls := calls[bufs[0].call := bufs];
    }

    /** send_to_host_queue, first half: the buffer goes to its data queue. */
    method SendData(p: nat)
      requires Ready(PushData(p))
      modifies this
      ensures View() == Next(old(View()), PushData(p))
    {
      var pr := producers[p];
      var b := pr.left[0];
      queues := queues[b.cls := queues[b.cls] + [b]];
      pushed := pushed[b.cls := pushed[b.cls] + [b]];
      producers := producers[p := Between(pr.call, pr.left[1..], b.cls)];
    }

    /** send_to_host_queue, second half: the token, at the front if serial. */
    method SendToken(p: nat)
      requires Ready(PushToken(p))
      modifies this
      ensures View() == Next(old(View()), PushToken(p))
    {
      var pr := producers[p];
      if pr.cls == SERIAL {
        meta := [pr.cls] + meta;
      } else {
        meta := meta + [pr.cls];
      }
      producers := producers[p := if pr.left == [] then Idle else Sending(pr.call, pr.left)];
    }

    /** send_task, the test at the top of its loop. */
    method TestDatapath()
      requires Ready(CheckDatapath)
      modifies this
      ensures View() == Next(old(View()), CheckDatapath)
    {
      consumer := Waiting;
    }

    /** send_task, the receive on the meta queue. */
    method ReceiveToken()
      requires Ready(TakeToken)
      modifies this
      ensures View() == Next(old(View()), TakeToken)
    {
      consumer := HasToken(meta[0]);
      meta := meta[1..];
    }

    /** send_task, the receive on the data queue the token names. */
    method ReceiveData()
      requires Ready(TakeData)
      modifies this
      ensures View() == Next(old(View()), TakeData)
    {
      var c := consumer.cls;
      consumer := HasBuffer(queues[c][0]);
      queues := queues[c := queues[c][1..]];
    }

    /** process_tx_pkt up to the write: a closed data path drops the buffer. */
    method WriteOrDrop()
      requires Ready(Process)
      modifies this
      ensures View() == Next(old(View()), Process)
    {
      var b := consumer.buf;
      if datapath {
        written := Append(written, b);
      }
      handled := Append(handled, b);
      consumer := Finishing(b);
    }

    /** process_tx_pkt, its post-processing: free what the buffer owns. */
    method PostProcess()
      requires Ready(Release)
      modifies this
      ensures View() == Next(old(View()), Release)
    {
      if consumer.buf.owner {
        freed := freed + [consumer.buf.call];
      }
      consumer := Top;
    }

    /** event_handler opening or closing the data path. */
    method SetDatapath(open: bool)
      requires Ready(if open then Open else Close)
      modifies this
      ensures View() == Next(old(View()), if open then Open else Close)
    {
      datapath := open;
      everClosed := everClosed || !open;
    }

    method Advance(st: Step)
      requires Ready(st)
      modifies this
      ensures View() == Next(old(View()), st)
    {
      match st
      case Begin(p, bufs) => Enter(p, bufs);
      case PushData(p) => SendData(p);
      case PushToken(p) => SendToken(p);
      case CheckDatapath => TestDatapath();
      case TakeToken => ReceiveToken();
      case TakeData => ReceiveData();
      case Process => WriteOrDrop();
      case Release => PostProcess();
      case Open => SetDatapath(true);
      case Close => SetDatapath(false);
    }

    /** Any schedule at all, played on the fields, keeps the invariant. */
    method Play(steps: seq<Step>)
      requires Inv(View()) && IsRun(View(), steps)
      modifies this
      ensures View() == Run(old(View()), steps) && Inv(View())
    {
      var i := 0;
      while i < |steps|
        invariant 0 <= i <= |steps|
        invariant Inv(View()) && IsRun(View(), steps[i..])
        invariant Run(View(), steps[i..]) == Run(old(View()), steps)
      {
        InvNext(View(), steps[i]);
        assert steps[i..][1..] == steps[i + 1..];
        Advance(steps[i]);
        i := i + 1;
      }
    }
  }

  /** The cut of a message: full fragments, then one that carries the rest, ends the
      message and owns its heap block. Each fragment takes the next sequence number. */
  function Cut(data: seq<Byte>, call: nat, next: Word16): seq<Buffer>
    decreases |data|
  {
    if |data| <= ETH_DATA_LEN then [Buffer(SERIAL, call, true, data, next, false)]
    else [Buffer(SERIAL, call, false, data[..ETH_DATA_LEN], next, true)]
         + Cut(data[ETH_DATA_LEN..], call, (next + 1) % 0x1_0000)
  }

  function Payloads(bufs: seq<Buffer>): seq<Byte>
  {
    if bufs == [] then [] else bufs[0].payload + Payloads(bufs[1..])
  }

  /** serial_write_data: the buffers it sends, in order, and its counter afterwards. */
  method SerialWriteData(data: seq<Byte>, call: nat, seqNum: Word16)
    returns (bufs: seq<Buffer>, seqNum': Word16)
    ensures bufs == Cut(data, call, (seqNum + 1) % 0x1_0000)
    ensures seqNum' == bufs[|bufs| - 1].seqNum
  {
    var pos, leftLen := 0, |data|;
    bufs, seqNum' := [], seqNum;
    var again := true;
    while again
      invariant 0 <= pos && 0 <= leftLen && pos + leftLen == |data|
      invariant again ==> bufs + Cut(data[pos..], call, (seqNum' + 1) % 0x1_0000)
                          == Cut(data, call, (seqNum + 1) % 0x1_0000)
      invariant again && bufs != [] ==> leftLen > 0
      invariant !again ==> bufs == Cut(data, call, (seqNum + 1) % 0x1_0000)
      invariant !again ==> bufs != [] && seqNum' == bufs[|bufs| - 1].seqNum
      decreases again, leftLen
    {
      seqNum' := (seqNum' + 1) % 0x1_0000;
      var more := leftLen > ETH_DATA_LEN;
      var fragLen := if more then ETH_DATA_LEN else leftLen;
      assert data[pos..][..fragLen] == data[pos..pos + fragLen];
      assert data[pos..][fragLen..] == data[pos + fragLen..];
      assert !more ==> data[pos..pos + fragLen] == data[pos..];
      bufs := bufs + [Buffer(SERIAL, call, !more, data[pos..pos + fragLen], seqNum', more)];
      leftLen := leftLen - fragLen;
      pos := pos + fragLen;
      again := leftLen != 0;
    }
  }

  /** What a cut guarantees its receiver: the bytes in order, bounded fragments, and only
      the last one ending the message and owning the block. */
  lemma {:induction false} CutCarries(data: seq<Byte>, call: nat, next: Word16)
    ensures var bufs := Cut(data, call, next);
      && Payloads(bufs) == data
      && OneCall(bufs, call, SERIAL)
      && (forall i :: 0 <= i < |bufs| ==>
            && |bufs[i].payload| <= ETH_DATA_LEN
            && (bufs[i].owner <==> i == |bufs| - 1)
            && (bufs[i].more <==> i < |bufs| - 1))
    decreases |data|
  {
    if |data| > ETH_DATA_LEN {
      var bufs := Cut(data, call, next);
      var rest := Cut(data[ETH_DATA_LEN..], call, (next + 1) % 0x1_0000);
      CutCarries(data[ETH_DATA_LEN..], call, (next + 1) % 0x1_0000);
      assert bufs[1..] == rest;
      assert forall i :: 0 <= i < |rest| ==> bufs[i + 1] == rest[i];
    } else {
      assert Cut(data, call, next)[1..] == [];
    }
  }

  /** Every fragment but the last is full, so their number is the length over 1500, rounded
      up, and one for an empty message. */
  lemma {:induction false} CutSizes(data: seq<Byte>, call: nat, next: Word16)
    ensures var bufs := Cut(data, call, next);
      && bufs != []
      && (forall i :: 0 <= i < |bufs| - 1 ==> |bufs[i].payload| == 1500)
      && |bufs[|bufs| - 1].payload| == |data| - 1500 * (|bufs| - 1)
      && |bufs[|bufs| - 1].payload| <= 1500
      && (data != [] ==> bufs[|bufs| - 1].payload != [])
      && (forall i :: 0 <= i < |bufs| ==> bufs[i].cls == 0)
    decreases |data|
  {
    if |data| > ETH_DATA_LEN {
      var rest := Cut(data[ETH_DATA_LEN..], call, (next + 1) % 0x1_0000);
      CutSizes(data[ETH_DATA_LEN..], call, (next + 1) % 0x1_0000);
      assert Cut(data, call, next)[1..] == rest;
      assert forall i :: 0 <= i < |rest| ==> Cut(data, call, next)[i + 1] == rest[i];
    }
  }

  /** Every fragment, not every message, takes a new sequence number. */
  lemma {:induction false} CutNumbers(data: seq<Byte>, call: nat, next: Word16, i: nat)
    requires i < |Cut(data, call, next)|
    ensures Cut(data, call, next)[i].seqNum == (next + i) % 0x1_0000
    decreases |data|
  {
    if i > 0 {
      var rest := Cut(data[ETH_DATA_LEN..], call, (next + 1) % 0x1_0000);
      CutNumbers(data[ETH_DATA_LEN..], call, (next + 1) % 0x1_0000, i - 1);
      assert Cut(data, call, next)[i] == rest[i - 1];
    }
  }

  /** Fragmenting composed with the send path: once drained, with the data path never
      closed, the transport was given the message's bytes, whole and in order, and the
      message's heap block was freed once. */
  lemma MessageArrivesWhole(s0: State, steps: seq<Step>, call: nat, data: seq<Byte>, first: Word16)
    requires Init(s0) && IsRun(s0, steps) && Shaped(Run(s0, steps)) && Drained(Run(s0, steps))
    requires var s := Run(s0, steps);
      !s.everClosed && call in s.calls && s.calls[call] == Cut(data, call, first)
    ensures var s := Run(s0, steps);
      && Payloads(OfCall(s.written[SERIAL], call)) == data
      && multiset(s.freed)[call] == 1
  {
    CutCarries(data, call, first);
    DrainedDeliversAll(s0, steps);
    DeliveredInOrder(s0, steps);
  }
}
