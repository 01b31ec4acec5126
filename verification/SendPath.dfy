/** The two-level priority send path: send_to_host_queue pushes a buffer into one
    of three bounded data queues and then a token into a bounded meta queue;
    send_task takes a token and then the buffer. Any number of producers run
    beside the one send_task, and every queue operation is one step. */
module SendPath {
  import opened Transport

  /** A producer inside serial_write_data or a Wi-Fi receive callback. */
  datatype Producer =
    | Idle
    | Sending(call: nat, left: seq<Buffer>)                // next: push the data of left[0]
    | Between(call: nat, left: seq<Buffer>, cls: Class)    // data pushed, token not yet

  /** Where send_task is in its loop. */
  datatype Consumer =
    | Top                        // about to test the data path
    | Waiting                    // blocked on the meta queue
    | HasToken(cls: Class)       // blocked on the data queue of that class
    | HasBuffer(buf: Buffer)     // inside process_tx_pkt, before the write
    | Finishing(buf: Buffer)     // after the write, before the free

  datatype State = State(
    n: nat,                          // TO_HOST_QUEUE_SIZE
    datapath: bool,
    meta: seq<Class>,
    queues: seq<seq<Buffer>>,
    producers: seq<Producer>,
    consumer: Consumer,
    // history
    calls: map<nat, seq<Buffer>>,    // every call begun, with all its buffers
    pushed: seq<seq<Buffer>>,        // per class, every buffer put in a data queue
    handled: seq<seq<Buffer>>,       // per class, every buffer through process_tx_pkt
    written: seq<seq<Buffer>>,       // per class, those handed to the transport
    freed: seq<nat>,                 // the heap blocks freed, in order
    everClosed: bool)                // the data path was closed at some point

  datatype Step =
    | Begin(p: nat, bufs: seq<Buffer>)
    | PushData(p: nat)
    | PushToken(p: nat)
    | CheckDatapath
    | TakeToken
    | TakeData
    | Process
    | Release
    | Open
    | Close

  /** Begin, Open and Close come from outside; the rest is the path's own work. */
  predicate Internal(st: Step) { !st.Begin? && !st.Open? && !st.Close? }

  predicate Shaped(s: State)
  {
    && s.n >= 1
    && |s.queues| == 3 && |s.pushed| == 3 && |s.handled| == 3 && |s.written| == 3
    && forall p :: 0 <= p < |s.producers| && s.producers[p].Sending? ==> s.producers[p].left != []
  }

  ghost predicate Enabled(s: State, st: Step)
  {
    match st
    case Begin(p, bufs) =>
      && p < |s.producers| && s.producers[p].Idle?
      && bufs != [] && OneCall(bufs, bufs[0].call, bufs[0].cls) && bufs[0].call !in s.calls
    case PushData(p) =>
      && p < |s.producers| && s.producers[p].Sending? && s.producers[p].left != []
      && |s.queues| == 3 && |s.queues[s.producers[p].left[0].cls]| < s.n
    case PushToken(p) => p < |s.producers| && s.producers[p].Between? && |s.meta| < 3 * s.n
    case CheckDatapath => s.consumer.Top? && s.datapath
    case TakeToken => s.consumer.Waiting? && s.meta != []
    case TakeData => s.consumer.HasToken? && |s.queues| == 3 && s.queues[s.consumer.cls] != []
    case Process => s.consumer.HasBuffer?
    case Release => s.consumer.Finishing?
    case Open => !s.datapath
    case Close => s.datapath
  }

  function Append(qs: seq<seq<Buffer>>, b: Buffer): seq<seq<Buffer>>
    requires |qs| == 3
  {
    qs[b.cls := qs[b.cls] + [b]]
  }

  /** The serial token goes to the front of the meta queue, any other to the back. */
  function AddToken(meta: seq<Class>, c: Class): seq<Class>
  {
    if c == SERIAL then [c] + meta else meta + [c]
  }

  ghost function Next(s: State, st: Step): State
    requires Shaped(s) && Enabled(s, st)
  {
    match st
    case Begin(p, bufs) =>
      s.(producers := s.producers[p := Sending(bufs[0].call, bufs)],
         calls := s.calls[bufs[0].call := bufs])
    case PushData(p) =>
      var pr := s.producers[p];
      s.(producers := s.producers[p := Between(pr.call, pr.left[1..], pr.left[0].cls)],
         queues := Append(s.queues, pr.left[0]),
         pushed := Append(s.pushed, pr.left[0]))
    case PushToken(p) =>
      var pr := s.producers[p];
      s.(producers := s.producers[p := if pr.left == [] then Idle else Sending(pr.call, pr.left)],
         meta := AddToken(s.meta, pr.cls))
    case CheckDatapath => s.(consumer := Waiting)
    case TakeToken => s.(consumer := HasToken(s.meta[0]), meta := s.meta[1..])
    case TakeData =>
      var c := s.consumer.cls;
      s.(consumer := HasBuffer(s.queues[c][0]), queues := s.queues[c := s.queues[c][1..]])
    case Process =>
      var b := s.consumer.buf;
      s.(consumer := Finishing(b),
         handled := Append(s.handled, b),
         written := if s.datapath then Append(s.written, b) else s.written)
    case Release =>
      var b := s.consumer.buf;
      s.(consumer := Top, freed := if b.owner then s.freed + [b.call] else s.freed)
    case Open => s.(datapath := true)
    case Close => s.(datapath := false, everClosed := true)
  }

  ghost predicate Init(s: State)
  {
    && s.n >= 1
    && s.meta == [] && s.queues == [[], [], []] && s.consumer == Top
    && (forall p :: 0 <= p < |s.producers| ==> s.producers[p] == Idle)
    && s.calls == map[] && s.freed == []
    && s.pushed == [[], [], []] && s.handled == [[], [], []] && s.written == [[], [], []]
    && s.everClosed == !s.datapath
  }

  // ----- the invariant -----

  /** How many producers of class c are between their two pushes. */
  function Pending(ps: seq<Producer>, c: Class): nat
  {
    if ps == [] then 0
    else Pending(ps[..|ps| - 1], c)
         + if ps[|ps| - 1].Between? && ps[|ps| - 1].cls == c then 1 else 0
  }

  function Held(k: Consumer, c: Class): nat
  {
    if k.HasToken? && k.cls == c then 1 else 0
  }

  ghost predicate Counted(s: State)
    requires Shaped(s)
  {
    forall c: Class :: CountedAt(s, c)
  }

  ghost predicate CountedAt(s: State, c: Class)
    requires Shaped(s)
  {
    && |s.queues[c]| <= s.n
    && |s.queues[c]| == multiset(s.meta)[c] + Pending(s.producers, c) + Held(s.consumer, c)
  }

  /** Serial tokens come before all the others. */
  ghost predicate SerialFirst(meta: seq<Class>)
  {
    forall i, j :: 0 <= i < j < |meta| && meta[j] == SERIAL ==> meta[i] == SERIAL
  }

  function InHand(k: Consumer, c: Class): seq<Buffer>
  {
    if k.HasBuffer? && k.buf.cls == c then [k.buf] else []
  }

  /** Nothing is lost, duplicated or reordered within a class. */
  ghost predicate Fifo(s: State)
    requires Shaped(s)
  {
    && (forall c: Class :: FifoAt(s, c))
    && (!s.everClosed ==> s.datapath && s.written == s.handled)
  }

  ghost predicate FifoAt(s: State, c: Class)
    requires Shaped(s)
  {
    s.handled[c] + InHand(s.consumer, c) + s.queues[c] == s.pushed[c]
  }

  /** The buffers of one call, in order. */
  function OfCall(bs: seq<Buffer>, m: nat): seq<Buffer>
  {
    if bs == [] then []
    else OfCall(bs[..|bs| - 1], m) + if bs[|bs| - 1].call == m then [bs[|bs| - 1]] else []
  }

  predicate Active(pr: Producer, m: nat) { !pr.Idle? && pr.call == m }

  /** Every call's buffers are exactly what it has pushed, then what it has left. */
  ghost predicate CallsKept(s: State)
    requires Shaped(s)
  {
    && (forall m :: m in s.calls ==> CallShaped(s, m))
    && (forall c: Class, i :: 0 <= i < |s.pushed[c]| ==> Known(s, s.pushed[c][i], c))
    && (forall p :: 0 <= p < |s.producers| && !s.producers[p].Idle? ==> ProducerKept(s, s.producers[p]))
    && (forall p, p' :: 0 <= p < p' < |s.producers| && !s.producers[p].Idle? && !s.producers[p'].Idle?
          ==> s.producers[p].call != s.producers[p'].call)
    && (forall m :: m in s.calls && CallShaped(s, m) && Quiet(s, m) ==> AllPushed(s, m))
  }

  ghost predicate CallShaped(s: State, m: nat)
    requires m in s.calls
  {
    s.calls[m] != [] && OneCall(s.calls[m], m, s.calls[m][0].cls)
  }

  ghost predicate Known(s: State, b: Buffer, c: Class)
  {
    b.cls == c && b.call in s.calls && CallShaped(s, b.call) && s.calls[b.call][0].cls == c
  }

  ghost predicate ProducerKept(s: State, pr: Producer)
    requires Shaped(s) && !pr.Idle?
  {
    && pr.call in s.calls && CallShaped(s, pr.call)
    && s.calls[pr.call] == OfCall(s.pushed[s.calls[pr.call][0].cls], pr.call) + pr.left
    && (pr.Between? ==> pr.cls == s.calls[pr.call][0].cls)
  }

  /** No producer is inside call m. */
  ghost predicate Quiet(s: State, m: nat)
  {
    forall p :: 0 <= p < |s.producers| ==> !Active(s.producers[p], m)
  }

  ghost predicate AllPushed(s: State, m: nat)
    requires Shaped(s) && m in s.calls && CallShaped(s, m)
  {
    s.calls[m] == OfCall(s.pushed[s.calls[m][0].cls], m)
  }

  /** All buffers of call m have been through process_tx_pkt. */
  ghost predicate Complete(s: State, m: nat)
    requires Shaped(s)
  {
    m in s.calls && s.calls[m] != [] && OfCall(s.handled[s.calls[m][0].cls], m) == s.calls[m]
  }

  ghost predicate Owned(s: State, m: nat)
  {
    m in s.calls && s.calls[m] != [] && s.calls[m][|s.calls[m]| - 1].owner
  }

  /** A heap block is freed once, when its last buffer is done with and not before. */
  ghost predicate FreedOnce(s: State)
    requires Shaped(s)
  {
    && (forall i, j :: 0 <= i < j < |s.freed| ==> s.freed[i] != s.freed[j])
    && (forall m :: m in s.freed <==>
          Owned(s, m) && Complete(s, m) && !(s.consumer.Finishing? && s.consumer.buf.call == m))
    && (s.consumer.Finishing? ==>
          var b := s.consumer.buf;
          s.handled[b.cls] != [] && s.handled[b.cls][|s.handled[b.cls]| - 1] == b)
  }

  ghost predicate Inv(s: State)
  {
    Shaped(s) && Counted(s) && SerialFirst(s.meta) && Fifo(s) && CallsKept(s) && FreedOnce(s)
  }

  // ----- whole runs -----

  /** The steps are enabled one after the other, starting in s. */
  ghost predicate IsRun(s: State, steps: seq<Step>)
    requires Shaped(s)
    decreases |steps|
  {
    steps == [] ||
    (Enabled(s, steps[0]) && Shaped(Next(s, steps[0])) && IsRun(Next(s, steps[0]), steps[1..]))
  }

  ghost function Run(s: State, steps: seq<Step>): State
    requires Shaped(s) && IsRun(s, steps)
    decreases |steps|
  {
    if steps == [] then s else Run(Next(s, steps[0]), steps[1..])
  }
}
