/** The order in which frames pass through the SPI driver: from the writers through the
    transmit queues into transactions, and from transactions through the receive queues to
    the reader. */
module SpiOrder {
  import opened Transport
  import opened Mailbox
  import opened SpiDriver

  /** A buffer that passed through the queue of a class, or did not: a dummy on the way out,
      a dropped frame on the way in. */
  datatype Entry = OfQueue(cls: Class, buf: nat) | NoQueue(buf: nat)

  /** What has passed each point so far. */
  datatype Log = Log(
    written: seq<seq<nat>>,     // per class, buffers put in the transmit queue
    chosen: seq<Entry>,         // transmit buffers chosen for a transaction
    launched: seq<Trans>,       // transactions queued to the hardware
    finished: seq<Trans>,       // transactions collected
    examined: seq<Entry>,       // receive buffers examined
    received: seq<seq<nat>>)    // per class, those the reader took

  function NoLog(): Log { Log([[], [], []], [], [], [], [], [[], [], []]) }

  predicate Shaped(l: Log) { |l.written| == 3 && |l.received| == 3 }

  function AddTo(qs: seq<seq<nat>>, c: Class, b: nat): seq<seq<nat>>
    requires |qs| == 3
  {
    qs[c := qs[c] + [b]]
  }

  function NotedSend(l: Log, s: State, a: SendAct): Log
    requires Ready(s) && SendEnabled(s, a)
  {
    match a
    case PollTx =>
      var q := s.tx.queues[s.post.cls];
      if q == [] then l else l.(chosen := l.chosen + [OfQueue(s.post.cls, q[0])])
    case AllocDummy(b) => l.(chosen := l.chosen + [NoQueue(b)])
    case QueueTrans => l.(launched := l.launched + [Trans(s.post.tx, s.post.rx)])
    case _ => l
  }

  function NotedFinish(l: Log, s: State, a: PostAct): Log
    requires Ready(s) && FinishEnabled(s, a)
  {
    match a
    case Collect => l.(finished := l.finished + [s.done[0]])
    case FileRx(c) => l.(examined := l.examined + [OfQueue(c, s.post.rx)])
    case DropRx => l.(examined := l.examined + [NoQueue(s.post.rx)])
    case _ => l
  }

  /** The log entry a step makes. */
  function Noted(l: Log, s: State, st: Step): (l': Log)
    requires Shaped(l) && Ready(s) && Enabled(s, st)
    ensures Shaped(l')
  {
    match st
    case Write(w, a) =>
      if a.WEnqueue? then l.(written := AddTo(l.written, s.writers[w].cls, s.writers[w].buf)) else l
    case Send(a) => NotedSend(l, s, a)
    case Finish(a) => NotedFinish(l, s, a)
    case Read(a) =>
      if a.RPoll? && s.rx.queues[s.reader.cls] != []
      then l.(received := AddTo(l.received, s.reader.cls, s.rx.queues[s.reader.cls][0])) else l
    case Transfer => l
  }

  function LogOf(l: Log, s: State, steps: seq<Step>): (l': Log)
    requires Shaped(l) && Ready(s) && IsRun(s, steps)
    ensures Shaped(l')
    decreases |steps|
  {
    if steps == [] then l else LogOf(Noted(l, s, steps[0]), Next(s, steps[0]), steps[1..])
  }

  // ----- what the log says -----

  function Buffers(es: seq<Entry>): seq<nat>
  {
    if es == [] then [] else Buffers(es[..|es| - 1]) + [es[|es| - 1].buf]
  }

  /** Those that passed through the queue of class c. */
  function OfClass(es: seq<Entry>, c: Class): seq<nat>
  {
    if es == [] then []
    else
      var e := es[|es| - 1];
      OfClass(es[..|es| - 1], c) + if e.OfQueue? && e.cls == c then [e.buf] else []
  }

  function TxBuffers(ts: seq<Trans>): seq<nat>
  {
    if ts == [] then [] else TxBuffers(ts[..|ts| - 1]) + [ts[|ts| - 1].tx]
  }

  function RxBuffers(ts: seq<Trans>): seq<nat>
  {
    if ts == [] then [] else RxBuffers(ts[..|ts| - 1]) + [ts[|ts| - 1].rx]
  }

  /** The transmit buffer waiting for its receive buffer or to be queued. */
  function InPreparation(p: Post): seq<nat> { if p.NeedRx? || p.Queueing? then [p.tx] else [] }

  function OfPrevious(prev: Previous): seq<nat> { if prev.Nothing? then [] else [prev.trans.rx] }

  /** The receive buffer of the transaction collected and not yet examined. */
  function Unexamined(p: Post): seq<nat>
  {
    match p
    case Taking(prev) => OfPrevious(prev)
    case Polling(prev, _) => OfPrevious(prev)
    case ClearingReady(prev) => OfPrevious(prev)
    case Dummy(prev) => OfPrevious(prev)
    case NeedRx(prev, _) => OfPrevious(prev)
    case Queueing(prev, _, _) => OfPrevious(prev)
    case FreeingTx(t) => [t.rx]
    case Examining(rx) => [rx]
    case Waiting => []
    case GivingRx => []
  }

  predicate TxOrderAt(queues: seq<seq<nat>>, written: seq<seq<nat>>, chosen: seq<Entry>, c: Class)
    requires |queues| == 3 && |written| == 3
  {
    OfClass(chosen, c) + queues[c] == written[c]
  }

  predicate RxOrderAt(queues: seq<seq<nat>>, examined: seq<Entry>, received: seq<seq<nat>>, c: Class)
    requires |queues| == 3 && |received| == 3
  {
    received[c] + queues[c] == OfClass(examined, c)
  }

  predicate Prepared(l: Log, p: Post) { TxBuffers(l.launched) + InPreparation(p) == Buffers(l.chosen) }

  predicate InHardware(l: Log, s: State) { l.finished + s.done + s.queued == l.launched }

  predicate Looked(l: Log, p: Post) { Buffers(l.examined) + Unexamined(p) == RxBuffers(l.finished) }

  // ----- every step keeps the order -----

  lemma EntryAppend(es: seq<Entry>, e: Entry, c: Class)
    ensures Buffers(es + [e]) == Buffers(es) + [e.buf]
    ensures OfClass(es + [e], c) == OfClass(es, c) + if e.OfQueue? && e.cls == c then [e.buf] else []
  {
    assert (es + [e])[..|es|] == es;
  }

  lemma TransAppend(ts: seq<Trans>, t: Trans)
    ensures TxBuffers(ts + [t]) == TxBuffers(ts) + [t.tx] && RxBuffers(ts + [t]) == RxBuffers(ts) + [t.rx]
  {
    assert (ts + [t])[..|ts|] == ts;
  }

  lemma Regroup(a: seq<nat>, b: seq<nat>, x: nat)
    ensures a + (b + [x]) == a + b + [x] && a + [x] + b == a + ([x] + b)
  {
  }

  lemma TxPut(qs: seq<seq<nat>>, written: seq<seq<nat>>, chosen: seq<Entry>, d: Class, b: nat, c: Class)
    requires |qs| == 3 && |written| == 3 && TxOrderAt(qs, written, chosen, c)
    ensures TxOrderAt(qs[d := qs[d] + [b]], AddTo(written, d, b), chosen, c)
  {
    Regroup(OfClass(chosen, c), qs[c], b);
  }

  lemma TxGet(qs: seq<seq<nat>>, written: seq<seq<nat>>, chosen: seq<Entry>, d: Class, c: Class)
    requires |qs| == 3 && |written| == 3 && TxOrderAt(qs, written, chosen, c) && qs[d] != []
    ensures TxOrderAt(qs[d := qs[d][1..]], written, chosen + [OfQueue(d, qs[d][0])], c)
  {
    var b := qs[d][0];
    EntryAppend(chosen, OfQueue(d, b), c);
    assert qs[d] == [b] + qs[d][1..];
    Regroup(OfClass(chosen, c), qs[d][1..], b);
  }

  lemma RxPut(qs: seq<seq<nat>>, examined: seq<Entry>, received: seq<seq<nat>>, d: Class, b: nat, c: Class)
    requires |qs| == 3 && |received| == 3 && RxOrderAt(qs, examined, received, c)
    ensures RxOrderAt(qs[d := qs[d] + [b]], examined + [OfQueue(d, b)], received, c)
  {
    EntryAppend(examined, OfQueue(d, b), c);
    Regroup(received[c], qs[c], b);
  }

  lemma RxGet(qs: seq<seq<nat>>, examined: seq<Entry>, received: seq<seq<nat>>, d: Class, c: Class)
    requires |qs| == 3 && |received| == 3 && RxOrderAt(qs, examined, received, c) && qs[d] != []
    ensures RxOrderAt(qs[d := qs[d][1..]], examined, AddTo(received, d, qs[d][0]), c)
  {
    var b := qs[d][0];
    assert qs[d] == [b] + qs[d][1..];
    Regroup(received[c], qs[d][1..], b);
  }

  lemma TxOrderWriter(s: State, w: nat, a: WriterAct, l: Log, c: Class)
    requires Ready(s) && Shaped(l) && WriterEnabled(s, w, a) && TxOrderAt(s.tx.queues, l.written, l.chosen, c)
    ensures TxOrderAt(WriterNext(s, w, a).tx.queues, Noted(l, s, Write(w, a)).written, l.chosen, c)
  {
    if a.WEnqueue? {
      TxPut(s.tx.queues, l.written, l.chosen, s.writers[w].cls, s.writers[w].buf, c);
    }
  }

  lemma TxOrderSend(s: State, a: SendAct, l: Log, c: Class)
    requires Ready(s) && Shaped(l) && SendEnabled(s, a) && TxOrderAt(s.tx.queues, l.written, l.chosen, c)
    ensures TxOrderAt(SendNext(s, a).tx.queues, l.written, NotedSend(l, s, a).chosen, c)
  {
    if a.PollTx? && s.tx.queues[s.post.cls] != [] {
      TxGet(s.tx.queues, l.written, l.chosen, s.post.cls, c);
    } else if a.AllocDummy? {
      EntryAppend(l.chosen, NoQueue(a.buf), c);
    }
  }

  lemma TxOrderNext(s: State, st: Step, l: Log, c: Class)
    requires Ready(s) && Shaped(l) && Enabled(s, st) && TxOrderAt(s.tx.queues, l.written, l.chosen, c)
    ensures TxOrderAt(Next(s, st).tx.queues, Noted(l, s, st).written, Noted(l, s, st).chosen, c)
  {
    match st {
      case Write(w, a) => TxOrderWriter(s, w, a, l, c);
      case Send(a) => TxOrderSend(s, a, l, c);
      case _ =>
    }
  }

  lemma RxOrderFinish(s: State, a: PostAct, l: Log, c: Class)
    requires Ready(s) && Shaped(l) && FinishEnabled(s, a) && RxOrderAt(s.rx.queues, l.examined, l.received, c)
    ensures RxOrderAt(FinishNext(s, a).rx.queues, NotedFinish(l, s, a).examined, l.received, c)
  {
    if a.FileRx? {
      RxPut(s.rx.queues, l.examined, l.received, a.cls, s.post.rx, c);
    } else if a.DropRx? {
      EntryAppend(l.examined, NoQueue(s.post.rx), c);
    }
  }

  lemma RxOrderReader(s: State, a: ReaderAct, l: Log, c: Class)
    requires Ready(s) && Shaped(l) && ReaderEnabled(s, a) && RxOrderAt(s.rx.queues, l.examined, l.received, c)
    ensures RxOrderAt(ReaderNext(s, a).rx.queues, l.examined, Noted(l, s, Read(a)).received, c)
  {
    if a.RPoll? && s.rx.queues[s.reader.cls] != [] {
      RxGet(s.rx.queues, l.examined, l.received, s.reader.cls, c);
    }
  }

  lemma RxOrderNext(s: State, st: Step, l: Log, c: Class)
    requires Ready(s) && Shaped(l) && Enabled(s, st) && RxOrderAt(s.rx.queues, l.examined, l.received, c)
    ensures RxOrderAt(Next(s, st).rx.queues, Noted(l, s, st).examined, Noted(l, s, st).received, c)
  {
    match st {
      case Finish(a) => RxOrderFinish(s, a, l, c);
      case Read(a) => RxOrderReader(s, a, l, c);
      case _ =>
    }
  }

  lemma PreparedNext(s: State, st: Step, l: Log)
    requires Ready(s) && Shaped(l) && Enabled(s, st) && Prepared(l, s.post)
    ensures Prepared(Noted(l, s, st), Next(s, st).post)
  {
    match st {
      case Send(a) => PreparedSend(s, a, l);
      case Finish(a) => PreparedFinish(s, a, l);
      case _ =>
    }
  }

  lemma PreparedFinish(s: State, a: PostAct, l: Log)
    requires Ready(s) && FinishEnabled(s, a) && Prepared(l, s.post)
    ensures Prepared(NotedFinish(l, s, a), FinishNext(s, a).post)
  {
    assert InPreparation(FinishNext(s, a).post) == InPreparation(s.post) == [];
  }

  lemma Choosing(launched: seq<Trans>, chosen: seq<Entry>, e: Entry)
    requires TxBuffers(launched) + [] == Buffers(chosen)
    ensures TxBuffers(launched) + [e.buf] == Buffers(chosen + [e])
  {
    EntryAppend(chosen, e, SERIAL);
    assert TxBuffers(launched) + [] == TxBuffers(launched);
  }

  lemma Launching(launched: seq<Trans>, chosen: seq<Entry>, t: Trans)
    requires TxBuffers(launched) + [t.tx] == Buffers(chosen)
    ensures TxBuffers(launched + [t]) + [] == Buffers(chosen)
  {
    TransAppend(launched, t);
    assert TxBuffers(launched + [t]) + [] == TxBuffers(launched + [t]);
  }

  lemma PreparedSend(s: State, a: SendAct, l: Log)
    requires Ready(s) && SendEnabled(s, a) && Prepared(l, s.post)
    ensures Prepared(NotedSend(l, s, a), SendNext(s, a).post)
  {
    match a {
      case PollTx => PreparedPoll(s, l);
      case AllocDummy(b) => Choosing(l.launched, l.chosen, NoQueue(b));
      case QueueTrans => PreparedQueue(s, l);
      case _ => PreparedQuiet(s, a, l);
    }
  }

  lemma PreparedPoll(s: State, l: Log)
    requires Ready(s) && s.post.Polling? && Prepared(l, s.post)
    ensures Prepared(NotedSend(l, s, PollTx), SendNext(s, PollTx).post)
  {
    var q := s.tx.queues[s.post.cls];
    if q != [] {
      Choosing(l.launched, l.chosen, OfQueue(s.post.cls, q[0]));
    }
  }

  lemma PreparedQueue(s: State, l: Log)
    requires Ready(s) && s.post.Queueing? && Prepared(l, s.post)
    ensures Prepared(NotedSend(l, s, QueueTrans), SendNext(s, QueueTrans).post)
  {
    Launching(l.launched, l.chosen, Trans(s.post.tx, s.post.rx));
    assert InPreparation(AfterQueue(s.post.prev)) == [];
  }

  lemma PreparedQuiet(s: State, a: SendAct, l: Log)
    requires Ready(s) && SendEnabled(s, a) && Prepared(l, s.post)
    requires !a.PollTx? && !a.AllocDummy? && !a.QueueTrans?
    ensures Prepared(NotedSend(l, s, a), SendNext(s, a).post)
  {
    assert InPreparation(SendNext(s, a).post) == InPreparation(s.post);
  }

  lemma InHardwareNext(s: State, st: Step, l: Log)
    requires Ready(s) && Shaped(l) && Enabled(s, st) && InHardware(l, s)
    ensures InHardware(Noted(l, s, st), Next(s, st))
  {
    if st == Send(QueueTrans) {
      var t := Trans(s.post.tx, s.post.rx);
      assert l.finished + s.done + (s.queued + [t]) == l.finished + s.done + s.queued + [t];
    } else if st == Finish(Collect) {
      assert l.finished + [s.done[0]] + s.done[1..] == l.finished + s.done;
    } else if st.Transfer? {
      assert l.finished + (s.done + [s.queued[0]]) + s.queued[1..] == l.finished + s.done + s.queued;
    }
  }

  lemma LookedNext(s: State, st: Step, l: Log)
    requires Ready(s) && Shaped(l) && Enabled(s, st) && Looked(l, s.post)
    ensures Looked(Noted(l, s, st), Next(s, st).post)
  {
    match st {
      case Send(a) => LookedSend(s, a, l);
      case Finish(a) => LookedFinish(s, a, l);
      case _ =>
    }
  }

  lemma LookedSend(s: State, a: SendAct, l: Log)
    requires Ready(s) && SendEnabled(s, a) && Looked(l, s.post)
    ensures Looked(NotedSend(l, s, a), SendNext(s, a).post)
  {
    assert Unexamined(SendNext(s, a).post) == Unexamined(s.post);
  }

  lemma Collecting(examined: seq<Entry>, finished: seq<Trans>, t: Trans)
    requires Buffers(examined) + [] == RxBuffers(finished)
    ensures Buffers(examined) + [t.rx] == RxBuffers(finished + [t])
  {
    TransAppend(finished, t);
    assert Buffers(examined) + [] == Buffers(examined);
  }

  lemma Examined(examined: seq<Entry>, finished: seq<Trans>, e: Entry)
    requires Buffers(examined) + [e.buf] == RxBuffers(finished)
    ensures Buffers(examined + [e]) + [] == RxBuffers(finished)
  {
    EntryAppend(examined, e, SERIAL);
    assert Buffers(examined + [e]) + [] == Buffers(examined + [e]);
  }

  lemma LookedFinish(s: State, a: PostAct, l: Log)
    requires Ready(s) && FinishEnabled(s, a) && Looked(l, s.post)
    ensures Looked(NotedFinish(l, s, a), FinishNext(s, a).post)
  {
    match a {
      case Collect => Collecting(l.examined, l.finished, s.done[0]);
      case FileRx(c) => LookedFile(s, c, l);
      case DropRx => LookedDrop(s, l);
      case _ =>
    }
  }

  lemma LookedFile(s: State, c: Class, l: Log)
    requires Ready(s) && FinishEnabled(s, FileRx(c)) && Looked(l, s.post)
    ensures Looked(NotedFinish(l, s, FileRx(c)), FinishNext(s, FileRx(c)).post)
  {
    Examined(l.examined, l.finished, OfQueue(c, s.post.rx));
  }

  lemma LookedDrop(s: State, l: Log)
    requires Ready(s) && FinishEnabled(s, DropRx) && Looked(l, s.post)
    ensures Looked(NotedFinish(l, s, DropRx), FinishNext(s, DropRx).post)
  {
    Examined(l.examined, l.finished, NoQueue(s.post.rx));
  }

  ghost predicate QueuesOrderly(s: State, l: Log)
    requires Ready(s) && Shaped(l)
  {
    && (forall c: Class :: TxOrderAt(s.tx.queues, l.written, l.chosen, c))
    && (forall c: Class :: RxOrderAt(s.rx.queues, l.examined, l.received, c))
  }

  lemma QueuesOrderlyNext(s: State, st: Step, l: Log)
    requires Ready(s) && Shaped(l) && QueuesOrderly(s, l) && Enabled(s, st)
    ensures QueuesOrderly(Next(s, st), Noted(l, s, st))
  {
    forall c: Class ensures TxOrderAt(Next(s, st).tx.queues, Noted(l, s, st).written, Noted(l, s, st).chosen, c) {
      assert TxOrderAt(s.tx.queues, l.written, l.chosen, c);
      TxOrderNext(s, st, l, c);
    }
    forall c: Class ensures RxOrderAt(Next(s, st).rx.queues, Noted(l, s, st).examined, Noted(l, s, st).received, c) {
      assert RxOrderAt(s.rx.queues, l.examined, l.received, c);
      RxOrderNext(s, st, l, c);
    }
  }

  lemma {:induction false} QueuesOrderlyRun(s: State, steps: seq<Step>, l: Log)
    requires Ready(s) && Shaped(l) && QueuesOrderly(s, l) && IsRun(s, steps)
    ensures QueuesOrderly(Run(s, steps), LogOf(l, s, steps))
    decreases |steps|
  {
    if steps != [] {
      QueuesOrderlyNext(s, steps[0], l);
      QueuesOrderlyRun(Next(s, steps[0]), steps[1..], Noted(l, s, steps[0]));
    }
  }

  lemma {:induction false} PreparedRun(s: State, steps: seq<Step>, l: Log)
    requires Ready(s) && Shaped(l) && Prepared(l, s.post) && IsRun(s, steps)
    ensures Prepared(LogOf(l, s, steps), Run(s, steps).post)
    decreases |steps|
  {
    if steps != [] {
      PreparedNext(s, steps[0], l);
      PreparedRun(Next(s, steps[0]), steps[1..], Noted(l, s, steps[0]));
    }
  }

  lemma {:induction false} InHardwareRun(s: State, steps: seq<Step>, l: Log)
    requires Ready(s) && Shaped(l) && InHardware(l, s) && IsRun(s, steps)
    ensures InHardware(LogOf(l, s, steps), Run(s, steps))
    decreases |steps|
  {
    if steps != [] {
      InHardwareNext(s, steps[0], l);
      InHardwareRun(Next(s, steps[0]), steps[1..], Noted(l, s, steps[0]));
    }
  }

  lemma {:induction false} LookedRun(s: State, steps: seq<Step>, l: Log)
    requires Ready(s) && Shaped(l) && Looked(l, s.post) && IsRun(s, steps)
    ensures Looked(LogOf(l, s, steps), Run(s, steps).post)
    decreases |steps|
  {
    if steps != [] {
      LookedNext(s, steps[0], l);
      LookedRun(Next(s, steps[0]), steps[1..], Noted(l, s, steps[0]));
    }
  }

  /** In every run: per class, the buffers chosen for sending are those written, in order;
      every transaction carries the next buffer chosen; transactions finish in the order
      queued, and their receive buffers are examined in that order; per class, the reader
      gets those filed, in order. Nothing is lost or repeated on the way. */
  lemma FramesKeepOrder(s0: State, steps: seq<Step>)
    requires Init(s0) && IsRun(s0, steps)
    ensures var s := Run(s0, steps); var l := LogOf(NoLog(), s0, steps);
      && (forall c: Class :: OfClass(l.chosen, c) + s.tx.queues[c] == l.written[c])
      && TxBuffers(l.launched) + InPreparation(s.post) == Buffers(l.chosen)
      && l.finished + s.done + s.queued == l.launched
      && Buffers(l.examined) + Unexamined(s.post) == RxBuffers(l.finished)
      && (forall c: Class :: l.received[c] + s.rx.queues[c] == OfClass(l.examined, c))
  {
    QueuesOrderlyRun(s0, steps, NoLog());
    PreparedRun(s0, steps, NoLog());
    InHardwareRun(s0, steps, NoLog());
    LookedRun(s0, steps, NoLog());
    var s, l := Run(s0, steps), LogOf(NoLog(), s0, steps);
    forall c: Class
      ensures OfClass(l.chosen, c) + s.tx.queues[c] == l.written[c]
      ensures l.received[c] + s.rx.queues[c] == OfClass(l.examined, c)
    {
      assert TxOrderAt(s.tx.queues, l.written, l.chosen, c);
      assert RxOrderAt(s.rx.queues, l.examined, l.received, c);
    }
  }
}
