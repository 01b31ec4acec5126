/** The SPI slave driver as an ownership system: one pool of blocks serves transmit
    buffers, dummy buffers and receive buffers, which travel through queues, hardware
    transactions and the hands of several tasks. A writer stands for a task inside
    esp_spi_write (or the startup event), the post task for
    spi_transaction_post_process_task and the queue_next_transaction it calls, the
    reader for esp_spi_read and the release in process_rx_pkt. */
module SpiDriver {
  import opened Transport
  import opened Mailbox

  datatype Trans = Trans(tx: nat, rx: nat)
  datatype Previous = Nothing | Collected(trans: Trans)

  datatype Writer =
    | Idle
    | Filled(cls: Class, buf: nat)   // frame built, about to enqueue
    | Giving                         // enqueued, spi_tx_sem not yet given
    | Setting                        // given, data-ready not yet set

  datatype Post =
    | Waiting                                    // blocked on a transaction result
    | Taking(prev: Previous)                     // about to try spi_tx_sem
    | Polling(prev: Previous, cls: Class)        // taken, about to poll a transmit queue
    | ClearingReady(prev: Previous)              // nothing to send, data-ready not yet cleared
    | Dummy(prev: Previous)                      // about to allocate a dummy buffer
    | NeedRx(prev: Previous, tx: nat)            // about to allocate the receive buffer
    | Queueing(prev: Previous, tx: nat, rx: nat) // about to queue the transaction
    | FreeingTx(trans: Trans)                    // about to free the previous transmit buffer
    | Examining(rx: nat)                         // in process_spi_rx
    | GivingRx                                   // filed, spi_rx_sem not yet given

  datatype Reader = Resting | Receiving(cls: Class) | Failed | Holding(buf: nat)

  /** The pool: its free blocks and the history of allocations and releases. */
  datatype Ledger = Ledger(free: set<nat>, allocs: multiset<nat>, frees: multiset<nat>)

  datatype State = State(
    pool: set<nat>,
    mem: Ledger,
    tx: Box<nat>,
    rx: Box<nat>,
    dataReady: bool,
    queued: seq<Trans>,     // in the hardware queue
    done: seq<Trans>,       // finished, result not collected
    writers: seq<Writer>,
    post: Post,
    reader: Reader,
    exhausted: bool)        // no block was left for a dummy buffer

  /** esp_spi_write. */
  datatype WriterAct = WAlloc(cls: Class, buf: nat) | WEnqueue | WGive | WSet

  /** queue_next_transaction with get_next_tx_buffer. */
  datatype SendAct =
    TryTake | PollTx | ClearReady | AllocDummy(buf: nat) | NoDummy | AllocRx(buf: nat) | QueueTrans

  /** The rest of spi_transaction_post_process_task. */
  datatype PostAct = Collect | FreeTx | DropRx | FileRx(cls: Class) | GiveRx

  /** esp_spi_read and the release by process_rx_pkt. */
  datatype ReaderAct = RTake | RPoll | RRelease

  datatype Step =
    | Write(w: nat, write: WriterAct)
    | Send(send: SendAct)
    | Finish(finish: PostAct)
    | Read(read: ReaderAct)
    | Transfer     // the host runs the queued transaction

  predicate Ready(s: State) { Mailbox.Shaped(s.tx) && Mailbox.Shaped(s.rx) }

  predicate WriterEnabled(s: State, w: nat, a: WriterAct)
    requires Ready(s)
  {
    w < |s.writers| &&
    match a
    case WAlloc(_, b) => s.writers[w].Idle? && b in s.mem.free
    case WEnqueue => s.writers[w].Filled? && |s.tx.queues[s.writers[w].cls]| < s.tx.size
    case WGive => s.writers[w].Giving?
    case WSet => s.writers[w].Setting?
  }

  predicate SendEnabled(s: State, a: SendAct)
  {
    match a
    case TryTake => s.post.Taking?
    case PollTx => s.post.Polling?
    case ClearReady => s.post.ClearingReady?
    case AllocDummy(b) => s.post.Dummy? && b in s.mem.free
    case NoDummy => s.post.Dummy? && s.mem.free == {}
    case AllocRx(b) => s.post.NeedRx? && b in s.mem.free
    case QueueTrans => s.post.Queueing?
  }

  predicate FinishEnabled(s: State, a: PostAct)
    requires Ready(s)
  {
    match a
    case Collect => s.post.Waiting? && s.done != []
    case FreeTx => s.post.FreeingTx?
    case DropRx => s.post.Examining?
    case FileRx(c) => s.post.Examining? && |s.rx.queues[c]| < s.rx.size
    case GiveRx => s.post.GivingRx?
  }

  predicate ReaderEnabled(s: State, a: ReaderAct)
  {
    match a
    case RTake => s.reader.Resting? && s.rx.sem > 0
    case RPoll => s.reader.Receiving?
    case RRelease => s.reader.Holding?
  }

  predicate Enabled(s: State, st: Step)
    requires Ready(s)
  {
    match st
    case Write(w, a) => WriterEnabled(s, w, a)
    case Send(a) => SendEnabled(s, a)
    case Finish(a) => FinishEnabled(s, a)
    case Read(a) => ReaderEnabled(s, a)
    case Transfer => s.queued != []
  }

  function Alloc(m: Ledger, b: nat): Ledger
  {
    m.(free := m.free - {b}, allocs := m.allocs + multiset{b})
  }

  function Free(m: Ledger, b: nat): Ledger
  {
    m.(free := m.free + {b}, frees := m.frees + multiset{b})
  }

  /** Where the post task goes once queue_next_transaction has returned; the call made by
      the startup event has no previous transaction to finish. */
  function AfterQueue(prev: Previous): Post
  {
    if prev.Nothing? then Waiting else FreeingTx(prev.trans)
  }

  function WriterNext(s: State, w: nat, a: WriterAct): State
    requires Ready(s) && WriterEnabled(s, w, a)
  {
    match a
    case WAlloc(c, b) => s.(mem := Alloc(s.mem, b), writers := s.writers[w := Filled(c, b)])
    case WEnqueue =>
      s.(tx := Put(s.tx, s.writers[w].cls, s.writers[w].buf), writers := s.writers[w := Giving])
    case WGive => s.(tx := Give(s.tx), writers := s.writers[w := Setting])
    case WSet => s.(dataReady := true, writers := s.writers[w := Idle])
  }

  function SendNext(s: State, a: SendAct): State
    requires Ready(s) && SendEnabled(s, a)
  {
    var prev := s.post.prev;
    match a
    case TryTake =>
      if s.tx.sem > 0 then s.(tx := Take(s.tx), post := Polling(prev, SERIAL))
      else s.(post := ClearingReady(prev))
    case PollTx =>
      var c := s.post.cls;
      if s.tx.queues[c] != [] then s.(post := NeedRx(prev, s.tx.queues[c][0]), tx := Drop(s.tx, c))
      else s.(post := if c < OTHERS then Polling(prev, c + 1) else ClearingReady(prev))
    case ClearReady => s.(dataReady := false, post := Dummy(prev))
    case AllocDummy(b) => s.(mem := Alloc(s.mem, b), post := NeedRx(prev, b))
    case NoDummy => s.(exhausted := true, post := AfterQueue(prev))
    case AllocRx(b) => s.(mem := Alloc(s.mem, b), post := Queueing(prev, s.post.tx, b))
    case QueueTrans => s.(queued := s.queued + [Trans(s.post.tx, s.post.rx)], post := AfterQueue(prev))
  }

  function FinishNext(s: State, a: PostAct): State
    requires Ready(s) && FinishEnabled(s, a)
  {
    match a
    case Collect => s.(post := Taking(Collected(s.done[0])), done := s.done[1..])
    case FreeTx => s.(mem := Free(s.mem, s.post.trans.tx), post := Examining(s.post.trans.rx))
    case DropRx => s.(mem := Free(s.mem, s.post.rx), post := Waiting)
    case FileRx(c) => s.(rx := Put(s.rx, c, s.post.rx), post := GivingRx)
    case GiveRx => s.(rx := Give(s.rx), post := Waiting)
  }

  function ReaderNext(s: State, a: ReaderAct): State
    requires Ready(s) && ReaderEnabled(s, a)
  {
    match a
    case RTake => s.(rx := Take(s.rx), reader := Receiving(SERIAL))
    case RPoll =>
      var c := s.reader.cls;
      if s.rx.queues[c] != [] then s.(reader := Holding(s.rx.queues[c][0]), rx := Drop(s.rx, c))
      else s.(reader := if c < OTHERS then Receiving(c + 1) else Failed)
    case RRelease => s.(mem := Free(s.mem, s.reader.buf), reader := Resting)
  }

  function TransferNext(s: State): State
    requires s.queued != []
  {
    s.(queued := s.queued[1..], done := s.done + [s.queued[0]])
  }

  function Next(s: State, st: Step): State
    requires Ready(s) && Enabled(s, st)
  {
    match st
    case Write(w, a) => WriterNext(s, w, a)
    case Send(a) => SendNext(s, a)
    case Finish(a) => FinishNext(s, a)
    case Read(a) => ReaderNext(s, a)
    case Transfer => TransferNext(s)
  }

  /** The driver after esp_spi_init, about to queue its first transaction. */
  ghost predicate Init(s: State)
  {
    && Ready(s) && s.mem == Ledger(s.pool, multiset{}, multiset{})
    && s.tx == Empty(s.tx.size) && s.rx == Empty(s.rx.size)
    && s.queued == [] && s.done == [] && !s.dataReady && !s.exhausted
    && (forall w :: 0 <= w < |s.writers| ==> s.writers[w] == Idle)
    && s.post == Taking(Nothing) && s.reader == Resting
  }

  ghost predicate IsRun(s: State, steps: seq<Step>)
    requires Ready(s)
    decreases |steps|
  {
    steps == [] || (Enabled(s, steps[0]) && IsRun(Next(s, steps[0]), steps[1..]))
  }

  ghost function Run(s: State, steps: seq<Step>): (t: State)
    requires Ready(s) && IsRun(s, steps)
    ensures Ready(t)
    decreases |steps|
  {
    if steps == [] then s else Run(Next(s, steps[0]), steps[1..])
  }

  // ----- where a block is -----

  function One(b: bool): nat { if b then 1 else 0 }

  function InBox(m: Box<nat>, b: nat): nat
    requires Mailbox.Shaped(m)
  {
    multiset(m.queues[0])[b] + multiset(m.queues[1])[b] + multiset(m.queues[2])[b]
  }

  function InTrans(t: Trans, b: nat): nat { One(t.tx == b) + One(t.rx == b) }

  function InTransList(ts: seq<Trans>, b: nat): nat
  {
    if ts == [] then 0 else InTrans(ts[0], b) + InTransList(ts[1..], b)
  }

  function InPrevious(p: Previous, b: nat): nat { if p.Nothing? then 0 else InTrans(p.trans, b) }

  function InPost(p: Post, b: nat): nat
  {
    match p
    case Waiting => 0
    case Taking(prev) => InPrevious(prev, b)
    case Polling(prev, _) => InPrevious(prev, b)
    case ClearingReady(prev) => InPrevious(prev, b)
    case Dummy(prev) => InPrevious(prev, b)
    case NeedRx(prev, tx) => InPrevious(prev, b) + One(tx == b)
    case Queueing(prev, tx, rx) => InPrevious(prev, b) + One(tx == b) + One(rx == b)
    case FreeingTx(t) => InTrans(t, b)
    case Examining(rx) => One(rx == b)
    case GivingRx => 0
  }

  function InReader(r: Reader, b: nat): nat { One(r.Holding? && r.buf == b) }

  function InWriters(ws: seq<Writer>, b: nat): nat
  {
    if ws == [] then 0
    else InWriters(ws[..|ws| - 1], b) + One(ws[|ws| - 1].Filled? && ws[|ws| - 1].buf == b)
  }

  /** In how many places in use block b is: queues, transactions, tasks' hands. */
  function Uses(s: State, b: nat): nat
    requires Ready(s)
  {
    InBox(s.tx, b) + InBox(s.rx, b) + InTransList(s.queued, b) + InTransList(s.done, b)
    + InWriters(s.writers, b) + InPost(s.post, b) + InReader(s.reader, b)
  }

  ghost predicate Conserved(s: State)
    requires Ready(s)
  {
    forall b :: ConservedAt(s, b)
  }

  ghost predicate ConservedAt(s: State, b: nat)
    requires Ready(s)
  {
    Balanced(s.pool, s.mem, b, Uses(s, b))
  }

  /** A pool block is either free or in one place; releases match allocations. */
  predicate Balanced(pool: set<nat>, m: Ledger, b: nat, uses: nat)
  {
    && One(b in m.free) + uses == One(b in pool)
    && m.allocs[b] == m.frees[b] + uses
  }

  // ----- semaphores and the transaction chain -----

  function GivingCount(ws: seq<Writer>): nat
  {
    if ws == [] then 0 else GivingCount(ws[..|ws| - 1]) + One(ws[|ws| - 1].Giving?)
  }

  function TxFetch(p: Post): Fetch { if p.Polling? then Polls(p.cls) else NotFetching }

  function RxFetch(r: Reader): Fetch { if r.Receiving? then Polls(r.cls) else NotFetching }

  ghost predicate Announced(s: State)
  {
    && Accounts(s.tx, GivingCount(s.writers), TxFetch(s.post))
    && Accounts(s.rx, One(s.post.GivingRx?), RxFetch(s.reader))
    && !s.reader.Failed?
  }

  /** The post task holds the obligation to queue the next transaction. */
  predicate BetweenTransactions(p: Post)
  {
    p.Taking? || p.Polling? || p.ClearingReady? || p.Dummy? || p.NeedRx? || p.Queueing?
  }

  predicate Chained(s: State)
  {
    |s.queued| + |s.done| + One(BetweenTransactions(s.post)) == One(!s.exhausted)
  }

  ghost predicate Inv(s: State)
  {
    Ready(s) && Conserved(s) && Announced(s) && Chained(s)
  }
}
