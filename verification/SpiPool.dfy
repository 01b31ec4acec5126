/** How large the SPI driver's pool must be so that no allocation can fail: writers and the
    post-process task assert that they get a block. */
module SpiPool {
  import opened Transport
  import opened Mailbox
  import opened SpiDriver
  import opened SpiDriverProof
  import opened SpiDriverResults

  // ----- counting the blocks in use -----

  function FilledCount(ws: seq<Writer>): nat
  {
    if ws == [] then 0 else FilledCount(ws[..|ws| - 1]) + One(ws[|ws| - 1].Filled?)
  }

  function PreviousHolds(p: Previous): nat { if p.Nothing? then 0 else 2 }

  function PostHolds(p: Post): nat
  {
    match p
    case Waiting => 0
    case Taking(prev) => PreviousHolds(prev)
    case Polling(prev, _) => PreviousHolds(prev)
    case ClearingReady(prev) => PreviousHolds(prev)
    case Dummy(prev) => PreviousHolds(prev)
    case NeedRx(prev, _) => PreviousHolds(prev) + 1
    case Queueing(prev, _, _) => PreviousHolds(prev) + 2
    case FreeingTx(_) => 2
    case Examining(_) => 1
    case GivingRx => 0
  }

  /** The places that hold a block. */
  function Occupied(s: State): nat
    requires Ready(s)
  {
    Total(s.tx) + Total(s.rx) + 2 * |s.queued| + 2 * |s.done|
    + FilledCount(s.writers) + PostHolds(s.post) + One(s.reader.Holding?)
  }

  /** Free blocks and occupied places make up the pool. */
  predicate Sized(s: State)
    requires Ready(s)
  {
    |s.mem.free| + Occupied(s) == |s.pool|
  }

  lemma {:induction false} FilledUpdate(ws: seq<Writer>, w: nat, x: Writer)
    requires w < |ws|
    ensures FilledCount(ws[w := x]) + One(ws[w].Filled?) == FilledCount(ws) + One(x.Filled?)
  {
    var last := |ws| - 1;
    if w < last {
      FilledUpdate(ws[..last], w, x);
      assert ws[w := x][..last] == ws[..last][w := x];
    } else {
      assert ws[w := x][..last] == ws[..last];
    }
  }

  lemma AllocSize(m: Ledger, b: nat)
    requires b in m.free
    ensures |Alloc(m, b).free| == |m.free| - 1
  {
  }

  lemma FreeSize(m: Ledger, b: nat)
    requires b !in m.free
    ensures |Free(m, b).free| == |m.free| + 1
  {
  }

  lemma SizedWriter(s: State, w: nat, a: WriterAct)
    requires Ready(s) && WriterEnabled(s, w, a) && Sized(s)
    ensures Sized(WriterNext(s, w, a))
  {
    FilledUpdate(s.writers, w, WriterNext(s, w, a).writers[w]);
    if a.WAlloc? {
      AllocSize(s.mem, a.buf);
    }
  }

  lemma BoxTotals<T>(m: Box<T>, c: Class, x: T)
    requires Mailbox.Shaped(m)
    ensures Total(Put(m, c, x)) == Total(m) + 1 && Total(Give(m)) == Total(m)
    ensures m.sem > 0 ==> Total(Take(m)) == Total(m)
    ensures m.queues[c] != [] ==> Total(Drop(m, c)) == Total(m) - 1
  {
  }

  lemma SizedSend(s: State, a: SendAct)
    requires Ready(s) && SendEnabled(s, a) && Sized(s)
    ensures Sized(SendNext(s, a))
  {
    match a {
      case AllocDummy(b) => AllocSize(s.mem, b);
      case AllocRx(b) => AllocSize(s.mem, b);
      case PollTx => SizedPollTx(s);
      case QueueTrans =>
      case _ => SizedQuiet(s, a);
    }
  }

  lemma SizedPollTx(s: State)
    requires Ready(s) && s.post.Polling? && Sized(s)
    ensures Sized(SendNext(s, PollTx))
  {
    BoxTotals(s.tx, s.post.cls, 0);
  }

  lemma SizedQuiet(s: State, a: SendAct)
    requires Ready(s) && SendEnabled(s, a) && Sized(s) && (a.TryTake? || a.ClearReady? || a.NoDummy?)
    ensures Sized(SendNext(s, a))
  {
    BoxTotals(s.tx, SERIAL, 0);
  }

  lemma SizedFinish(s: State, a: PostAct)
    requires Ready(s) && FinishEnabled(s, a) && Sized(s)
    requires a.FreeTx? ==> s.post.trans.tx !in s.mem.free
    requires a.DropRx? ==> s.post.rx !in s.mem.free
    ensures Sized(FinishNext(s, a))
  {
    match a {
      case FreeTx => SizedFreeTx(s);
      case DropRx => SizedDropRx(s);
      case FileRx(c) => SizedFileRx(s, c);
      case GiveRx => BoxTotals(s.rx, SERIAL, 0);
      case Collect =>
    }
  }

  lemma SizedFreeTx(s: State)
    requires Ready(s) && s.post.FreeingTx? && Sized(s) && s.post.trans.tx !in s.mem.free
    ensures Sized(FinishNext(s, FreeTx))
  {
    FreeSize(s.mem, s.post.trans.tx);
  }

  lemma SizedDropRx(s: State)
    requires Ready(s) && s.post.Examining? && Sized(s) && s.post.rx !in s.mem.free
    ensures Sized(FinishNext(s, DropRx))
  {
    FreeSize(s.mem, s.post.rx);
  }

  lemma SizedFileRx(s: State, c: Class)
    requires Ready(s) && FinishEnabled(s, FileRx(c)) && Sized(s)
    ensures Sized(FinishNext(s, FileRx(c)))
  {
    BoxTotals(s.rx, c, s.post.rx);
  }

  lemma SizedReader(s: State, a: ReaderAct)
    requires Ready(s) && ReaderEnabled(s, a) && Sized(s)
    requires a.RRelease? ==> s.reader.buf !in s.mem.free
    ensures Sized(ReaderNext(s, a))
  {
    match a {
      case RTake => BoxTotals(s.rx, SERIAL, 0);
      case RPoll => BoxTotals(s.rx, s.reader.cls, 0);
      case RRelease => FreeSize(s.mem, s.reader.buf);
    }
  }

  lemma SizedNext(s: State, st: Step)
    requires Inv(s) && Enabled(s, st) && Sized(s)
    ensures Sized(Next(s, st))
  {
    match st {
      case Write(w, a) => SizedWriter(s, w, a);
      case Send(a) => SizedSend(s, a);
      case Finish(a) => ReleasedByPost(s, a); SizedFinish(s, a);
      case Read(a) => ReleasedByReader(s, a); SizedReader(s, a);
      case Transfer =>
    }
  }

  lemma ReleasedByPost(s: State, a: PostAct)
    requires Inv(s) && FinishEnabled(s, a)
    ensures a.FreeTx? ==> s.post.trans.tx !in s.mem.free
    ensures a.DropRx? ==> s.post.rx !in s.mem.free
  {
    if a.FreeTx? {
      UsedIsAllocated(s, s.post.trans.tx);
    } else if a.DropRx? {
      UsedIsAllocated(s, s.post.rx);
    }
  }

  lemma ReleasedByReader(s: State, a: ReaderAct)
    requires Inv(s) && ReaderEnabled(s, a)
    ensures a.RRelease? ==> s.reader.buf !in s.mem.free
  {
    if a.RRelease? {
      UsedIsAllocated(s, s.reader.buf);
    }
  }

  /** What no step changes. */
  predicate SameShape(s: State, t: State)
  {
    t.pool == s.pool && t.tx.size == s.tx.size && t.rx.size == s.rx.size && |t.writers| == |s.writers|
  }

  lemma ShapeNext(s: State, st: Step)
    requires Ready(s) && Enabled(s, st)
    ensures SameShape(s, Next(s, st))
  {
  }

  lemma {:induction false} SizedRun(s: State, steps: seq<Step>)
    requires Inv(s) && Sized(s) && IsRun(s, steps)
    ensures Inv(Run(s, steps)) && Sized(Run(s, steps)) && SameShape(s, Run(s, steps))
    decreases |steps|
  {
    if steps != [] {
      InvNext(s, steps[0]);
      SizedNext(s, steps[0]);
      ShapeNext(s, steps[0]);
      SizedRun(Next(s, steps[0]), steps[1..]);
    }
  }

  lemma {:induction false} NoneFilled(ws: seq<Writer>)
    requires forall w :: 0 <= w < |ws| ==> ws[w] == Idle
    ensures FilledCount(ws) == 0
  {
    if ws != [] {
      NoneFilled(ws[..|ws| - 1]);
    }
  }

  lemma SizedInit(s: State)
    requires Init(s)
    ensures Inv(s) && Sized(s)
  {
    InvInit(s);
    NoneFilled(s.writers);
  }

  // ----- the largest number of blocks in use when one is wanted -----

  ghost predicate Allocating(s: State)
  {
    s.post.NeedRx? || exists w :: 0 <= w < |s.writers| && s.writers[w].Idle?
  }

  /** A task that is, or may at any moment be, allocating finds no block. */
  ghost predicate Starved(s: State) { Allocating(s) && s.mem.free == {} }

  function Capacity(txSize: nat, rxSize: nat, writers: nat): nat
  {
    3 * txSize + 3 * rxSize + writers + 4
  }

  lemma {:induction false} FilledBound(ws: seq<Writer>)
    ensures FilledCount(ws) <= |ws|
    ensures (exists w :: 0 <= w < |ws| && ws[w].Idle?) ==> FilledCount(ws) < |ws|
  {
    if ws != [] {
      var last := |ws| - 1;
      FilledBound(ws[..last]);
      if w :| 0 <= w < |ws| && ws[w].Idle? {
        assert w < last ==> ws[..last][w].Idle?;
      }
    }
  }

  lemma OccupiedBound(s: State)
    requires Inv(s) && Allocating(s)
    ensures Occupied(s) <= Capacity(s.tx.size, s.rx.size, |s.writers|)
  {
    FilledBound(s.writers);
    assert PostHolds(s.post) <= 4;
    assert BetweenTransactions(s.post) || PostHolds(s.post) <= 2;
    assert s.post.NeedRx? ==> PostHolds(s.post) <= 3;
  }

  ghost predicate NeverStarves(blocks: nat, txSize: nat, rxSize: nat, writers: nat)
  {
    forall s0, steps ::
      Init(s0) && |s0.pool| == blocks && s0.tx.size == txSize && s0.rx.size == rxSize
      && |s0.writers| == writers && IsRun(s0, steps)
      ==> !Starved(Run(s0, steps))
  }

  /** No allocation can fail in any run exactly if the pool has more blocks than the six
      queues, the writers, the reader and two transactions can hold. */
  lemma PoolSufficesExactly(blocks: nat, txSize: nat, rxSize: nat, writers: nat)
    requires txSize >= 1 && rxSize >= 1 && writers >= 1
    ensures NeverStarves(blocks, txSize, rxSize, writers) <==> blocks > Capacity(txSize, rxSize, writers)
  {
    if blocks > Capacity(txSize, rxSize, writers) {
      forall s0, steps | Init(s0) && |s0.pool| == blocks && s0.tx.size == txSize && s0.rx.size == rxSize
                         && |s0.writers| == writers && IsRun(s0, steps)
        ensures !Starved(Run(s0, steps))
      {
        SizedInit(s0);
        SizedRun(s0, steps);
        if Allocating(Run(s0, steps)) {
          OccupiedBound(Run(s0, steps));
        }
      }
    } else {
      var s0, steps := StarvingRun(blocks, txSize, rxSize, writers);
    }
  }

  /** The driver's own sizing, the sum of the two queue sizes plus 6, is never enough. */
  lemma ConfiguredPoolStarves(txSize: nat, rxSize: nat, writers: nat)
    requires txSize >= 1 && rxSize >= 1 && writers >= 1
    ensures !NeverStarves(txSize + rxSize + 6, txSize, rxSize, writers)
  {
    PoolSufficesExactly(txSize + rxSize + 6, txSize, rxSize, writers);
  }

  // ----- the run that uses a pool up -----

  /** Blocks 1 to n. */
  function Blocks(n: nat): (r: set<nat>)
    ensures |r| == n && forall b :: b in r ==> b <= n
  {
    if n == 0 then {} else Blocks(n - 1) + {n}
  }

  lemma At(s0: State, steps: seq<Step>, s: State)
    requires Reached(s0, steps, s)
    ensures Inv(s) && Sized(s) && SameShape(s0, s)
  {
    SizedInit(s0);
    SizedRun(s0, steps);
  }

  /** Between two transactions: one is in the hardware, the others' buffers are freed; the
      first writer is idle, the reader holds a buffer or rests. */
  ghost predicate Calm(s0: State, steps: seq<Step>, s: State)
  {
    && Reached(s0, steps, s) && Ready(s) && s.post == Waiting && |s.queued| == 1 && s.done == []
    && |s.writers| >= 1 && (forall w :: 0 <= w < |s.writers| ==> s.writers[w] == Idle)
  }

  lemma IdleStarves(s: State)
    requires |s.writers| >= 1 && s.writers[0].Idle? && s.mem.free == {}
    ensures Starved(s)
  {
  }

  lemma Dummies(s0: State, steps: seq<Step>, s: State)
    returns (steps': seq<Step>, t: State, stuck: bool)
    requires Reached(s0, steps, s) && Ready(s) && s.post.Taking? && s.tx.sem == 0
    requires |s.writers| >= 1 && s.writers[0].Idle?
    ensures Reached(s0, steps', t)
    ensures stuck ==> Starved(t)
    ensures !stuck ==> Ready(t) && t.post == AfterQueue(s.post.prev) && |t.queued| == |s.queued| + 1
                       && t.done == s.done && t.writers == s.writers && t.reader == s.reader
                       && t.tx == s.tx && t.rx == s.rx
  {
    stuck := true;
    steps', t := Go(s0, steps, s, Send(TryTake));
    steps', t := Go(s0, steps', t, Send(ClearReady));
    if t.mem.free == {} {
      return;
    }
    var b :| b in t.mem.free;
    steps', t := Go(s0, steps', t, Send(AllocDummy(b)));
    if t.mem.free == {} {
      return;
    }
    b :| b in t.mem.free;
    steps', t := Go(s0, steps', t, Send(AllocRx(b)));
    steps', t := Go(s0, steps', t, Send(QueueTrans));
    stuck := false;
  }

  /** A transaction with a dummy buffer, whose received frame joins queue c. */
  lemma ReceiveOne(s0: State, steps: seq<Step>, s: State, c: Class)
    returns (steps': seq<Step>, t: State, stuck: bool)
    requires Calm(s0, steps, s) && s.tx.sem == 0 && |s.rx.queues[c]| < s.rx.size
    ensures Reached(s0, steps', t)
    ensures stuck ==> Starved(t)
    ensures !stuck ==> Calm(s0, steps', t) && t.tx == s.tx && t.reader == s.reader
                       && |t.rx.queues[c]| == |s.rx.queues[c]| + 1 && Total(t.rx) == Total(s.rx) + 1
  {
    steps', t := Go(s0, steps, s, Transfer);
    steps', t := Go(s0, steps', t, Finish(Collect));
    steps', t, stuck := Dummies(s0, steps', t);
    if !stuck {
      steps', t := Go(s0, steps', t, Finish(FreeTx));
      steps', t := Go(s0, steps', t, Finish(FileRx(c)));
      steps', t := Go(s0, steps', t, Finish(GiveRx));
    }
  }

  lemma {:induction false} FillRx(s0: State, steps: seq<Step>, s: State)
    returns (steps': seq<Step>, t: State, stuck: bool)
    requires Calm(s0, steps, s) && s.tx.sem == 0 && Total(s.rx) <= 3 * s.rx.size
    ensures Reached(s0, steps', t)
    ensures stuck ==> Starved(t)
    ensures !stuck ==> Calm(s0, steps', t) && t.tx == s.tx && t.reader == s.reader
                       && Total(t.rx) == 3 * s0.rx.size
    decreases 3 * s.rx.size - Total(s.rx)
  {
    At(s0, steps, s);
    if c: Class :| |s.rx.queues[c]| < s.rx.size {
      steps', t, stuck := ReceiveOne(s0, steps, s, c);
      if !stuck {
        At(s0, steps', t);
        steps', t, stuck := FillRx(s0, steps', t);
      }
    } else {
      assert |s.rx.queues[SERIAL]| == |s.rx.queues[BT]| == |s.rx.queues[OTHERS]| == s.rx.size;
      steps', t, stuck := steps, s, false;
    }
  }

  /** The pool is used up while the first writer is idle; the post task has not moved. */
  ghost predicate Stuck(s: State, t: State)
  {
    Starved(t) && t.mem.free == {} && t.post == s.post
  }

  /** Task 0 sends one frame of class c. */
  lemma SendOne(s0: State, steps: seq<Step>, s: State, c: Class)
    returns (steps': seq<Step>, t: State, stuck: bool)
    requires Reached(s0, steps, s) && Ready(s) && |s.writers| >= 1 && s.writers[0] == Idle
    requires |s.tx.queues[c]| < s.tx.size
    ensures Reached(s0, steps', t)
    ensures stuck ==> Stuck(s, t)
    ensures !stuck ==> Ready(t) && t.post == s.post && t.queued == s.queued && t.done == s.done
                       && t.writers == s.writers && t.reader == s.reader && t.rx == s.rx
                       && Total(t.tx) == Total(s.tx) + 1
  {
    if s.mem.free == {} {
      IdleStarves(s);
      return steps, s, true;
    }
    steps', t := EnqueueOne(s0, steps, s, c);
    steps', t := AnnounceOne(s0, steps', t);
    assert t.writers == s.writers;
    stuck := false;
  }

  lemma EnqueueOne(s0: State, steps: seq<Step>, s: State, c: Class)
    returns (steps': seq<Step>, t: State)
    requires Reached(s0, steps, s) && Ready(s) && |s.writers| >= 1 && s.writers[0] == Idle
    requires |s.tx.queues[c]| < s.tx.size && s.mem.free != {}
    ensures Reached(s0, steps', t) && Ready(t) && t.post == s.post && t.queued == s.queued && t.done == s.done
    ensures t.writers == s.writers[0 := Writer.Giving] && t.reader == s.reader && t.rx == s.rx
    ensures Total(t.tx) == Total(s.tx) + 1
  {
    var b :| b in s.mem.free;
    BoxTotals(s.tx, c, b);
    steps', t := Go(s0, steps, s, Write(0, WAlloc(c, b)));
    steps', t := Go(s0, steps', t, Write(0, WEnqueue));
  }

  lemma AnnounceOne(s0: State, steps: seq<Step>, s: State) returns (steps': seq<Step>, t: State)
    requires Reached(s0, steps, s) && Ready(s) && |s.writers| >= 1 && s.writers[0].Giving?
    ensures Reached(s0, steps', t) && Ready(t) && t.post == s.post && t.queued == s.queued && t.done == s.done
    ensures t.writers == s.writers[0 := Idle] && t.reader == s.reader && t.rx == s.rx
    ensures Total(t.tx) == Total(s.tx)
  {
    BoxTotals(s.tx, SERIAL, 0);
    steps', t := Go(s0, steps, s, Write(0, WGive));
    steps', t := Go(s0, steps', t, Write(0, WSet));
  }

  lemma {:induction false} FillTx(s0: State, steps: seq<Step>, s: State)
    returns (steps': seq<Step>, t: State, stuck: bool)
    requires Reached(s0, steps, s) && Ready(s) && |s.writers| >= 1 && s.writers[0] == Idle
    requires Total(s.tx) <= 3 * s.tx.size
    ensures Reached(s0, steps', t)
    ensures stuck ==> Stuck(s, t)
    ensures !stuck ==> Ready(t) && t.post == s.post && t.queued == s.queued && t.done == s.done
                       && t.writers == s.writers && t.reader == s.reader && t.rx == s.rx
                       && Total(t.tx) == 3 * s0.tx.size
    decreases 3 * s.tx.size - Total(s.tx)
  {
    At(s0, steps, s);
    if c: Class :| |s.tx.queues[c]| < s.tx.size {
      steps', t, stuck := SendOne(s0, steps, s, c);
      if !stuck {
        At(s0, steps', t);
        steps', t, stuck := FillTx(s0, steps', t);
      }
    } else {
      assert |s.tx.queues[SERIAL]| == |s.tx.queues[BT]| == |s.tx.queues[OTHERS]| == s.tx.size;
      steps', t, stuck := steps, s, false;
    }
  }

  /** A transaction with a real buffer, up to the point where both it and the one before it
      still hold their buffers. */
  lemma NextTransaction(s0: State, steps: seq<Step>, s: State)
    returns (steps': seq<Step>, t: State, stuck: bool)
    requires Calm(s0, steps, s) && s.tx.sem > 0 && s.tx.queues[SERIAL] != []
    ensures Reached(s0, steps', t)
    ensures stuck ==> Starved(t)
    ensures !stuck ==> Ready(t) && t.post.FreeingTx? && |t.queued| == 1 && t.done == []
                       && t.writers == s.writers && t.reader == s.reader && t.rx == s.rx
                       && Total(t.tx) == Total(s.tx) - 1
                       && |t.tx.queues[SERIAL]| == |s.tx.queues[SERIAL]| - 1
  {
    steps', t := Go(s0, steps, s, Transfer);
    steps', t := Go(s0, steps', t, Finish(Collect));
    steps', t := Go(s0, steps', t, Send(TryTake));
    steps', t := Go(s0, steps', t, Send(PollTx));
    stuck := t.mem.free == {};
    if !stuck {
      var b :| b in t.mem.free;
      steps', t := Go(s0, steps', t, Send(AllocRx(b)));
      steps', t := Go(s0, steps', t, Send(QueueTrans));
    }
  }

  /** All writers but the first take a buffer. */
  lemma {:induction false} FillWriters(s0: State, steps: seq<Step>, s: State, n: nat)
    returns (steps': seq<Step>, t: State, stuck: bool)
    requires Reached(s0, steps, s) && Ready(s) && 1 <= n <= |s.writers|
    requires forall w :: 0 <= w < n ==> s.writers[w] == Idle
    ensures Reached(s0, steps', t)
    ensures stuck ==> Stuck(s, t)
    ensures !stuck ==> Ready(t) && t.post == s.post && t.queued == s.queued && t.done == s.done
                       && t.reader == s.reader && t.rx == s.rx && t.tx == s.tx
                       && |t.writers| == |s.writers| && t.writers[0] == Idle
                       && FilledCount(t.writers) == FilledCount(s.writers) + n - 1
    decreases n
  {
    if n == 1 {
      return steps, s, false;
    }
    if s.mem.free == {} {
      IdleStarves(s);
      return steps, s, true;
    }
    steps', t := WriterFills(s0, steps, s, n - 1);
    steps', t, stuck := FillWriters(s0, steps', t, n - 1);
  }

  lemma WriterFills(s0: State, steps: seq<Step>, s: State, w: nat) returns (steps': seq<Step>, t: State)
    requires Reached(s0, steps, s) && Ready(s) && w < |s.writers| && s.writers[w] == Idle && s.mem.free != {}
    ensures Reached(s0, steps', t) && Ready(t) && t.post == s.post && t.queued == s.queued && t.done == s.done
    ensures t.reader == s.reader && t.rx == s.rx && t.tx == s.tx && |t.writers| == |s.writers|
    ensures forall x :: 0 <= x < |s.writers| && x != w ==> t.writers[x] == s.writers[x]
    ensures FilledCount(t.writers) == FilledCount(s.writers) + 1
  {
    var b :| b in s.mem.free;
    FilledUpdate(s.writers, w, Filled(SERIAL, b));
    steps', t := Go(s0, steps, s, Write(w, WAlloc(SERIAL, b)));
  }

  /** The first transaction, and one received frame in the reader's hands. */
  lemma Opening(s0: State) returns (steps: seq<Step>, s: State, stuck: bool)
    requires Init(s0) && |s0.writers| >= 1
    ensures Reached(s0, steps, s)
    ensures stuck ==> Starved(s)
    ensures !stuck ==> Calm(s0, steps, s) && s.tx == s0.tx && s.reader.Holding?
  {
    assert Reached(s0, [], s0);
    steps, s, stuck := Dummies(s0, [], s0);
    if !stuck {
      At(s0, steps, s);
      steps, s, stuck := ReceiveOne(s0, steps, s, SERIAL);
    }
    if !stuck {
      At(s0, steps, s);
      steps, s := ReaderTakes(s0, steps, s);
    }
  }

  lemma ReaderTakes(s0: State, steps: seq<Step>, s: State) returns (steps': seq<Step>, t: State)
    requires Calm(s0, steps, s) && s.reader == Resting && s.rx.sem > 0 && s.rx.queues[SERIAL] != []
    ensures Calm(s0, steps', t) && t.tx == s.tx && t.reader.Holding?
  {
    steps', t := Go(s0, steps, s, Read(RTake));
    steps', t := Go(s0, steps', t, Read(RPoll));
  }

  /** Fill the receive queues, then the transmit queues, then let the next transaction start
      and every writer but one take a buffer. */
  lemma StarvingRun(blocks: nat, txSize: nat, rxSize: nat, writers: nat)
    returns (s0: State, steps: seq<Step>)
    requires txSize >= 1 && rxSize >= 1 && writers >= 1 && blocks <= Capacity(txSize, rxSize, writers)
    ensures Init(s0) && |s0.pool| == blocks && s0.tx.size == txSize && s0.rx.size == rxSize
    ensures |s0.writers| == writers && IsRun(s0, steps) && Starved(Run(s0, steps))
  {
    var pool := Blocks(blocks);
    s0 := State(pool, Ledger(pool, multiset{}, multiset{}), Empty(txSize), Empty(rxSize), false,
                [], [], seq(writers, _ => Idle), Taking(Nothing), Resting, false);
    var s, stuck;
    steps, s, stuck := Opening(s0);
    if !stuck {
      At(s0, steps, s);
      steps, s, stuck := FillRx(s0, steps, s);
    }
    if !stuck {
      At(s0, steps, s);
      steps, s, stuck := FillTx(s0, steps, s);
    }
    if !stuck {
      steps, s := Finale(s0, steps, s);
    }
  }

  lemma Finale(s0: State, steps: seq<Step>, s: State) returns (steps': seq<Step>, t: State)
    requires Calm(s0, steps, s) && s.reader.Holding? && s0.tx.size >= 1
    requires Total(s.tx) == 3 * s0.tx.size && Total(s.rx) == 3 * s0.rx.size
    requires |s0.pool| <= Capacity(s0.tx.size, s0.rx.size, |s0.writers|)
    ensures Reached(s0, steps', t) && Starved(t)
  {
    At(s0, steps, s);
    QuietWriters(s.writers, 0);
    var stuck;
    steps', t, stuck := NextTransaction(s0, steps, s);
    if !stuck {
      At(s0, steps', t);
      steps', t, stuck := SendOne(s0, steps', t, SERIAL);
    }
    if !stuck {
      NoneFilled(t.writers);
      steps', t, stuck := FillWriters(s0, steps', t, |t.writers|);
    }
    if !stuck {
      At(s0, steps', t);
      IdleStarves(t);
    }
  }
}
