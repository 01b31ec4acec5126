/** The SPI driver's invariant is inductive. */
module SpiDriverProof {
  import opened Transport
  import opened Mailbox
  import opened SpiDriver

  lemma {:induction false} InWritersUpdate(ws: seq<Writer>, w: nat, x: Writer, b: nat)
    requires w < |ws|
    ensures InWriters(ws[w := x], b) + One(ws[w].Filled? && ws[w].buf == b)
         == InWriters(ws, b) + One(x.Filled? && x.buf == b)
  {
    var last := |ws| - 1;
    if w < last {
      InWritersUpdate(ws[..last], w, x, b);
      assert ws[w := x][..last] == ws[..last][w := x];
    } else {
      assert ws[w := x][..last] == ws[..last];
    }
  }

  lemma {:induction false} GivingUpdate(ws: seq<Writer>, w: nat, x: Writer)
    requires w < |ws|
    ensures GivingCount(ws[w := x]) + One(ws[w].Giving?) == GivingCount(ws) + One(x.Giving?)
  {
    var last := |ws| - 1;
    if w < last {
      GivingUpdate(ws[..last], w, x);
      assert ws[w := x][..last] == ws[..last][w := x];
    } else {
      assert ws[w := x][..last] == ws[..last];
    }
  }

  lemma {:induction false} InTransListAppend(ts: seq<Trans>, t: Trans, b: nat)
    ensures InTransList(ts + [t], b) == InTransList(ts, b) + InTrans(t, b)
  {
    if ts == [] {
      assert (ts + [t])[1..] == [];
    } else {
      InTransListAppend(ts[1..], t, b);
      assert (ts + [t])[1..] == ts[1..] + [t];
    }
  }

  lemma InBoxPut(m: Box<nat>, c: Class, x: nat, b: nat)
    requires Mailbox.Shaped(m)
    ensures InBox(Put(m, c, x), b) == InBox(m, b) + One(x == b)
  {
  }

  lemma InBoxDrop(m: Box<nat>, c: Class, b: nat)
    requires Mailbox.Shaped(m) && m.queues[c] != []
    ensures InBox(Drop(m, c), b) + One(m.queues[c][0] == b) == InBox(m, b)
  {
    assert m.queues[c] == [m.queues[c][0]] + m.queues[c][1..];
  }

  lemma AllocBalanced(pool: set<nat>, m: Ledger, x: nat, b: nat, uses: nat)
    requires Balanced(pool, m, b, uses) && x in m.free
    ensures Balanced(pool, Alloc(m, x), b, uses + One(x == b))
  {
  }

  lemma FreeBalanced(pool: set<nat>, m: Ledger, x: nat, b: nat, uses: nat)
    requires Balanced(pool, m, b, uses + One(x == b))
    ensures Balanced(pool, Free(m, x), b, uses)
  {
  }

  lemma ConservedWriter(s: State, w: nat, a: WriterAct, b: nat)
    requires Ready(s) && WriterEnabled(s, w, a) && ConservedAt(s, b)
    ensures ConservedAt(WriterNext(s, w, a), b)
  {
    var t := WriterNext(s, w, a);
    InWritersUpdate(s.writers, w, t.writers[w], b);
    match a {
      case WAlloc(_, x) =>
        AllocBalanced(s.pool, s.mem, x, b, Uses(s, b));
        assert Uses(t, b) == Uses(s, b) + One(x == b);
      case WEnqueue =>
        InBoxPut(s.tx, s.writers[w].cls, s.writers[w].buf, b);
      case _ =>
    }
  }

  lemma ConservedPollTx(s: State, b: nat)
    requires Ready(s) && s.post.Polling? && ConservedAt(s, b)
    ensures ConservedAt(SendNext(s, PollTx), b)
  {
    if s.tx.queues[s.post.cls] != [] {
      InBoxDrop(s.tx, s.post.cls, b);
    }
  }

  lemma ConservedQueueTrans(s: State, b: nat)
    requires Ready(s) && s.post.Queueing? && ConservedAt(s, b)
    ensures ConservedAt(SendNext(s, QueueTrans), b)
  {
    InTransListAppend(s.queued, Trans(s.post.tx, s.post.rx), b);
  }

  lemma ConservedAllocDummy(s: State, x: nat, b: nat)
    requires Ready(s) && SendEnabled(s, AllocDummy(x)) && ConservedAt(s, b)
    ensures ConservedAt(SendNext(s, AllocDummy(x)), b)
  {
    AllocBalanced(s.pool, s.mem, x, b, Uses(s, b));
  }

  lemma ConservedAllocRx(s: State, x: nat, b: nat)
    requires Ready(s) && SendEnabled(s, AllocRx(x)) && ConservedAt(s, b)
    ensures ConservedAt(SendNext(s, AllocRx(x)), b)
  {
    AllocBalanced(s.pool, s.mem, x, b, Uses(s, b));
  }

  lemma QuietPost(p: Post, b: nat)
    requires p.Taking? || p.ClearingReady? || p.Dummy?
    ensures InPost(Polling(p.prev, SERIAL), b) == InPost(p, b)
    ensures InPost(ClearingReady(p.prev), b) == InPost(Dummy(p.prev), b) == InPost(p, b)
    ensures InPost(AfterQueue(p.prev), b) == InPost(p, b)
  {
  }

  /** A step that moves no block. */
  lemma ConservedFrame(s: State, t: State, b: nat)
    requires Ready(s) && Ready(t) && ConservedAt(s, b)
    requires t.pool == s.pool && t.mem == s.mem && t.tx.queues == s.tx.queues && t.rx == s.rx
    requires t.queued == s.queued && t.done == s.done && t.writers == s.writers && t.reader == s.reader
    requires InPost(t.post, b) == InPost(s.post, b)
    ensures ConservedAt(t, b)
  {
  }

  lemma ConservedTryTake(s: State, b: nat)
    requires Ready(s) && s.post.Taking? && ConservedAt(s, b)
    ensures ConservedAt(SendNext(s, TryTake), b)
  {
    QuietPost(s.post, b);
    ConservedFrame(s, SendNext(s, TryTake), b);
  }

  lemma ConservedClearReady(s: State, b: nat)
    requires Ready(s) && s.post.ClearingReady? && ConservedAt(s, b)
    ensures ConservedAt(SendNext(s, ClearReady), b)
  {
    QuietPost(s.post, b);
    ConservedFrame(s, SendNext(s, ClearReady), b);
  }

  lemma ConservedNoDummy(s: State, b: nat)
    requires Ready(s) && SendEnabled(s, NoDummy) && ConservedAt(s, b)
    ensures ConservedAt(SendNext(s, NoDummy), b)
  {
    QuietPost(s.post, b);
    ConservedFrame(s, SendNext(s, NoDummy), b);
  }

  lemma ConservedSend(s: State, a: SendAct, b: nat)
    requires Ready(s) && SendEnabled(s, a) && ConservedAt(s, b)
    ensures ConservedAt(SendNext(s, a), b)
  {
    match a {
      case PollTx => ConservedPollTx(s, b);
      case QueueTrans => ConservedQueueTrans(s, b);
      case AllocDummy(x) => ConservedAllocDummy(s, x, b);
      case AllocRx(x) => ConservedAllocRx(s, x, b);
      case TryTake => ConservedTryTake(s, b);
      case ClearReady => ConservedClearReady(s, b);
      case NoDummy => ConservedNoDummy(s, b);
    }
  }

  lemma ConservedFreeTx(s: State, b: nat)
    requires Ready(s) && s.post.FreeingTx? && ConservedAt(s, b)
    ensures ConservedAt(FinishNext(s, FreeTx), b)
  {
    FreeBalanced(s.pool, s.mem, s.post.trans.tx, b, Uses(FinishNext(s, FreeTx), b));
  }

  lemma ConservedDropRx(s: State, b: nat)
    requires Ready(s) && s.post.Examining? && ConservedAt(s, b)
    ensures ConservedAt(FinishNext(s, DropRx), b)
  {
    FreeBalanced(s.pool, s.mem, s.post.rx, b, Uses(FinishNext(s, DropRx), b));
  }

  lemma ConservedFinish(s: State, a: PostAct, b: nat)
    requires Ready(s) && FinishEnabled(s, a) && ConservedAt(s, b)
    ensures ConservedAt(FinishNext(s, a), b)
  {
    match a {
      case FreeTx => ConservedFreeTx(s, b);
      case DropRx => ConservedDropRx(s, b);
      case FileRx(c) => InBoxPut(s.rx, c, s.post.rx, b);
      case _ =>
    }
  }

  lemma ConservedReader(s: State, a: ReaderAct, b: nat)
    requires Ready(s) && ReaderEnabled(s, a) && ConservedAt(s, b)
    ensures ConservedAt(ReaderNext(s, a), b)
  {
    var t := ReaderNext(s, a);
    match a {
      case RPoll =>
        if s.rx.queues[s.reader.cls] != [] {
          InBoxDrop(s.rx, s.reader.cls, b);
        }
      case RRelease => FreeBalanced(s.pool, s.mem, s.reader.buf, b, Uses(t, b));
      case RTake =>
    }
  }

  lemma ConservedNext(s: State, st: Step)
    requires Ready(s) && Enabled(s, st) && Conserved(s)
    ensures Conserved(Next(s, st))
  {
    forall b: nat ensures ConservedAt(Next(s, st), b) {
      assert ConservedAt(s, b);
      match st {
        case Write(w, a) => ConservedWriter(s, w, a, b);
        case Send(a) => ConservedSend(s, a, b);
        case Finish(a) => ConservedFinish(s, a, b);
        case Read(a) => ConservedReader(s, a, b);
        case Transfer => InTransListAppend(s.done, s.queued[0], b);
      }
    }
  }

  lemma {:induction false} SomeGiving(ws: seq<Writer>, w: nat)
    requires w < |ws| && ws[w].Giving?
    ensures GivingCount(ws) > 0
  {
    if w < |ws| - 1 {
      SomeGiving(ws[..|ws| - 1], w);
    }
  }

  lemma AnnouncedWriter(s: State, w: nat, a: WriterAct)
    requires Ready(s) && WriterEnabled(s, w, a) && Announced(s)
    ensures Announced(WriterNext(s, w, a))
  {
    GivingUpdate(s.writers, w, WriterNext(s, w, a).writers[w]);
    match a {
      case WEnqueue =>
        PutKeeps(s.tx, GivingCount(s.writers), TxFetch(s.post), s.writers[w].cls, s.writers[w].buf);
      case WGive =>
        SomeGiving(s.writers, w);
        GiveKeeps(s.tx, GivingCount(s.writers), TxFetch(s.post));
      case _ =>
    }
  }

  lemma AnnouncedSend(s: State, a: SendAct)
    requires Ready(s) && SendEnabled(s, a) && Announced(s)
    ensures Announced(SendNext(s, a))
  {
    match a {
      case TryTake => if s.tx.sem > 0 { TakeKeeps(s.tx, GivingCount(s.writers)); }
      case PollTx => PollKeeps(s.tx, GivingCount(s.writers), s.post.cls);
      case _ =>
    }
  }

  lemma AnnouncedFinish(s: State, a: PostAct)
    requires Ready(s) && FinishEnabled(s, a) && Announced(s)
    ensures Announced(FinishNext(s, a))
  {
    match a {
      case FileRx(c) => PutKeeps(s.rx, 0, RxFetch(s.reader), c, s.post.rx);
      case GiveRx => GiveKeeps(s.rx, 1, RxFetch(s.reader));
      case _ =>
    }
  }

  lemma AnnouncedReader(s: State, a: ReaderAct)
    requires Ready(s) && ReaderEnabled(s, a) && Announced(s)
    ensures Announced(ReaderNext(s, a))
  {
    match a {
      case RTake => TakeKeeps(s.rx, One(s.post.GivingRx?));
      case RPoll => PollKeeps(s.rx, One(s.post.GivingRx?), s.reader.cls);
      case RRelease =>
    }
  }

  lemma ChainedNext(s: State, st: Step)
    requires Ready(s) && Enabled(s, st) && Chained(s)
    ensures Chained(Next(s, st))
  {
  }

  lemma InvNext(s: State, st: Step)
    requires Inv(s) && Enabled(s, st)
    ensures Inv(Next(s, st))
  {
    ConservedNext(s, st);
    match st {
      case Write(w, a) => AnnouncedWriter(s, w, a);
      case Send(a) => AnnouncedSend(s, a);
      case Finish(a) => AnnouncedFinish(s, a);
      case Read(a) => AnnouncedReader(s, a);
      case Transfer =>
    }
    ChainedNext(s, st);
  }

  lemma {:induction false} QuietWriters(ws: seq<Writer>, b: nat)
    requires forall w :: 0 <= w < |ws| ==> ws[w] == Idle
    ensures InWriters(ws, b) == 0 && GivingCount(ws) == 0
  {
    if ws != [] {
      QuietWriters(ws[..|ws| - 1], b);
    }
  }

  lemma InvInit(s: State)
    requires Init(s)
    ensures Inv(s)
  {
    forall b: nat ensures ConservedAt(s, b) {
      QuietWriters(s.writers, b);
    }
    QuietWriters(s.writers, 0);
  }

  lemma {:induction false} InvRun(s: State, steps: seq<Step>)
    requires Inv(s) && IsRun(s, steps)
    ensures Inv(Run(s, steps)) && Run(s, steps).pool == s.pool
    decreases |steps|
  {
    if steps != [] {
      InvNext(s, steps[0]);
      InvRun(Next(s, steps[0]), steps[1..]);
    }
  }

  /** A block in use is a pool block and not free: releasing it is within the allocator's
      contract. */
  lemma UsedIsAllocated(s: State, b: nat)
    requires Inv(s) && Uses(s, b) > 0
    ensures b in s.pool && b !in s.mem.free
  {
    assert ConservedAt(s, b);
  }
}
