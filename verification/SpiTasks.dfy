/** The SPI slave driver as its tasks run it, on the real block pool: queues, semaphores
    and the data-ready line updated in place, blocks taken from and given back to the
    allocator of module Mempool. */
module SpiTasks {
  import opened Transport
  import opened Mailbox
  import opened SpiDriver
  import opened SpiDriverProof
  import opened SpiDriverResults
  import Mempool

  class SpiSlave {
    const mem: Mempool.OsMempool
    ghost const pool: set<nat>
    const size: nat
    var txQueues: seq<seq<nat>>
    var txSem: nat
    var rxQueues: seq<seq<nat>>
    var rxSem: nat
    var dataReady: bool
    var queued: seq<Trans>
    var done: seq<Trans>
    var writers: seq<Writer>
    var post: Post
    var reader: Reader
    ghost var allocs: multiset<nat>
    ghost var frees: multiset<nat>
    ghost var exhausted: bool

    ghost function View(): State
      reads this, mem
    {
      State(pool, Ledger(Mempool.SetOf(mem.free), allocs, frees), Box(size, txQueues, txSem),
            Box(size, rxQueues, rxSem), dataReady, queued, done, writers, post, reader, exhausted)
    }

    /** The pool is sound and serves this driver alone; the driver's invariant holds. */
    ghost predicate Valid()
      reads this, mem
    {
      mem.Valid() && mem.Blocks() == pool && Inv(View())
    }

    ghost predicate Can(st: Step)
      reads this, mem
    {
      Valid() && Enabled(View(), st)
    }

    /** Enough for a step that gives no block back. */
    ghost predicate Sound()
      reads this, mem
    {
      mem.Valid() && mem.Blocks() == pool && Ready(View())
    }

    ghost predicate Could(st: Step)
      reads this, mem
    {
      Sound() && Enabled(View(), st)
    }

    /** What one step must leave behind. */
    twostate predicate Stepped(st: Step)
      reads this, mem
    {
      && old(Ready(View())) && old(Enabled(View(), st)) && View() == Next(old(View()), st)
      && Sound()
    }

    constructor (size: nat, mem: Mempool.OsMempool, tasks: nat)
      requires size >= 1 && mem.Valid() && mem.Allocated() == {}
      ensures Valid() && Init(View()) && this.mem == mem && |writers| == tasks
    {
      this.size, this.mem, pool := size, mem, mem.Blocks();
      txQueues, txSem, rxQueues, rxSem := [[], [], []], 0, [[], [], []], 0;
      dataReady, queued, done := false, [], [];
      writers := seq(tasks, _ => Idle);
      post, reader := Taking(Nothing), Resting;
      allocs, frees, exhausted := multiset{}, multiset{}, false;
      new;
      NoneOut(pool, mem.free);
      InvInit(View());
    }

    // ----- the pool -----

    /** hosted_mempool_alloc. */
    method Alloc() returns (b: nat)
      requires mem.Valid() && mem.Blocks() == pool
      modifies mem, `allocs
      ensures mem.Valid() && mem.Blocks() == pool
      ensures b == 0 <==> old(Mempool.SetOf(mem.free)) == {}
      ensures b == 0 ==> Mempool.SetOf(mem.free) == {} && allocs == old(allocs)
      ensures b != 0 ==>
        && b in old(Mempool.SetOf(mem.free))
        && Mempool.SetOf(mem.free) == old(Mempool.SetOf(mem.free)) - {b}
        && allocs == old(allocs) + multiset{b}
    {
      ghost var free := mem.free;
      AllOut(mem.Blocks(), free);
      b := mem.Get();
      if b != 0 {
        Mempool.PopFromSet(free);
        allocs := allocs + multiset{b};
      }
    }

    /** hosted_mempool_free, whose caller must hold the block: nothing checks it. */
    method Release(b: nat)
      requires mem.Valid() && mem.Blocks() == pool && b in pool && b !in Mempool.SetOf(mem.free)
      modifies mem, `frees
      ensures mem.Valid() && mem.Blocks() == pool
      ensures Mempool.SetOf(mem.free) == old(Mempool.SetOf(mem.free)) + {b}
      ensures frees == old(frees) + multiset{b}
    {
      Mempool.NotNull(mem.membuf, mem.TrueSize(), mem.numBlocks, b);
      var _ := mem.Put(b);
      frees := frees + multiset{b};
    }

    // ----- esp_spi_write -----

    /** The transmit buffer; an empty pool stops the writer. */
    method AllocTx(w: nat, cls: Class) returns (ghost st: Step)
      requires Sound() && w < |writers| && writers[w].Idle? && mem.free != []
      modifies `writers, `allocs, mem
      ensures Stepped(st) && st.Write?
    {
      SomeFree(mem.free);
      var b := Alloc();
      writers := writers[w := Filled(cls, b)];
      st := Write(w, WAlloc(cls, b));
    }

    method EnqueueTx(w: nat)
      requires Could(Write(w, WEnqueue))
      modifies `txQueues, `writers
      ensures Stepped(Write(w, WEnqueue))
    {
      var c := writers[w].cls;
      txQueues := txQueues[c := txQueues[c] + [writers[w].buf]];
      writers := writers[w := Writer.Giving];
    }

    method GiveTx(w: nat)
      requires Could(Write(w, WGive))
      modifies `txSem, `writers
      ensures Stepped(Write(w, WGive))
    {
      if txSem < 3 * size {
        txSem := txSem + 1;
      }
      writers := writers[w := Setting];
    }

    method SetDataReady(w: nat)
      requires Could(Write(w, WSet))
      modifies `dataReady, `writers
      ensures Stepped(Write(w, WSet))
    {
      dataReady := true;
      writers := writers[w := Idle];
    }

    // ----- queue_next_transaction -----

    method TryTakeTx()
      requires Could(Send(TryTake))
      modifies `txSem, `post
      ensures Stepped(Send(TryTake))
    {
      if txSem > 0 {
        txSem := txSem - 1;
        post := Polling(post.prev, SERIAL);
      } else {
        post := ClearingReady(post.prev);
      }
    }

    method PollTxQueue()
      requires Could(Send(PollTx))
      modifies `txQueues, `post
      ensures Stepped(Send(PollTx))
    {
      var c := post.cls;
      if txQueues[c] != [] {
        post := NeedRx(post.prev, txQueues[c][0]);
        txQueues := txQueues[c := txQueues[c][1..]];
      } else if c < OTHERS {
        post := Polling(post.prev, c + 1);
      } else {
        post := ClearingReady(post.prev);
      }
    }

    method ResetDataReady()
      requires Could(Send(ClearReady))
      modifies `dataReady, `post
      ensures Stepped(Send(ClearReady))
    {
      dataReady := false;
      post := Dummy(post.prev);
    }

    /** The dummy buffer; without one no transaction is queued. */
    method AllocDummyTx() returns (ghost st: Step)
      requires Sound() && post.Dummy?
      modifies `post, `exhausted, `allocs, mem
      ensures Stepped(st) && st.Send?
    {
      var p := post;
      ghost var s := View();
      var b := Alloc();
      if b == 0 {
        st := Send(NoDummy);
        exhausted := true;
        post := AfterQueue(p.prev);
        assert View() == SendNext(s, NoDummy);
      } else {
        assert View().mem == SpiDriver.Alloc(s.mem, b);
        st := Send(AllocDummy(b));
        post := NeedRx(p.prev, b);
        assert View() == SendNext(s, AllocDummy(b));
      }
    }

    method AllocRxBuffer() returns (ghost st: Step)
      requires Sound() && post.NeedRx? && mem.free != []
      modifies `post, `allocs, mem
      ensures Stepped(st) && st.Send?
    {
      var p := post;
      ghost var s := View();
      SomeFree(mem.free);
      var b := Alloc();
      assert View().mem == SpiDriver.Alloc(s.mem, b);
      post := Queueing(p.prev, p.tx, b);
      st := Send(AllocRx(b));
      assert View() == SendNext(s, AllocRx(b));
    }

    method QueueTransaction()
      requires Could(Send(QueueTrans))
      modifies `queued, `post
      ensures Stepped(Send(QueueTrans))
    {
      queued := queued + [Trans(post.tx, post.rx)];
      post := AfterQueue(post.prev);
    }

    // ----- the rest of spi_transaction_post_process_task -----

    method CollectResult()
      requires Could(Finish(Collect))
      modifies `done, `post
      ensures Stepped(Finish(Collect))
    {
      post := Taking(Collected(done[0]));
      done := done[1..];
    }

    method FreeTxBuffer()
      requires Can(Finish(FreeTx))
      modifies `post, `frees, mem
      ensures Stepped(Finish(FreeTx))
    {
      var t := post.trans;
      UsedIsAllocated(View(), t.tx);
      Release(t.tx);
      post := Examining(t.rx);
    }

    /** process_spi_rx refuses the buffer. */
    method DropRxBuffer()
      requires Can(Finish(DropRx))
      modifies `post, `frees, mem
      ensures Stepped(Finish(DropRx))
    {
      UsedIsAllocated(View(), post.rx);
      Release(post.rx);
      post := Waiting;
    }

    /** process_spi_rx accepts it. */
    method FileRxBuffer(c: Class)
      requires Could(Finish(FileRx(c)))
      modifies `rxQueues, `post
      ensures Stepped(Finish(FileRx(c)))
    {
      rxQueues := rxQueues[c := rxQueues[c] + [post.rx]];
      post := GivingRx;
    }

    method GiveRxSemaphore()
      requires Could(Finish(GiveRx))
      modifies `rxSem, `post
      ensures Stepped(Finish(GiveRx))
    {
      if rxSem < 3 * size {
        rxSem := rxSem + 1;
      }
      post := Waiting;
    }

    // ----- esp_spi_read, and the release in process_rx_pkt -----

    method TakeRxSemaphore()
      requires Could(Read(RTake))
      modifies `rxSem, `reader
      ensures Stepped(Read(RTake))
    {
      rxSem := rxSem - 1;
      reader := Receiving(SERIAL);
    }

    method PollRxQueue()
      requires Could(Read(RPoll))
      modifies `rxQueues, `reader
      ensures Stepped(Read(RPoll))
    {
      var c := reader.cls;
      if rxQueues[c] != [] {
        reader := Holding(rxQueues[c][0]);
        rxQueues := rxQueues[c := rxQueues[c][1..]];
      } else if c < OTHERS {
        reader := Receiving(c + 1);
      } else {
        reader := Failed;
      }
    }

    method ReadDone()
      requires Can(Read(RRelease))
      modifies `reader, `frees, mem
      ensures Stepped(Read(RRelease))
    {
      UsedIsAllocated(View(), reader.buf);
      Release(reader.buf);
      reader := Resting;
    }

    /** The host clocks the queued transaction. */
    method HostTransfers()
      requires Could(Transfer)
      modifies `queued, `done
      ensures Stepped(Transfer)
    {
      done := done + [queued[0]];
      queued := queued[1..];
    }

    // ----- any schedule -----

    /** Whether a step can be taken, whichever block the pool would serve. */
    predicate Possible(st: Step)
      reads this, mem
      requires |txQueues| == 3 && |rxQueues| == 3
    {
      match st
      case Write(w, a) =>
        w < |writers| &&
        (match a
         case WAlloc(_, _) => writers[w].Idle? && mem.numFree > 0
         case WEnqueue => writers[w].Filled? && |txQueues[writers[w].cls]| < size
         case WGive => writers[w].Giving?
         case WSet => writers[w].Setting?)
      case Send(a) =>
        (match a
         case TryTake => post.Taking?
         case PollTx => post.Polling?
         case ClearReady => post.ClearingReady?
         case AllocDummy(_) => post.Dummy?
         case NoDummy => post.Dummy?
         case AllocRx(_) => post.NeedRx? && mem.numFree > 0
         case QueueTrans => post.Queueing?)
      case Finish(a) =>
        (match a
         case Collect => post.Waiting? && done != []
         case FreeTx => post.FreeingTx?
         case DropRx => post.Examining?
         case FileRx(c) => post.Examining? && |rxQueues[c]| < size
         case GiveRx => post.GivingRx?)
      case Read(a) =>
        (match a
         case RTake => reader.Resting? && rxSem > 0
         case RPoll => reader.Receiving?
         case RRelease => reader.Holding?)
      case Transfer => queued != []
    }

    method AdvanceWriter(w: nat, a: WriterAct) returns (ghost st: Step)
      requires Valid() && Possible(Write(w, a))
      modifies this, mem
      ensures Stepped(st)
    {
      st := Write(w, a);
      match a
      case WAlloc(c, _) => st := AllocTx(w, c);
      case WEnqueue => EnqueueTx(w);
      case WGive => GiveTx(w);
      case WSet => SetDataReady(w);
    }

    method AdvanceSend(a: SendAct) returns (ghost st: Step)
      requires Valid() && Possible(Send(a))
      modifies this, mem
      ensures Stepped(st)
    {
      st := Send(a);
      match a
      case TryTake => TryTakeTx();
      case PollTx => PollTxQueue();
      case ClearReady => ResetDataReady();
      case AllocDummy(_) => st := AllocDummyTx();
      case NoDummy => st := AllocDummyTx();
      case AllocRx(_) => st := AllocRxBuffer();
      case QueueTrans => QueueTransaction();
    }

    method AdvancePost(a: PostAct) returns (ghost st: Step)
      requires Valid() && Possible(Finish(a))
      modifies this, mem
      ensures Stepped(st)
    {
      st := Finish(a);
      match a
      case Collect => CollectResult();
      case FreeTx => FreeTxBuffer();
      case DropRx => DropRxBuffer();
      case FileRx(c) => FileRxBuffer(c);
      case GiveRx => GiveRxSemaphore();
    }

    method AdvanceReader(a: ReaderAct) returns (ghost st: Step)
      requires Valid() && Possible(Read(a))
      modifies this, mem
      ensures Stepped(st)
    {
      st := Read(a);
      match a
      case RTake => TakeRxSemaphore();
      case RPoll => PollRxQueue();
      case RRelease => ReadDone();
    }

    method Advance(want: Step) returns (ghost st: Step)
      requires Valid() && Possible(want)
      modifies this, mem
      ensures Stepped(st) && Valid()
    {
      ghost var s := View();
      match want {
        case Write(w, a) => st := AdvanceWriter(w, a);
        case Send(a) => st := AdvanceSend(a);
        case Finish(a) => st := AdvancePost(a);
        case Read(a) => st := AdvanceReader(a);
        case Transfer => HostTransfers(); st := Transfer;
      }
      InvNext(s, st);
    }

    /** Any schedule at all, run on the allocator: what happens is a run of the driver, the
        pool stays sound throughout, and every block released was an allocated one. */
    method Play(wants: seq<Step>) returns (ghost steps: seq<Step>)
      requires Valid()
      modifies this, mem
      ensures Valid() && old(Ready(View()))
      ensures IsRun(old(View()), steps) && View() == Run(old(View()), steps)
    {
      steps := [];
      ghost var s0 := View();
      for i := 0 to |wants|
        invariant Valid() && IsRun(s0, steps) && View() == Run(s0, steps)
      {
        if Possible(wants[i]) {
          ghost var s := View();
          ghost var st := Advance(wants[i]);
          RunConcat(s0, steps, [st]);
          steps := steps + [st];
        }
      }
    }
  }

  lemma NoneOut(blocks: set<nat>, free: seq<nat>)
    requires Mempool.SetOf(free) <= blocks && blocks - Mempool.SetOf(free) == {}
    ensures Mempool.SetOf(free) == blocks
  {
    forall b | b in blocks ensures b in Mempool.SetOf(free) {
      assert b !in blocks - Mempool.SetOf(free);
    }
  }

  lemma SomeFree(free: seq<nat>)
    requires free != []
    ensures Mempool.SetOf(free) != {}
  {
    assert free[0] in Mempool.SetOf(free);
  }

  lemma AllOut(blocks: set<nat>, free: seq<nat>)
    requires Mempool.SetOf(free) <= blocks
    ensures blocks - Mempool.SetOf(free) == blocks <==> Mempool.SetOf(free) == {}
  {
  }
}
