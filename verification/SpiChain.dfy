/** How large the SPI driver's pool must be so that the chain of transactions never ends: a
    dummy buffer that cannot be allocated leaves the hardware without a transaction. */
module SpiChain {
  import opened Transport
  import opened Mailbox
  import opened SpiDriver
  import opened SpiDriverProof
  import opened SpiDriverResults
  import opened SpiPool

  /** The most blocks in use while the post task wants a dummy buffer. */
  lemma DummyBound(s: State)
    requires Inv(s) && s.post.Dummy?
    ensures Occupied(s) < Capacity(s.tx.size, s.rx.size, |s.writers|)
  {
    FilledBound(s.writers);
  }

  lemma {:induction false} LastsRun(s: State, steps: seq<Step>)
    requires Inv(s) && Sized(s) && !s.exhausted && IsRun(s, steps)
    requires |s.pool| >= Capacity(s.tx.size, s.rx.size, |s.writers|)
    ensures !Run(s, steps).exhausted
    decreases |steps|
  {
    if steps != [] {
      if s.post.Dummy? {
        DummyBound(s);
      }
      InvNext(s, steps[0]);
      SizedNext(s, steps[0]);
      ShapeNext(s, steps[0]);
      OnlyNoDummyEnds(s, steps[0]);
      LastsRun(Next(s, steps[0]), steps[1..]);
    }
  }

  lemma OnlyNoDummyEnds(s: State, st: Step)
    requires Ready(s) && Enabled(s, st) && !s.exhausted && st != Send(NoDummy)
    ensures !Next(s, st).exhausted
  {
  }

  ghost predicate NeverEnds(blocks: nat, txSize: nat, rxSize: nat, writers: nat)
  {
    forall s0, steps ::
      Init(s0) && |s0.pool| == blocks && s0.tx.size == txSize && s0.rx.size == rxSize
      && |s0.writers| == writers && IsRun(s0, steps)
      ==> !Run(s0, steps).exhausted
  }

  /** The chain of transactions never ends in any run exactly if the pool has at least
      3 TX + 3 RX + writers + 4 blocks, one less than it takes for no allocation to fail. */
  lemma ChainLastsExactly(blocks: nat, txSize: nat, rxSize: nat, writers: nat)
    requires txSize >= 1 && rxSize >= 1 && writers >= 1
    ensures NeverEnds(blocks, txSize, rxSize, writers) <==> blocks >= Capacity(txSize, rxSize, writers)
  {
    if blocks >= Capacity(txSize, rxSize, writers) {
      forall s0, steps | Init(s0) && |s0.pool| == blocks && s0.tx.size == txSize && s0.rx.size == rxSize
                         && |s0.writers| == writers && IsRun(s0, steps)
        ensures !Run(s0, steps).exhausted
      {
        SizedInit(s0);
        LastsRun(s0, steps);
      }
    } else {
      var s0, steps := EndingRun(blocks, txSize, rxSize, writers);
    }
  }

  // ----- the run that ends the chain -----

  /** The post task wants a dummy buffer; nothing is queued to send; all writers are idle. */
  ghost predicate AtDummy(s0: State, steps: seq<Step>, s: State)
  {
    && Reached(s0, steps, s) && Ready(s) && s.post.Dummy? && Total(s.tx) == 0
    && |s.writers| >= 1 && (forall w :: 0 <= w < |s.writers| ==> s.writers[w] == Idle)
  }

  /** What the writers can use up while the post task stands there. */
  function Demand(s: State): nat { 3 * s.tx.size + |s.writers| }

  lemma ToDummy(s0: State, steps: seq<Step>, s: State) returns (steps': seq<Step>, t: State)
    requires Reached(s0, steps, s) && Ready(s) && s.post.Taking? && s.tx.sem == 0
    ensures Reached(s0, steps', t) && Ready(t) && t.post == Dummy(s.post.prev)
    ensures t.tx == s.tx && t.rx == s.rx && t.writers == s.writers && t.reader == s.reader
    ensures t.queued == s.queued && t.done == s.done && t.mem == s.mem
  {
    steps', t := Go(s0, steps, s, Send(TryTake));
    steps', t := Go(s0, steps', t, Send(ClearReady));
  }

  /** The writers take the last blocks, and the dummy buffer cannot be had. */
  lemma WritersTakeAll(s0: State, steps: seq<Step>, s: State) returns (steps': seq<Step>, t: State)
    requires AtDummy(s0, steps, s) && |s.mem.free| <= Demand(s)
    ensures Reached(s0, steps', t) && t.exhausted
  {
    At(s0, steps, s);
    NoneFilled(s.writers);
    var stuck;
    steps', t, stuck := FillTx(s0, steps, s);
    if !stuck {
      steps', t, stuck := FillWriters(s0, steps', t, |t.writers|);
    }
    if !stuck && t.mem.free != {} {
      At(s0, steps', t);
      steps', t := WriterFills(s0, steps', t, 0);
      At(s0, steps', t);
    }
    assert t.mem.free == {};
    steps', t := Go(s0, steps', t, Send(NoDummy));
  }

  /** With blocks enough, the transaction is queued. */
  lemma DummyQueued(s0: State, steps: seq<Step>, s: State) returns (steps': seq<Step>, t: State)
    requires AtDummy(s0, steps, s) && |s.mem.free| >= 2
    ensures Reached(s0, steps', t) && Ready(t) && t.post == AfterQueue(s.post.prev)
    ensures |t.queued| == |s.queued| + 1 && t.done == s.done && t.tx == s.tx && t.rx == s.rx
    ensures t.writers == s.writers && t.reader == s.reader
  {
    var b :| b in s.mem.free;
    AllocSize(s.mem, b);
    steps', t := Go(s0, steps, s, Send(AllocDummy(b)));
    var b' :| b' in t.mem.free;
    steps', t := Go(s0, steps', t, Send(AllocRx(b')));
    steps', t := Go(s0, steps', t, Send(QueueTrans));
  }

  lemma FrameFiled(s0: State, steps: seq<Step>, s: State, c: Class) returns (steps': seq<Step>, t: State)
    requires Reached(s0, steps, s) && Ready(s) && s.post.FreeingTx? && |s.rx.queues[c]| < s.rx.size
    ensures Reached(s0, steps', t) && Ready(t) && t.post == Waiting && Total(t.rx) == Total(s.rx) + 1
    ensures |t.rx.queues[c]| == |s.rx.queues[c]| + 1
    ensures t.queued == s.queued && t.done == s.done && t.tx == s.tx
    ensures t.writers == s.writers && t.reader == s.reader
  {
    steps', t := Go(s0, steps, s, Finish(FreeTx));
    BoxTotals(t.rx, c, t.post.rx);
    steps', t := Go(s0, steps', t, Finish(FileRx(c)));
    BoxTotals(t.rx, SERIAL, 0);
    steps', t := Go(s0, steps', t, Finish(GiveRx));
  }

  /** From one transaction to the point where the next one needs its dummy buffer. */
  lemma NextDummy(s0: State, steps: seq<Step>, s: State) returns (steps': seq<Step>, t: State)
    requires Calm(s0, steps, s) && Total(s.tx) == 0
    ensures AtDummy(s0, steps', t) && t.post.prev.Collected? && t.queued == [] && t.done == []
    ensures t.rx == s.rx && t.reader == s.reader && t.tx == s.tx
  {
    At(s0, steps, s);
    steps', t := Go(s0, steps, s, Transfer);
    steps', t := Go(s0, steps', t, Finish(Collect));
    steps', t := ToDummy(s0, steps', t);
  }

  /** Transactions go on until the free blocks are few enough for the writers to take. */
  lemma {:induction false} EndLoop(s0: State, steps: seq<Step>, s: State) returns (steps': seq<Step>, t: State)
    requires Calm(s0, steps, s) && Total(s.tx) == 0 && s.reader.Holding? && Total(s.rx) <= 3 * s0.rx.size
    requires |s0.pool| < Capacity(s0.tx.size, s0.rx.size, |s0.writers|)
    ensures Reached(s0, steps', t) && t.exhausted
    decreases 3 * s0.rx.size - Total(s.rx)
  {
    steps', t := NextDummy(s0, steps, s);
    At(s0, steps', t);
    if |t.mem.free| <= Demand(t) {
      steps', t := WritersTakeAll(s0, steps', t);
    } else {
      var c := RoomLeft(s0, t);
      steps', t := DummyQueued(s0, steps', t);
      steps', t := FrameFiled(s0, steps', t, c);
      At(s0, steps', t);
      steps', t := EndLoop(s0, steps', t);
    }
  }

  /** Too many free blocks at such a point mean that a receive queue has room. */
  lemma RoomLeft(s0: State, s: State) returns (c: Class)
    requires Inv(s) && Sized(s) && SameShape(s0, s) && s.post.Dummy? && s.post.prev.Collected?
    requires s.reader.Holding? && |s.mem.free| > Demand(s)
    requires |s0.pool| < Capacity(s0.tx.size, s0.rx.size, |s0.writers|)
    ensures |s.rx.queues[c]| < s.rx.size
  {
    if |s.rx.queues[SERIAL]| < s.rx.size {
      c := SERIAL;
    } else if |s.rx.queues[BT]| < s.rx.size {
      c := BT;
    } else {
      c := OTHERS;
    }
  }

  lemma FirstDummy(s0: State) returns (steps: seq<Step>, s: State)
    requires Init(s0) && |s0.writers| >= 1
    ensures AtDummy(s0, steps, s) && s.post.prev == Nothing && s.queued == [] && s.done == []
    ensures s.rx == s0.rx && s.reader == Resting
  {
    assert Reached(s0, [], s0);
    steps, s := ToDummy(s0, [], s0);
  }

  /** The first transactions, up to a frame in the reader's hands, unless the chain ends. */
  lemma Beginning(s0: State) returns (steps: seq<Step>, s: State)
    requires Init(s0) && |s0.writers| >= 1
    ensures Reached(s0, steps, s)
    ensures !s.exhausted ==>
      Calm(s0, steps, s) && Total(s.tx) == 0 && s.reader.Holding? && Total(s.rx) <= 3 * s0.rx.size
  {
    steps, s := FirstDummy(s0);
    At(s0, steps, s);
    if |s.mem.free| <= Demand(s) {
      steps, s := WritersTakeAll(s0, steps, s);
      return;
    }
    steps, s := DummyQueued(s0, steps, s);
    steps, s := NextDummy(s0, steps, s);
    At(s0, steps, s);
    if |s.mem.free| <= Demand(s) {
      steps, s := WritersTakeAll(s0, steps, s);
      return;
    }
    steps, s := DummyQueued(s0, steps, s);
    steps, s := FrameFiled(s0, steps, s, SERIAL);
    At(s0, steps, s);
    steps, s := ReaderTakes(s0, steps, s);
    At(s0, steps, s);
  }

  lemma EndingRun(blocks: nat, txSize: nat, rxSize: nat, writers: nat)
    returns (s0: State, steps: seq<Step>)
    requires txSize >= 1 && rxSize >= 1 && writers >= 1 && blocks < Capacity(txSize, rxSize, writers)
    ensures Init(s0) && |s0.pool| == blocks && s0.tx.size == txSize && s0.rx.size == rxSize
    ensures |s0.writers| == writers && IsRun(s0, steps) && Run(s0, steps).exhausted
  {
    var pool := Blocks(blocks);
    s0 := State(pool, Ledger(pool, multiset{}, multiset{}), Empty(txSize), Empty(rxSize), false,
                [], [], seq(writers, _ => Idle), Taking(Nothing), Resting, false);
    var s;
    steps, s := Beginning(s0);
    if !s.exhausted {
      steps, s := EndLoop(s0, steps, s);
    }
  }
}
