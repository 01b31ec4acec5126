/** What the SPI driver guarantees over whole runs, for any number of writers and every
    interleaving, and the one way its data-ready line can lose a signal. */
module SpiDriverResults {
  import opened Transport
  import opened Mailbox
  import opened SpiDriver
  import opened SpiDriverProof

  /** Conservation: every block of the pool is free or in exactly one place, and nothing
      else is anywhere; each block is released exactly once per allocation, so the two
      counts differ by one just while the block is out. */
  lemma BlocksConserved(s0: State, steps: seq<Step>, b: nat)
    requires Init(s0) && IsRun(s0, steps)
    ensures var s := Run(s0, steps);
      && One(b in s.mem.free) + Uses(s, b) == One(b in s0.pool)
      && s.mem.allocs[b] == s.mem.frees[b] + One(b in s0.pool && b !in s.mem.free)
  {
    InvInit(s0);
    InvRun(s0, steps);
    assert ConservedAt(Run(s0, steps), b);
  }

  /** Until a dummy buffer could not be allocated there is exactly one transaction in the
      hardware queue, finished, or being prepared, and afterwards none ever again; so a
      transaction is only queued into an empty hardware queue. */
  lemma OneTransaction(s0: State, steps: seq<Step>)
    requires Init(s0) && IsRun(s0, steps)
    ensures var s := Run(s0, steps);
      && |s.queued| + |s.done| + One(BetweenTransactions(s.post)) == (if s.exhausted then 0 else 1)
      && (s.post.Queueing? ==> s.queued == [] && s.done == [])
  {
    InvInit(s0);
    InvRun(s0, steps);
  }

  /** Both semaphores count announced buffers: neither saturates, a task that took one
      always finds a buffer, and a zero transmit count with no writer under way means
      nothing is waiting to be sent. */
  lemma SemaphoresTrackQueues(s0: State, steps: seq<Step>)
    requires Init(s0) && IsRun(s0, steps)
    ensures var s := Run(s0, steps);
      && Total(s.tx) == s.tx.sem + GivingCount(s.writers) + One(s.post.Polling?)
      && Total(s.rx) == s.rx.sem + One(s.post.GivingRx?) + One(s.reader.Receiving?)
      && (s.post.GivingRx? ==> s.rx.sem < 3 * s.rx.size)
      && (GivingCount(s.writers) > 0 ==> s.tx.sem < 3 * s.tx.size)
      && (s.post.Polling? && s.post.cls == OTHERS ==> SendNext(s, PollTx).post.NeedRx?)
      && (s.reader.Receiving? && s.reader.cls == OTHERS ==> ReaderNext(s, RPoll).reader.Holding?)
  {
    InvInit(s0);
    InvRun(s0, steps);
  }

  // ----- the data-ready line -----

  ghost predicate SomeSetting(s: State)
  {
    exists w :: 0 <= w < |s.writers| && s.writers[w].Setting?
  }

  /** The host can see that data waits: the line is high, or a writer is about to raise it. */
  ghost predicate Signalled(s: State)
  {
    s.tx.sem > 0 ==> s.dataReady || SomeSetting(s)
  }

  /** The post task lowers the line although, since its failed take, a writer has given the
      semaphore and already raised the line. */
  ghost predicate LosesSignal(s: State, st: Step)
  {
    st == Send(ClearReady) && s.tx.sem > 0 && !SomeSetting(s)
  }

  /** The signal is lost in exactly this way. */
  lemma SignalLostExactly(s: State, st: Step)
    requires Ready(s) && Enabled(s, st) && Signalled(s)
    ensures Signalled(Next(s, st)) <==> !LosesSignal(s, st)
  {
    match st {
      case Write(w, a) => SignalledWrite(s, w, a);
      case _ =>
        assert Next(s, st).writers == s.writers;
        assert SomeSetting(Next(s, st)) <==> SomeSetting(s);
    }
  }

  lemma SignalledWrite(s: State, w: nat, a: WriterAct)
    requires Ready(s) && WriterEnabled(s, w, a) && Signalled(s)
    ensures Signalled(WriterNext(s, w, a))
  {
    var t := WriterNext(s, w, a);
    if a.WGive? {
      assert t.writers[w].Setting?;
    } else if !a.WSet? && SomeSetting(s) {
      var x :| 0 <= x < |s.writers| && s.writers[x].Setting?;
      assert t.writers[x].Setting?;
    }
  }

  /** No step of the run loses the signal; in particular none does when no writer gives
      between a failed take and the clearing that follows it. */
  ghost predicate KeepsSignal(s: State, steps: seq<Step>)
    requires Ready(s) && IsRun(s, steps)
    decreases |steps|
  {
    steps == [] || (!LosesSignal(s, steps[0]) && KeepsSignal(Next(s, steps[0]), steps[1..]))
  }

  lemma {:induction false} SignalledRun(s: State, steps: seq<Step>)
    requires Ready(s) && IsRun(s, steps) && Signalled(s) && KeepsSignal(s, steps)
    ensures Signalled(Run(s, steps))
    decreases |steps|
  {
    if steps != [] {
      SignalLostExactly(s, steps[0]);
      SignalledRun(Next(s, steps[0]), steps[1..]);
    }
  }

  /** A run in which every clearing follows its failed take at once. */
  ghost predicate AtomicRun(s: State, steps: seq<Step>)
    requires Ready(s)
    decreases |steps|
  {
    steps == [] ||
    (Enabled(s, steps[0]) &&
     if steps[0] == Send(TryTake) && s.tx.sem == 0 then
       |steps| > 1 && steps[1] == Send(ClearReady)
       && AtomicRun(SendNext(SendNext(s, TryTake), ClearReady), steps[2..])
     else
       steps[0] != Send(ClearReady) && AtomicRun(Next(s, steps[0]), steps[1..]))
  }

  /** With the failed take and the clearing as one step, data that waits is always
      signalled: the line is high, or a writer is between its give and its set. */
  lemma {:induction false} WaitingDataIsSignalled(s: State, steps: seq<Step>)
    requires Ready(s) && Signalled(s) && AtomicRun(s, steps)
    ensures IsRun(s, steps) && Signalled(Run(s, steps))
    decreases |steps|
  {
    if steps != [] {
      if steps[0] == Send(TryTake) && s.tx.sem == 0 {
        var t := Next(s, steps[0]);
        assert steps[1..][0] == steps[1] && steps[1..][1..] == steps[2..];
        assert Enabled(t, Send(ClearReady));
        WaitingDataIsSignalled(Next(t, Send(ClearReady)), steps[2..]);
        assert IsRun(t, steps[1..]);
      } else {
        SignalLostExactly(s, steps[0]);
        WaitingDataIsSignalled(Next(s, steps[0]), steps[1..]);
      }
    }
  }

  // ----- the run that loses the signal -----

  lemma {:induction false} RunConcat(s: State, a: seq<Step>, b: seq<Step>)
    requires Ready(s) && IsRun(s, a) && IsRun(Run(s, a), b)
    ensures IsRun(s, a + b) && Run(s, a + b) == Run(Run(s, a), b)
    decreases |a|
  {
    if a == [] {
      assert a + b == b;
    } else {
      RunConcat(Next(s, a[0]), a[1..], b);
      assert (a + b)[0] == a[0] && (a + b)[1..] == a[1..] + b;
    }
  }

  ghost predicate Reached(s0: State, steps: seq<Step>, t: State)
  {
    Init(s0) && IsRun(s0, steps) && Run(s0, steps) == t
  }

  lemma Go(s0: State, steps: seq<Step>, s: State, st: Step) returns (steps': seq<Step>, t: State)
    requires Reached(s0, steps, s) && Enabled(s, st)
    ensures Reached(s0, steps', t) && t == Next(s, st)
  {
    RunConcat(s0, steps, [st]);
    steps', t := steps + [st], Next(s, st);
  }

  /** It can happen, in any driver with a block and a writer: the writer's give and set fit
      between the failed take and the clearing, and a frame waits with the line low and
      nobody about to raise it. */
  lemma SignalCanBeLost(s0: State, b: nat) returns (steps: seq<Step>, s: State)
    requires Init(s0) && b in s0.pool && |s0.writers| >= 1
    ensures Reached(s0, steps, s) && s.tx.sem == 1 && !s.exhausted && !Signalled(s)
  {
    assert Reached(s0, [], s0);
    steps, s := Go(s0, [], s0, Send(TryTake));
    steps, s := Go(s0, steps, s, Write(0, WAlloc(SERIAL, b)));
    steps, s := Go(s0, steps, s, Write(0, WEnqueue));
    steps, s := Go(s0, steps, s, Write(0, WGive));
    steps, s := Go(s0, steps, s, Write(0, WSet));
    steps, s := Go(s0, steps, s, Send(ClearReady));
    assert forall w :: 0 <= w < |s.writers| ==> s.writers[w] == Idle;
  }
}
