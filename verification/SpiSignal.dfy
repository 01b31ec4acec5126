/** The data-ready line of the SPI driver over whole runs: exactly which schedules leave
    waiting data invisible to the host. */
module SpiSignal {
  import opened Mailbox
  import opened SpiDriver
  import opened SpiDriverProof
  import opened SpiDriverResults

  predicate IsGive(st: Step) { st.Write? && st.write.WGive? }

  /** A writer has given spi_tx_sem since the post task last tried to take it. */
  function GaveSinceTake(steps: seq<Step>): bool
  {
    steps != [] && steps[|steps| - 1] != Send(TryTake)
    && (IsGive(steps[|steps| - 1]) || GaveSinceTake(steps[..|steps| - 1]))
  }

  /** Behind a take it is a question of the steps since. */
  lemma {:induction false} GaveBetween(pre: seq<Step>, mid: seq<Step>)
    requires Send(TryTake) !in mid
    ensures GaveSinceTake(pre + [Send(TryTake)] + mid) <==> exists st :: st in mid && IsGive(st)
  {
    var all := pre + [Send(TryTake)] + mid;
    if mid != [] {
      var rest := mid[..|mid| - 1];
      GaveBetween(pre, rest);
      assert all[..|all| - 1] == pre + [Send(TryTake)] + rest;
      assert mid == rest + [mid[|mid| - 1]];
    }
  }

  lemma {:induction false} RunSplit(s: State, a: seq<Step>, b: seq<Step>)
    requires Ready(s) && IsRun(s, a + b)
    ensures IsRun(s, a) && IsRun(Run(s, a), b) && Run(s, a + b) == Run(Run(s, a), b)
    decreases |a|
  {
    if a == [] {
      assert a + b == b;
    } else {
      assert (a + b)[0] == a[0] && (a + b)[1..] == a[1..] + b;
      RunSplit(Next(s, a[0]), a[1..], b);
    }
  }

  /** The run up to its i-th step, and that step. */
  lemma RunTo(s: State, steps: seq<Step>, i: nat)
    requires Ready(s) && IsRun(s, steps) && i < |steps|
    ensures IsRun(s, steps[..i]) && Enabled(Run(s, steps[..i]), steps[i])
    ensures IsRun(s, steps[..i + 1]) && Run(s, steps[..i + 1]) == Next(Run(s, steps[..i]), steps[i])
  {
    assert steps == steps[..i] + steps[i..];
    RunSplit(s, steps[..i], steps[i..]);
    RunSnoc(s, steps[..i], steps[i]);
    assert steps[..i + 1] == steps[..i] + [steps[i]];
  }

  lemma RunSnoc(s: State, steps: seq<Step>, st: Step)
    requires Ready(s) && IsRun(s, steps) && Enabled(Run(s, steps), st)
    ensures IsRun(s, steps + [st]) && Run(s, steps + [st]) == Next(Run(s, steps), st)
  {
    RunConcat(s, steps, [st]);
  }

  /** While the post task is about to lower the line, the semaphore is positive exactly if a
      writer gave it since the failed take. */
  predicate GivesCount(s: State, gave: bool)
  {
    s.post.ClearingReady? ==> (s.tx.sem > 0 <==> gave)
  }

  lemma GivesCountNext(s: State, st: Step, gave: bool)
    requires Ready(s) && Announced(s) && Enabled(s, st) && GivesCount(s, gave)
    ensures GivesCount(Next(s, st), st != Send(TryTake) && (IsGive(st) || gave))
  {
    match st {
      case Write(w, a) =>
      case Send(a) => GivesCountSend(s, a, gave);
      case Finish(a) =>
      case Read(a) =>
      case Transfer =>
    }
  }

  lemma GivesCountSend(s: State, a: SendAct, gave: bool)
    requires Ready(s) && Announced(s) && SendEnabled(s, a) && GivesCount(s, gave)
    ensures GivesCount(SendNext(s, a), a != TryTake && gave)
  {
    if a.PollTx? {
      PollKeeps(s.tx, GivingCount(s.writers), s.post.cls);
    }
  }

  lemma {:induction false} GivesCountRun(s0: State, steps: seq<Step>, i: nat)
    requires Init(s0) && IsRun(s0, steps) && i <= |steps|
    ensures IsRun(s0, steps[..i]) && Inv(Run(s0, steps[..i]))
    ensures GivesCount(Run(s0, steps[..i]), GaveSinceTake(steps[..i]))
  {
    if i == 0 {
      InvInit(s0);
    } else {
      GivesCountRun(s0, steps, i - 1);
      RunTo(s0, steps, i - 1);
      var s, st := Run(s0, steps[..i - 1]), steps[i - 1];
      InvNext(s, st);
      GivesCountNext(s, st, GaveSinceTake(steps[..i - 1]));
      assert steps[..i][..i - 1] == steps[..i - 1];
    }
  }

  ghost predicate SignalledAt(s0: State, steps: seq<Step>, i: nat)
    requires Ready(s0)
  {
    i <= |steps| && IsRun(s0, steps[..i]) && Signalled(Run(s0, steps[..i]))
  }

  /** Step i lowers the line, a writer gave the semaphore since the failed take before it,
      and no writer is between its give and its set. */
  ghost predicate LosesAt(s0: State, steps: seq<Step>, i: nat)
    requires Ready(s0)
  {
    && i < |steps| && steps[i] == Send(ClearReady) && GaveSinceTake(steps[..i])
    && IsRun(s0, steps[..i]) && !SomeSetting(Run(s0, steps[..i]))
  }

  /** One step of a run: the signal is lost exactly there. */
  lemma LostAtExactly(s0: State, steps: seq<Step>, i: nat)
    requires Init(s0) && IsRun(s0, steps) && i < |steps|
    ensures SignalledAt(s0, steps, i) ==> (SignalledAt(s0, steps, i + 1) <==> !LosesAt(s0, steps, i))
    ensures LosesAt(s0, steps, i) ==> !SignalledAt(s0, steps, i + 1)
  {
    RunTo(s0, steps, i);
    GivesCountRun(s0, steps, i);
    var s := Run(s0, steps[..i]);
    if Signalled(s) {
      SignalLostExactly(s, steps[i]);
    }
    if steps[i] == Send(ClearReady) {
      assert SomeSetting(Next(s, steps[i])) <==> SomeSetting(s);
    }
  }

  /** Over whole runs: waiting data is signalled all the time exactly if no clearing of the
      line finds that a writer gave the semaphore since the failed take and that every such
      writer has raised the line already. */
  lemma SignalledExactly(s0: State, steps: seq<Step>)
    requires Init(s0) && IsRun(s0, steps)
    ensures (forall i: nat :: i <= |steps| ==> SignalledAt(s0, steps, i))
       <==> (forall i: nat :: i < |steps| ==> !LosesAt(s0, steps, i))
  {
    forall i: nat | i < |steps| ensures LosesAt(s0, steps, i) ==> !SignalledAt(s0, steps, i + 1) {
      LostAtExactly(s0, steps, i);
    }
    if forall i: nat :: i < |steps| ==> !LosesAt(s0, steps, i) {
      forall i: nat | i <= |steps| ensures SignalledAt(s0, steps, i) {
        SignalledUpTo(s0, steps, i);
      }
    }
  }

  lemma {:induction false} SignalledUpTo(s0: State, steps: seq<Step>, i: nat)
    requires Init(s0) && IsRun(s0, steps) && i <= |steps|
    requires forall k: nat :: k < |steps| ==> !LosesAt(s0, steps, k)
    ensures SignalledAt(s0, steps, i)
  {
    if i == 0 {
      assert steps[..0] == [];
    } else {
      SignalledUpTo(s0, steps, i - 1);
      LostAtExactly(s0, steps, i - 1);
    }
  }

  // ----- the line itself -----

  /** What a schedule makes of the line: the last writer's set or clearing decides. */
  function LineAfter(high: bool, steps: seq<Step>): bool
    decreases |steps|
  {
    if steps == [] then high
    else
      LineAfter(if steps[0].Write? && steps[0].write.WSet? then true
                else if steps[0] == Send(ClearReady) then false
                else high,
                steps[1..])
  }

  lemma LineStep(s: State, st: Step)
    requires Ready(s) && Enabled(s, st)
    ensures Next(s, st).dataReady ==
      if st.Write? && st.write.WSet? then true else if st == Send(ClearReady) then false else s.dataReady
  {
  }

  /** In every run the line is high exactly if a writer set it and the post task has not
      cleared it since. */
  lemma {:induction false} LineByLastStep(s: State, steps: seq<Step>)
    requires Ready(s) && IsRun(s, steps)
    ensures Run(s, steps).dataReady == LineAfter(s.dataReady, steps)
    decreases |steps|
  {
    if steps != [] {
      LineStep(s, steps[0]);
      LineByLastStep(Next(s, steps[0]), steps[1..]);
    }
  }
}
