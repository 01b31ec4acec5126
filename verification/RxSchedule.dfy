/** The receive side told by its schedule: which loads turn throttling on and off, which
    checks are made, and which queue a frame is filed in and taken from. */
module RxSchedule {
  import opened Transport
  import opened Arithmetic
  import opened Mailbox
  import opened RxPath

  // ----- runs from their start -----

  lemma {:induction false} RunSplit(s: State, a: seq<Step>, b: seq<Step>)
    requires Ready(s) && IsRun(s, a + b)
    ensures IsRun(s, a) && IsRun(Run(s, a), b) && Run(s, a + b) == Run(Run(s, a), b)
    decreases |a|
  {
    if a == [] {
      assert a + b == b;
    } else {
      assert (a + b)[0] == a[0] && (a + b)[1..] == a[1..] + b;
      RunSplit(Next(s, a[0]), a[1..], b);
    }
  }

  /** The run up to its i-th step, and that step. */
  lemma RunTo(s: State, steps: seq<Step>, i: nat)
    requires Ready(s) && IsRun(s, steps) && i < |steps|
    ensures IsRun(s, steps[..i]) && Enabled(Run(s, steps[..i]), steps[i])
    ensures IsRun(s, steps[..i + 1]) && Run(s, steps[..i + 1]) == Next(Run(s, steps[..i]), steps[i])
  {
    assert steps == steps[..i] + steps[i..];
    RunSplit(s, steps[..i], steps[i..]);
    RunConcat(s, steps[..i], [steps[i]]);
    assert steps[..i + 1] == steps[..i] + [steps[i]];
  }

  // ----- the loads that decide -----

  /** Frames of the OTHERS class filed and not yet received at step i. */
  ghost function LoadAt(s0: State, steps: seq<Step>, i: nat): int
    requires Ready(s0) && i <= |steps| && IsRun(s0, steps[..i])
  {
    var s := Run(s0, steps[..i]);
    |s.filed[2]| - |s.received[2]|
  }

  /** Step i is a start check that meets a load of more than the high threshold in percent,
      fractions cut off: 100 * load / q > high. */
  ghost predicate StartsAt(s0: State, steps: seq<Step>, i: nat)
    requires Ready(s0)
  {
    && i < |steps| && steps[i] == Measure && IsRun(s0, steps[..i])
    && 100 * LoadAt(s0, steps, i) >= s0.cfg.q * (s0.cfg.high + 1)
  }

  /** Step i is a stop check that meets a load under the low threshold. */
  ghost predicate StopsAt(s0: State, steps: seq<Step>, i: nat)
    requires Ready(s0)
  {
    && i < |steps| && steps[i] == Read && IsRun(s0, steps[..i])
    && 100 * LoadAt(s0, steps, i) < s0.cfg.q * s0.cfg.low
  }

  /** Some start check met too high a load, and no stop check since a low one. */
  ghost predicate Held(s0: State, steps: seq<Step>, n: nat)
    requires Ready(s0)
  {
    exists i: nat :: i < n && StartsAt(s0, steps, i) && forall j: nat :: i < j < n ==> !StopsAt(s0, steps, j)
  }

  /** The percentage, without division. */
  lemma PercentMeans(load: nat, q: nat, t: nat)
    requires q >= 1 && load <= q
    ensures LoadPercent(load, q) > t <==> 100 * load >= q * (t + 1)
    ensures LoadPercent(load, q) < t <==> 100 * load < q * t
  {
    PercentFits(load, q);
    var x := load * 100;
    var z, r := x / q, x % q;
    assert x == q * z + r;
    if z >= t {
      MulGrows(q, t, z);
    } else {
      MulGrows(q, z + 1, t);
      assert q * (z + 1) == q * z + q;
    }
    if z > t {
      MulGrows(q, t + 1, z);
    } else {
      MulGrows(q, z, t);
      assert q * (t + 1) == q * t + q;
    }
  }

  /** Throttling is on, or about to be; or it is about to be cleared. */
  predicate OnItsWay(s: State) { (s.throttling || s.writer.Setting?) && !s.reader.Clearing? }

  predicate Places(s: State)
  {
    && (s.reader.Reading? || s.reader.Clearing? ==> s.throttling)
    && (s.writer.Measuring? || s.writer.Setting? ==> !s.throttling)
  }

  lemma PlacesNext(s: State, st: Step)
    requires Ready(s) && Enabled(s, st) && Places(s)
    ensures Places(Next(s, st))
  {
  }

  lemma OnItsWayNext(s: State, st: Step)
    requires Ready(s) && Enabled(s, st) && Places(s)
    ensures OnItsWay(Next(s, st)) <==>
      if st == Measure && OthersPercent(s) > s.cfg.high then true
      else if st == Read && OthersPercent(s) < s.cfg.low then false
      else OnItsWay(s)
  {
  }

  lemma LoadIsQueue(s: State)
    requires Inv(s)
    ensures |s.filed[2]| - |s.received[2]| == |s.box.queues[OTHERS]| <= s.cfg.q
  {
    assert s.received[OTHERS] + s.box.queues[OTHERS] == s.filed[OTHERS];
  }

  lemma HeldStep(s0: State, steps: seq<Step>, n: nat)
    requires Ready(s0) && n < |steps|
    ensures Held(s0, steps, n + 1) <==>
      if StartsAt(s0, steps, n) then true else if StopsAt(s0, steps, n) then false else Held(s0, steps, n)
  {
    if Held(s0, steps, n + 1) && !StartsAt(s0, steps, n) {
      var i: nat :| i < n + 1 && StartsAt(s0, steps, i)
        && forall j: nat :: i < j < n + 1 ==> !StopsAt(s0, steps, j);
      assert i < n;
    }
    if Held(s0, steps, n) && !StopsAt(s0, steps, n) {
      var i: nat :| i < n && StartsAt(s0, steps, i) && forall j: nat :: i < j < n ==> !StopsAt(s0, steps, j);
      assert forall j: nat :: i < j < n + 1 ==> !StopsAt(s0, steps, j);
    }
  }

  lemma {:induction false} HeldUpTo(s0: State, steps: seq<Step>, n: nat)
    requires Init(s0) && IsRun(s0, steps) && n <= |steps|
    ensures IsRun(s0, steps[..n]) && Inv(Run(s0, steps[..n])) && Places(Run(s0, steps[..n]))
    ensures OnItsWay(Run(s0, steps[..n])) <==> Held(s0, steps, n)
  {
    if n == 0 {
      InvInit(s0);
      assert steps[..0] == [];
    } else {
      HeldUpTo(s0, steps, n - 1);
      RunTo(s0, steps, n - 1);
      InvNext(Run(s0, steps[..n - 1]), steps[n - 1]);
      PlacesNext(Run(s0, steps[..n - 1]), steps[n - 1]);
      HeldNext(s0, steps, n - 1, Run(s0, steps[..n - 1]));
    }
  }

  lemma HeldNext(s0: State, steps: seq<Step>, n: nat, s: State)
    requires Ready(s0) && n < |steps| && IsRun(s0, steps[..n]) && Run(s0, steps[..n]) == s && s.cfg == s0.cfg
    requires Inv(s) && Places(s) && Enabled(s, steps[n])
    requires OnItsWay(s) <==> Held(s0, steps, n)
    ensures OnItsWay(Next(s, steps[n])) <==> Held(s0, steps, n + 1)
  {
    OnItsWayNext(s, steps[n]);
    LoadIsQueue(s);
    PercentMeans(|s.box.queues[OTHERS]|, s.cfg.q, s.cfg.high);
    PercentMeans(|s.box.queues[OTHERS]|, s.cfg.q, s.cfg.low);
    HeldStep(s0, steps, n);
  }

  /** Hysteresis over whole runs, in the frames filed and received: when no store of the flag
      is pending, throttling is on exactly if some start check met a load over the high
      threshold and no stop check after it met one under the low threshold. */
  lemma ThrottlingByLoads(s0: State, steps: seq<Step>)
    requires Init(s0) && IsRun(s0, steps)
    ensures var s := Run(s0, steps);
      && (OnItsWay(s) <==> Held(s0, steps, |steps|))
      && (!s.writer.Setting? && !s.reader.Clearing? ==> (s.throttling <==> Held(s0, steps, |steps|)))
  {
    assert steps[..|steps|] == steps;
    HeldUpTo(s0, steps, |steps|);
  }

  // ----- the checks that are made -----

  function Count(steps: seq<Step>, st: Step): nat
  {
    if steps == [] then 0 else (if steps[0] == st then 1 else 0) + Count(steps[1..], st)
  }

  /** Frames that arrive. */
  function Arrivals(steps: seq<Step>): nat
  {
    if steps == [] then 0 else (if steps[0].Arrive? then 1 else 0) + Arrivals(steps[1..])
  }

  /** Start tests that find a high threshold and throttling off. */
  ghost function TestsOff(s: State, steps: seq<Step>): nat
    requires Ready(s) && IsRun(s, steps)
    decreases |steps|
  {
    if steps == [] then 0
    else (if steps[0] == Test && s.cfg.high > 0 && !s.throttling then 1 else 0)
         + TestsOff(Next(s, steps[0]), steps[1..])
  }

  /** Stop tests that find throttling on. */
  ghost function ChecksOn(s: State, steps: seq<Step>): nat
    requires Ready(s) && IsRun(s, steps)
    decreases |steps|
  {
    if steps == [] then 0
    else (if steps[0] == Check && s.throttling then 1 else 0) + ChecksOn(Next(s, steps[0]), steps[1..])
  }

  function One(b: bool): nat { if b then 1 else 0 }

  predicate Busy(w: Writer) { w.Measuring? || w.Setting? || w.Telling? || w.Filing? }

  function Handled(qs: seq<seq<Frame>>): nat
    requires |qs| == 3
  {
    |qs[0]| + |qs[1]| + |qs[2]|
  }

  lemma TestStep(s: State, st: Step)
    requires Ready(s) && Enabled(s, st)
    ensures One(st == Test) + One(Next(s, st).writer.Testing?) == One(st.Arrive?) + One(s.writer.Testing?)
  {
  }

  lemma MeasureStep(s: State, st: Step)
    requires Ready(s) && Enabled(s, st)
    ensures One(st == Measure) + One(Next(s, st).writer.Measuring?)
         == One(st == Test && s.cfg.high > 0 && !s.throttling) + One(s.writer.Measuring?)
  {
  }

  lemma FileStep(s: State, st: Step)
    requires Ready(s) && Enabled(s, st)
    ensures Handled(Next(s, st).filed) + One(Busy(Next(s, st).writer))
         == Handled(s.filed) + One(st == Test) + One(Busy(s.writer))
  {
  }

  lemma CheckStep(s: State, st: Step)
    requires Ready(s) && Enabled(s, st)
    ensures One(st == Check) + One(Next(s, st).reader.Checking?) + Handled(s.received)
         == Handled(Next(s, st).received) + One(s.reader.Checking?)
  {
  }

  lemma ReadStep(s: State, st: Step)
    requires Ready(s) && Enabled(s, st)
    ensures One(st == Read) + One(Next(s, st).reader.Reading?)
         == One(st == Check && s.throttling) + One(s.reader.Reading?)
  {
  }

  lemma {:induction false} TestCounts(s: State, steps: seq<Step>)
    requires Ready(s) && IsRun(s, steps)
    ensures Count(steps, Test) + One(Run(s, steps).writer.Testing?) == Arrivals(steps) + One(s.writer.Testing?)
    decreases |steps|
  {
    if steps != [] {
      TestStep(s, steps[0]);
      TestCounts(Next(s, steps[0]), steps[1..]);
    }
  }

  lemma {:induction false} MeasureCounts(s: State, steps: seq<Step>)
    requires Ready(s) && IsRun(s, steps)
    ensures Count(steps, Measure) + One(Run(s, steps).writer.Measuring?)
         == TestsOff(s, steps) + One(s.writer.Measuring?)
    decreases |steps|
  {
    if steps != [] {
      MeasureStep(s, steps[0]);
      MeasureCounts(Next(s, steps[0]), steps[1..]);
    }
  }

  lemma {:induction false} FileCounts(s: State, steps: seq<Step>)
    requires Ready(s) && IsRun(s, steps)
    ensures Handled(Run(s, steps).filed) + One(Busy(Run(s, steps).writer))
         == Handled(s.filed) + Count(steps, Test) + One(Busy(s.writer))
    decreases |steps|
  {
    if steps != [] {
      FileStep(s, steps[0]);
      FileCounts(Next(s, steps[0]), steps[1..]);
    }
  }

  lemma {:induction false} CheckCounts(s: State, steps: seq<Step>)
    requires Ready(s) && IsRun(s, steps)
    ensures Count(steps, Check) + One(Run(s, steps).reader.Checking?) + Handled(s.received)
         == Handled(Run(s, steps).received) + One(s.reader.Checking?)
    decreases |steps|
  {
    if steps != [] {
      CheckStep(s, steps[0]);
      CheckCounts(Next(s, steps[0]), steps[1..]);
    }
  }

  lemma {:induction false} ReadCounts(s: State, steps: seq<Step>)
    requires Ready(s) && IsRun(s, steps)
    ensures Count(steps, Read) + One(Run(s, steps).reader.Reading?) == ChecksOn(s, steps) + One(s.reader.Reading?)
    decreases |steps|
  {
    if steps != [] {
      ReadStep(s, steps[0]);
      ReadCounts(Next(s, steps[0]), steps[1..]);
    }
  }

  /** In every run: each frame that arrives is tested once before it is filed, and the load is
      measured exactly for those that find a high threshold and throttling off; each frame
      received is followed by one stop test, and the load is read exactly for those that find
      throttling on. */
  lemma EveryFrameIsChecked(s0: State, steps: seq<Step>)
    requires Init(s0) && IsRun(s0, steps)
    ensures var s := Run(s0, steps);
      && Count(steps, Test) + One(s.writer.Testing?) == Arrivals(steps)
      && Count(steps, Measure) + One(s.writer.Measuring?) == TestsOff(s0, steps)
      && Handled(s.filed) + One(Busy(s.writer)) == Count(steps, Test)
      && Count(steps, Check) + One(s.reader.Checking?) == Handled(s.received)
      && Count(steps, Read) + One(s.reader.Reading?) == ChecksOn(s0, steps)
  {
    TestCounts(s0, steps);
    MeasureCounts(s0, steps);
    FileCounts(s0, steps);
    CheckCounts(s0, steps);
    ReadCounts(s0, steps);
  }

  // ----- which queue -----

  /** Queue 0 holds frames of ESP_SERIAL_IF, which is 3, queue 1 of ESP_HCI_IF, which is 4, and
      queue 2 all others. */
  predicate Sorted(qs: seq<seq<Frame>>)
    requires |qs| == 3
  {
    && (forall i :: 0 <= i < |qs[0]| ==> qs[0][i].ifType == 3)
    && (forall i :: 0 <= i < |qs[1]| ==> qs[1][i].ifType == 4)
    && (forall i :: 0 <= i < |qs[2]| ==> qs[2][i].ifType != 3 && qs[2][i].ifType != 4)
  }

  lemma {:induction false} SortedRun(s: State, steps: seq<Step>)
    requires Ready(s) && Sorted(s.filed) && IsRun(s, steps)
    ensures Sorted(Run(s, steps).filed)
    decreases |steps|
  {
    if steps != [] {
      SortedRun(Next(s, steps[0]), steps[1..]);
    }
  }

  /** In every run each frame is filed by its interface type. */
  lemma FiledByType(s0: State, steps: seq<Step>)
    requires Init(s0) && IsRun(s0, steps)
    ensures Sorted(Run(s0, steps).filed)
  {
    SortedRun(s0, steps);
  }

  /** From the take on: a queue of a class before the one now polled is empty, unless a frame
      of that class was filed since. */
  ghost predicate Passed(s1: State, s: State)
    requires Ready(s1) && Ready(s)
  {
    && (forall d: Class :: |s1.filed[d]| <= |s.filed[d]|)
    && (s.reader.Polling? ==> forall d: Class :: d < s.reader.c && |s.filed[d]| == |s1.filed[d]|
                                ==> s.box.queues[d] == [])
  }

  lemma PassedNext(s1: State, s: State, st: Step)
    requires Ready(s1) && Ready(s) && Enabled(s, st) && Passed(s1, s) && st != Step.Take
    ensures Passed(s1, Next(s, st))
  {
    var t := Next(s, st);
    forall d: Class ensures |s1.filed[d]| <= |t.filed[d]| {
      assert |s1.filed[d]| <= |s.filed[d]|;
    }
    if t.reader.Polling? {
      forall d: Class | d < t.reader.c && |t.filed[d]| == |s1.filed[d]| ensures t.box.queues[d] == [] {
        assert |s1.filed[d]| <= |s.filed[d]| <= |t.filed[d]|;
        assert d < s.reader.c ==> s.box.queues[d] == [];
      }
    }
  }

  lemma {:induction false} PassedRun(s1: State, s: State, steps: seq<Step>)
    requires Ready(s1) && Ready(s) && Passed(s1, s) && IsRun(s, steps) && Step.Take !in steps
    ensures Passed(s1, Run(s, steps))
    decreases |steps|
  {
    if steps != [] {
      PassedNext(s1, s, steps[0]);
      PassedRun(s1, Next(s, steps[0]), steps[1..]);
    }
  }

  /** Serial before Bluetooth before the others: when the reader, since its take, has come to
      the queue of class c, every queue before it is empty but for frames filed since. */
  lemma PolledInOrder(s0: State, pre: seq<Step>, since: seq<Step>, d: Class)
    requires Init(s0) && IsRun(s0, pre) && Enabled(Run(s0, pre), Step.Take)
    requires Step.Take !in since && IsRun(Next(Run(s0, pre), Step.Take), since)
    ensures var s1 := Run(s0, pre); var s := Run(Next(s1, Step.Take), since);
      s.reader.Polling? && d < s.reader.c && s.box.queues[d] != [] ==> |s.filed[d]| > |s1.filed[d]|
  {
    var s1 := Run(s0, pre);
    PassedRun(s1, Next(s1, Step.Take), since);
  }
}
