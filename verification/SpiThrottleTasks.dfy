/** The SPI throttle command when several tasks write headers: each samples the queue
    length, compares it with the thresholds and reads the flag back in separate steps. */
module SpiThrottleTasks {
  import opened Transport
  import RxPath
  import RxSchedule

  /** A task inside find_wifi_tx_throttling_to_be_set. */
  datatype Caller =
    | Away
    | Sampled(load: Byte)   // about to compare with the high threshold
    | Tested(load: Byte)    // about to compare with the low threshold
    | Deciding              // about to read the flag into its header

  datatype State = State(
    cfg: RxPath.Config,
    waiting: nat,           // length of the OTHERS queue
    flag: bool,             // current_throttling
    callers: seq<Caller>,
    told: bool,             // the command in the last header written
    // history
    marks: set<nat>,        // calls that found the queue empty, with nothing queued since
    drained: bool)          // such a call has written its header, with nothing queued since

  datatype Step = Load(n: nat) | Sample(i: nat) | TestHigh(i: nat) | TestLow(i: nat) | Return(i: nat)

  predicate Shaped(s: State) { s.cfg.q >= 1 && s.waiting <= s.cfg.q }

  predicate Enabled(s: State, st: Step)
  {
    match st
    case Load(n) => n <= s.cfg.q
    case Sample(i) => i < |s.callers| && s.callers[i].Away?
    case TestHigh(i) => i < |s.callers| && s.callers[i].Sampled?
    case TestLow(i) => i < |s.callers| && s.callers[i].Tested?
    case Return(i) => i < |s.callers| && s.callers[i].Deciding?
  }

  function Next(s: State, st: Step): State
    requires Shaped(s) && Enabled(s, st)
  {
    match st
    case Load(n) =>
      if n == 0 then s.(waiting := 0) else s.(waiting := n, marks := {}, drained := false)
    case Sample(i) =>
      if s.cfg.high == 0 then s.(told := false, drained := s.waiting == 0)
      else s.(callers := s.callers[i := Sampled(RxPath.LoadPercent(s.waiting, s.cfg.q))],
              marks := if s.waiting == 0 then s.marks + {i} else s.marks - {i})
    case TestHigh(i) =>
      var load := s.callers[i].load;
      s.(callers := s.callers[i := Tested(load)], flag := s.flag || load > s.cfg.high)
    case TestLow(i) =>
      s.(callers := s.callers[i := Deciding], flag := s.flag && s.callers[i].load >= s.cfg.low)
    case Return(i) =>
      s.(callers := s.callers[i := Away], told := s.flag,
         drained := s.drained || i in s.marks, marks := s.marks - {i})
  }

  predicate AllAway(s: State) { forall i :: 0 <= i < |s.callers| ==> s.callers[i].Away? }

  predicate Init(s: State)
  {
    Shaped(s) && s.waiting == 0 && !s.flag && AllAway(s) && !s.told && s.marks == {} && !s.drained
  }

  ghost predicate IsRun(s: State, steps: seq<Step>)
    requires Shaped(s)
    decreases |steps|
  {
    steps == [] || (Enabled(s, steps[0]) && IsRun(Next(s, steps[0]), steps[1..]))
  }

  ghost function Run(s: State, steps: seq<Step>): (t: State)
    requires Shaped(s) && IsRun(s, steps)
    ensures Shaped(t) && t.cfg == s.cfg && |t.callers| == |s.callers|
    decreases |steps|
  {
    if steps == [] then s else Run(Next(s, steps[0]), steps[1..])
  }

  /** Once a header has been written on finding the queue empty, and nothing was queued since,
      then with no call under way the last command is to go on. */
  predicate Released(s: State) { AllAway(s) && s.drained ==> !s.told }

  ghost predicate AlwaysReleased(cfg: RxPath.Config, callers: nat)
  {
    forall s0, steps :: Init(s0) && s0.cfg == cfg && |s0.callers| == callers && IsRun(s0, steps)
      ==> Released(Run(s0, steps))
  }

  /** It is so in all runs exactly if nobody calls, or throttling cannot start, or no load can
      keep it on, or only one task calls and the low threshold is at least 1. */
  predicate Safe(cfg: RxPath.Config, callers: nat)
  {
    callers == 0 || cfg.high == 0 || cfg.high >= 100 || cfg.low > 100 || (callers == 1 && cfg.low >= 1)
  }

  lemma ReleasedExactly(cfg: RxPath.Config, callers: nat)
    requires cfg.q >= 1
    ensures AlwaysReleased(cfg, callers) <==> Safe(cfg, callers)
  {
    if Safe(cfg, callers) {
      forall s0, steps | Init(s0) && s0.cfg == cfg && |s0.callers| == callers && IsRun(s0, steps)
        ensures Released(Run(s0, steps))
      {
        KeepsRun(s0, steps);
      }
    } else if cfg.low == 0 {
      var s0, steps := NeverClears(cfg, callers);
    } else {
      var s0, steps := LateStore(cfg, callers);
    }
  }

  // ----- the safe systems -----

  /** Every sample is a percentage. */
  predicate Percents(s: State)
  {
    forall i :: 0 <= i < |s.callers| ==> PercentAt(s.callers[i])
  }

  predicate PercentAt(c: Caller) { c.Sampled? || c.Tested? ==> c.load <= 100 }

  /** With a high threshold no load exceeds, or none at all, nothing is ever throttled. */
  predicate NeverOn(s: State)
  {
    (s.cfg.high == 0 || s.cfg.high >= 100 ==> !s.flag && !s.told)
    && (s.cfg.high == 0 ==> AllAway(s))
  }

  /** With a low threshold above every load, a set flag is about to be cleared again. */
  ghost predicate SoonOff(s: State)
  {
    s.cfg.low > 100 ==>
      && (s.flag ==> exists i :: 0 <= i < |s.callers| && s.callers[i].Tested?)
      && (s.told ==> exists i :: 0 <= i < |s.callers| && !s.callers[i].Away?)
  }

  /** A single caller that found the queue empty clears the flag itself. */
  predicate OneCaller(s: State)
  {
    |s.callers| == 1 && s.cfg.low >= 1 && s.cfg.high > 0 ==>
      && (s.marks != {} || s.drained ==> s.waiting == 0)
      && s.marks <= {0}
      && (0 in s.marks ==> MarkedAt(s.callers[0], s.flag))
      && (s.drained ==> !s.told && (s.callers[0].Away? || 0 in s.marks))
  }

  predicate MarkedAt(c: Caller, flag: bool)
  {
    match c
    case Away => false
    case Sampled(load) => load == 0
    case Tested(load) => load == 0
    case Deciding => !flag
  }

  ghost predicate Keeps(s: State)
  {
    && Shaped(s) && Percents(s) && NeverOn(s) && SoonOff(s) && OneCaller(s)
    && (|s.callers| == 0 && s.cfg.high > 0 ==> !s.told)
  }

  lemma PercentsNext(s: State, st: Step)
    requires Shaped(s) && Percents(s) && Enabled(s, st)
    ensures Percents(Next(s, st))
  {
    RxPath.PercentFits(s.waiting, s.cfg.q);
    forall i | 0 <= i < |s.callers| ensures PercentAt(Next(s, st).callers[i]) {
      assert PercentAt(s.callers[i]);
    }
  }

  lemma NeverOnNext(s: State, st: Step)
    requires Shaped(s) && Percents(s) && NeverOn(s) && Enabled(s, st)
    ensures NeverOn(Next(s, st))
  {
    if st.TestHigh? {
      assert PercentAt(s.callers[st.i]);
    }
  }

  lemma SoonOffNext(s: State, st: Step)
    requires Shaped(s) && Percents(s) && SoonOff(s) && Enabled(s, st)
    ensures SoonOff(Next(s, st))
  {
    var t := Next(s, st);
    match st {
      case Load(_) =>
      case Sample(i) => SoonOffFrame(s, t, i);
      case TestHigh(i) =>
        assert t.callers[i].Tested?;
      case TestLow(i) =>
        assert PercentAt(s.callers[i]);
        assert t.callers[i].Deciding?;
      case Return(i) => SoonOffFrame(s, t, i);
    }
  }

  /** A caller that is not in its last comparison moves on. */
  lemma SoonOffFrame(s: State, t: State, i: nat)
    requires SoonOff(s) && i < |s.callers| == |t.callers| && t.cfg == s.cfg && t.flag == s.flag
    requires !s.callers[i].Tested? && forall j :: 0 <= j < |s.callers| && j != i ==> t.callers[j] == s.callers[j]
    requires t.told ==> s.flag || (s.told && (t.callers[i] == s.callers[i] || !t.callers[i].Away?))
    ensures SoonOff(t)
  {
    if s.cfg.low > 100 {
      if s.flag {
        var j :| 0 <= j < |s.callers| && s.callers[j].Tested?;
        assert t.callers[j].Tested? && !t.callers[j].Away?;
      } else if t.told {
        var j :| 0 <= j < |s.callers| && !s.callers[j].Away?;
        assert j != i ==> !t.callers[j].Away?;
        assert !t.callers[i].Away? || !t.callers[j].Away?;
      }
    }
  }

  lemma OneCallerNext(s: State, st: Step)
    requires Shaped(s) && OneCaller(s) && Enabled(s, st)
    ensures OneCaller(Next(s, st))
  {
    EmptyIsZero(s.cfg.q);
  }

  lemma EmptyIsZero(q: nat)
    requires q >= 1
    ensures RxPath.LoadPercent(0, q) == 0
  {
    RxPath.PercentFits(0, q);
  }

  lemma KeepsNext(s: State, st: Step)
    requires Keeps(s) && Enabled(s, st)
    ensures Keeps(Next(s, st))
  {
    PercentsNext(s, st);
    NeverOnNext(s, st);
    SoonOffNext(s, st);
    OneCallerNext(s, st);
  }

  lemma {:induction false} KeepsAll(s: State, steps: seq<Step>)
    requires Keeps(s) && IsRun(s, steps)
    ensures Keeps(Run(s, steps))
    decreases |steps|
  {
    if steps != [] {
      KeepsNext(s, steps[0]);
      KeepsAll(Next(s, steps[0]), steps[1..]);
    }
  }

  lemma KeepsRun(s0: State, steps: seq<Step>)
    requires Init(s0) && IsRun(s0, steps) && Safe(s0.cfg, |s0.callers|)
    ensures Released(Run(s0, steps))
  {
    KeepsAll(s0, steps);
  }

  // ----- a call on its own -----

  /** A call that no other step interrupts: a load under the low threshold, in percent with
      fractions cut off, clears the flag, one over the high threshold sets it, any other
      leaves it; the header says what the flag then says. */
  lemma SoloCall(s: State, i: nat)
    requires Shaped(s) && s.cfg.high > 0 && i < |s.callers| && s.callers[i].Away?
    ensures IsRun(s, Call(i))
    ensures var t := Run(s, Call(i));
      && t.callers == s.callers && t.waiting == s.waiting && t.told == t.flag
      && t.flag == if 100 * s.waiting < s.cfg.q * s.cfg.low then false
                   else if 100 * s.waiting >= s.cfg.q * (s.cfg.high + 1) then true
                   else s.flag
  {
    RxSchedule.PercentMeans(s.waiting, s.cfg.q, s.cfg.high);
    RxSchedule.PercentMeans(s.waiting, s.cfg.q, s.cfg.low);
    var s1, s2, s3, s4 := CallStates(s, i);
    CallRuns(s, i, s1, s2, s3, s4);
  }

  lemma CallStates(s: State, i: nat) returns (s1: State, s2: State, s3: State, s4: State)
    requires Shaped(s) && s.cfg.high > 0 && i < |s.callers| && s.callers[i].Away?
    ensures Enabled(s, Sample(i)) && s1 == Next(s, Sample(i))
    ensures Shaped(s1) && Enabled(s1, TestHigh(i)) && s2 == Next(s1, TestHigh(i))
    ensures Shaped(s2) && Enabled(s2, TestLow(i)) && s3 == Next(s2, TestLow(i))
    ensures Shaped(s3) && Enabled(s3, Return(i)) && s4 == Next(s3, Return(i))
    ensures var p := RxPath.LoadPercent(s.waiting, s.cfg.q);
      && s4.callers == s.callers && s4.waiting == s.waiting && s4.told == s4.flag
      && s4.flag == ((s.flag || p > s.cfg.high) && p >= s.cfg.low)
  {
    s1 := Next(s, Sample(i));
    s2 := Next(s1, TestHigh(i));
    s3 := Next(s2, TestLow(i));
    s4 := Next(s3, Return(i));
    assert s4.callers == s.callers;
  }

  function Call(i: nat): seq<Step> { [Sample(i), TestHigh(i), TestLow(i), Return(i)] }

  lemma CallRuns(s: State, i: nat, s1: State, s2: State, s3: State, s4: State)
    requires Shaped(s) && Enabled(s, Sample(i)) && s1 == Next(s, Sample(i))
    requires Shaped(s1) && Enabled(s1, TestHigh(i)) && s2 == Next(s1, TestHigh(i))
    requires Shaped(s2) && Enabled(s2, TestLow(i)) && s3 == Next(s2, TestLow(i))
    requires Shaped(s3) && Enabled(s3, Return(i)) && s4 == Next(s3, Return(i))
    ensures IsRun(s, Call(i)) && Run(s, Call(i)) == s4
  {
    var c := Call(i);
    assert c[1..] == [TestHigh(i), TestLow(i), Return(i)];
    assert c[1..][1..] == [TestLow(i), Return(i)];
    assert c[1..][1..][1..] == [Return(i)];
    assert IsRun(s4, []) && Run(s4, []) == s4;
    assert IsRun(s3, [Return(i)]) && Run(s3, [Return(i)]) == s4;
    assert IsRun(s2, c[1..][1..]) && Run(s2, c[1..][1..]) == s4;
    assert IsRun(s1, c[1..]) && Run(s1, c[1..]) == s4;
  }

  // ----- the runs in which the host stays held back -----

  lemma {:induction false} RunExtend(s: State, steps: seq<Step>, st: Step)
    requires Shaped(s) && IsRun(s, steps) && Enabled(Run(s, steps), st)
    ensures IsRun(s, steps + [st]) && Run(s, steps + [st]) == Next(Run(s, steps), st)
    decreases |steps|
  {
    if steps == [] {
      assert IsRun(Next(s, st), []);
    } else {
      RunExtend(Next(s, steps[0]), steps[1..], st);
      assert (steps + [st])[1..] == steps[1..] + [st];
    }
  }

  ghost predicate Reached(s0: State, steps: seq<Step>, t: State)
  {
    Init(s0) && IsRun(s0, steps) && Run(s0, steps) == t && Shaped(t)
  }

  lemma Go(s0: State, steps: seq<Step>, s: State, st: Step) returns (steps': seq<Step>, t: State)
    requires Reached(s0, steps, s) && Enabled(s, st)
    ensures Reached(s0, steps', t) && t == Next(s, st)
  {
    RunExtend(s0, steps, st);
    steps', t := steps + [st], Next(s, st);
  }

  lemma Start(cfg: RxPath.Config, callers: nat) returns (s0: State)
    requires cfg.q >= 1
    ensures Init(s0) && s0.cfg == cfg && |s0.callers| == callers && Reached(s0, [], s0)
  {
    s0 := State(cfg, 0, false, seq(callers, _ => Away), false, {}, false);
  }

  /** Task i samples a full queue, which then drains. */
  lemma SamplesFull(s0: State, i: nat) returns (steps: seq<Step>, s: State)
    requires Reached(s0, [], s0) && i < |s0.callers| && s0.cfg.high > 0
    ensures Reached(s0, steps, s)
    ensures s == s0.(callers := s0.callers[i := Sampled(100)])
  {
    RxPath.FullIsHundred(s0.cfg.q);
    steps, s := Go(s0, [], s0, Load(s0.cfg.q));
    steps, s := Go(s0, steps, s, Sample(i));
    steps, s := Go(s0, steps, s, Load(0));
    assert s.marks == {};
  }

  /** Task i carries a sample through to its header. */
  lemma Finishes(s0: State, steps: seq<Step>, s: State, i: nat) returns (steps': seq<Step>, t: State)
    requires Reached(s0, steps, s) && i < |s.callers| && s.callers[i].Sampled?
    ensures Reached(s0, steps', t)
    ensures var load := s.callers[i].load; var on := (s.flag || load > s.cfg.high) && load >= s.cfg.low;
      && t.flag == on && t.told == on && t.waiting == s.waiting && t.cfg == s.cfg
      && t.callers == s.callers[i := Away] && t.drained == (s.drained || i in s.marks)
      && t.marks == s.marks - {i}
  {
    steps', t := Go(s0, steps, s, TestHigh(i));
    steps', t := Go(s0, steps', t, TestLow(i));
    steps', t := Go(s0, steps', t, Return(i));
    assert t.callers == s.callers[i := Away];
  }

  /** Without a low threshold one task is enough. */
  lemma NeverClears(cfg: RxPath.Config, callers: nat) returns (s0: State, steps: seq<Step>)
    requires cfg.q >= 1 && callers >= 1 && 0 < cfg.high < 100 && cfg.low == 0
    ensures Init(s0) && s0.cfg == cfg && |s0.callers| == callers && IsRun(s0, steps)
    ensures !Released(Run(s0, steps))
  {
    s0 := Start(cfg, callers);
    EmptyIsZero(cfg.q);
    var s;
    steps, s := SamplesFull(s0, 0);
    steps, s := Finishes(s0, steps, s, 0);
    steps, s := Go(s0, steps, s, Sample(0));
    steps, s := Finishes(s0, steps, s, 0);
    assert AllAway(s);
  }

  /** One task samples a full queue; it drains; another task finds it empty and writes its
      header; only then does the first one set the flag and write its own. */
  lemma LateStore(cfg: RxPath.Config, callers: nat) returns (s0: State, steps: seq<Step>)
    requires cfg.q >= 1 && callers >= 2 && 0 < cfg.high < 100 && 1 <= cfg.low <= 100
    ensures Init(s0) && s0.cfg == cfg && |s0.callers| == callers && IsRun(s0, steps)
    ensures !Released(Run(s0, steps))
  {
    s0 := Start(cfg, callers);
    EmptyIsZero(cfg.q);
    var s;
    steps, s := SamplesFull(s0, 0);
    steps, s := Go(s0, steps, s, Sample(1));
    steps, s := Finishes(s0, steps, s, 1);
    steps, s := Finishes(s0, steps, s, 0);
    assert AllAway(s);
  }
}
