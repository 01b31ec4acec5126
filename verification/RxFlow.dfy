/** What the host is told about throttling. Both tasks store current_throttling first and
    then give the command: a host interrupt (SDIO), or wifi_flow_ctrl with a trigger, after
    which flow_ctrl_task sends the value last stored (SPI half duplex). The two stores of
    one task can be separated by those of the other. */
module RxFlow {
  import opened Mailbox
  import opened RxPath

  /** How far the latest start has got, and whether a stop has passed it. */
  datatype Watch =
    | Settled      // its command is given, or there was none
    | Started      // current_throttling set, command pending
    | Stopped      // a stop has since cleared current_throttling, its command pending too
    | Overtaken    // that stop's command is given, the start's is pending
    | Late         // the start's command came after all

  function Watched(w: Watch, st: Step): Watch
  {
    match st
    case SetFlag => Started
    case ClearFlag => if w == Started then Stopped else w
    case Untell => if w == Stopped then Overtaken else w
    case Tell => if w == Overtaken then Late else Settled
    case _ => w
  }

  /** The watch after a schedule. */
  function WatchAll(w: Watch, steps: seq<Step>): Watch
    decreases |steps|
  {
    if steps == [] then w else WatchAll(Watched(w, steps[0]), steps[1..])
  }

  predicate Follows(s: State, w: Watch)
  {
    && (s.reader.Reading? || s.reader.Clearing? ==> s.throttling)
    && (s.writer.Measuring? || s.writer.Setting? ==> !s.throttling)
    && (s.cfg.low == 0 ==> !s.reader.Clearing? && !s.reader.Untelling? && (w == Settled || w == Started))
    && match w
       case Settled =>
         && !s.writer.Telling?
         && (!s.throttling && !s.reader.Untelling? ==> !s.told)
         && (s.cfg.low == 0 && s.throttling ==> s.told)
       case Started => s.writer.Telling? && s.throttling
       case Stopped => s.writer.Telling? && !s.throttling && s.reader.Untelling?
       case Overtaken => s.writer.Telling? && !s.throttling && !s.reader.Untelling? && !s.told
       case Late => !s.writer.Telling? && !s.throttling && !s.reader.Untelling? && s.told
  }

  lemma FollowsNext(s: State, st: Step, w: Watch)
    requires RxPath.Ready(s) && Enabled(s, st) && Follows(s, w)
    ensures Follows(Next(s, st), Watched(w, st))
  {
  }

  lemma {:induction false} FollowsRun(s: State, steps: seq<Step>, w: Watch)
    requires RxPath.Ready(s) && IsRun(s, steps) && Follows(s, w)
    ensures Follows(Run(s, steps), WatchAll(w, steps))
    decreases |steps|
  {
    if steps != [] {
      FollowsNext(s, steps[0], w);
      FollowsRun(Next(s, steps[0]), steps[1..], Watched(w, steps[0]));
    }
  }

  /** When all is drained and both tasks rest, the host's last command disagrees with
      current_throttling exactly if a whole stop, both stores of it, came between the two
      stores of the latest start. */
  lemma HostMisledExactly(s0: State, steps: seq<Step>)
    requires Init(s0) && IsRun(s0, steps) && Idle(Run(s0, steps))
    ensures var s := Run(s0, steps); s.told != s.throttling <==> WatchAll(Settled, steps) == Late
  {
    InvInit(s0);
    InvRun(s0, steps);
    FollowsRun(s0, steps, Settled);
  }

  ghost predicate AlwaysTold(cfg: Config)
  {
    forall s0, steps :: Init(s0) && s0.cfg == cfg && IsRun(s0, steps) && Idle(Run(s0, steps))
      ==> Run(s0, steps).told == Run(s0, steps).throttling
  }

  lemma {:induction false} NeverLate(s: State, steps: seq<Step>, w: Watch)
    requires Inv(s) && IsRun(s, steps) && Follows(s, w) && w == Settled
    requires s.cfg.high == 0 || s.cfg.high >= 100
    ensures WatchAll(w, steps) == Settled
    decreases |steps|
  {
    if steps != [] {
      InvNext(s, steps[0]);
      FollowsNext(s, steps[0], w);
      NeverLate(Next(s, steps[0]), steps[1..], Watched(w, steps[0]));
    }
  }

  /** In all runs it agrees exactly if throttling cannot start, or can never stop. */
  lemma AlwaysToldExactly(cfg: Config)
    requires cfg.q >= 1
    ensures AlwaysTold(cfg) <==> cfg.low == 0 || cfg.high == 0 || cfg.high >= 100
  {
    if cfg.low == 0 || cfg.high == 0 || cfg.high >= 100 {
      forall s0, steps | Init(s0) && s0.cfg == cfg && IsRun(s0, steps) && Idle(Run(s0, steps))
        ensures Run(s0, steps).told == Run(s0, steps).throttling
      {
        HostMisledExactly(s0, steps);
        FollowsRun(s0, steps, Settled);
        if cfg.low != 0 {
          InvInit(s0);
          NeverLate(s0, steps, Settled);
        }
      }
    } else {
      var s0, steps := MisledRun(cfg, Frame(0, [0]));
    }
  }

  /** So no configuration that throttles at all has both: throttling that always settles,
      and a host that always hears of it. */
  lemma NoSafeThrottling(cfg: Config)
    requires cfg.q >= 1
    ensures Settles(cfg) && AlwaysTold(cfg) <==> cfg.high == 0 || cfg.high >= 100
  {
    ThrottlingSettlesExactly(cfg);
    AlwaysToldExactly(cfg);
  }

  // ----- the run in which the host stays held back -----

  /** The writer stands between the two stores of a start, with n frames queued. */
  predicate Straddling(s: State, cfg: Config, n: nat, f: Frame)
  {
    && Waiting(s.(writer := NoFrame), cfg, n) && s.writer == Telling(f) && !s.told
  }

  /** Frames arrive until the load starts throttling. */
  lemma {:induction false} FillToStart(s0: State, steps: seq<Step>, s: State, cfg: Config, n: nat, f: Frame)
    returns (steps': seq<Step>, t: State, m: nat)
    requires Reached(s0, steps, s) && Waiting(s, cfg, n) && n <= cfg.q && !s.throttling && !s.told
    requires IsData(f) && cfg.q >= 1 && 0 < cfg.high < 100
    ensures Reached(s0, steps', t) && Straddling(t, cfg, m, f) && t.throttling && 1 <= m <= cfg.q
    decreases cfg.q - n
  {
    steps', t := Go(s0, steps, s, Arrive(f));
    steps', t := Go(s0, steps', t, Test);
    FullIsHundred(cfg.q);
    EmptyIsZero(cfg.q);
    steps', t := Go(s0, steps', t, Measure);
    if t.writer.Setting? {
      steps', t := Go(s0, steps', t, SetFlag);
      m := n;
    } else {
      steps', t := FileOne(s0, steps', t, cfg, n);
      steps', t, m := FillToStart(s0, steps', t, cfg, n + 1, f);
    }
  }

  lemma EmptyIsZero(q: nat)
    requires q >= 1
    ensures LoadPercent(0, q) == 0
  {
    PercentFits(0, q);
  }

  /** The reader takes one of n waiting frames and is about to look at the flag. */
  lemma TakeOne(s0: State, steps: seq<Step>, s: State, cfg: Config, n: nat)
    returns (steps': seq<Step>, t: State)
    requires Reached(s0, steps, s) && Waiting(s.(writer := NoFrame), cfg, n) && n > 0
    ensures Reached(s0, steps', t) && t.reader == Checking && t.writer == s.writer
    ensures Waiting(t.(writer := NoFrame, reader := Resting), cfg, n - 1)
    ensures t.throttling == s.throttling && t.told == s.told
  {
    steps', t := Go(s0, steps, s, Step.Take);
    steps', t := Go(s0, steps', t, Poll);
    steps', t := Go(s0, steps', t, Poll);
    steps', t := Go(s0, steps', t, Poll);
  }

  /** The reader drains until it stops throttling, command and all. */
  lemma {:induction false} DrainToStop(s0: State, steps: seq<Step>, s: State, cfg: Config, n: nat, f: Frame)
    returns (steps': seq<Step>, t: State, m: nat)
    requires Reached(s0, steps, s) && Straddling(s, cfg, n, f) && s.throttling && n >= 1 && cfg.low >= 1
    requires IsData(f) && cfg.q >= 1
    ensures Reached(s0, steps', t) && Straddling(t, cfg, m, f) && !t.throttling && m < n
    decreases n
  {
    EmptyIsZero(cfg.q);
    steps', t := TakeOne(s0, steps, s, cfg, n);
    steps', t := Go(s0, steps', t, Check);
    steps', t := Go(s0, steps', t, Read);
    if t.reader.Clearing? {
      steps', t := Go(s0, steps', t, ClearFlag);
      steps', t := Go(s0, steps', t, Untell);
      m := n - 1;
    } else {
      steps', t, m := DrainToStop(s0, steps', t, cfg, n - 1, f);
    }
  }

  lemma {:induction false} DrainQuietly(s0: State, steps: seq<Step>, s: State, cfg: Config, n: nat)
    returns (steps': seq<Step>, t: State)
    requires Reached(s0, steps, s) && Waiting(s, cfg, n) && !s.throttling
    ensures Reached(s0, steps', t) && Waiting(t, cfg, 0) && !t.throttling && t.told == s.told
    decreases n
  {
    if n == 0 {
      steps', t := steps, s;
    } else {
      steps', t := TakeOne(s0, steps, s, cfg, n);
      steps', t := Go(s0, steps', t, Check);
      steps', t := DrainQuietly(s0, steps', t, cfg, n - 1);
    }
  }

  /** With any data frames: a start is interrupted between its stores; the reader drains and stops throttling; the
      start's command comes last. */
  lemma MisledRun(cfg: Config, f: Frame) returns (s0: State, steps: seq<Step>)
    requires IsData(f) && cfg.q >= 1 && cfg.low >= 1 && 0 < cfg.high < 100
    ensures Init(s0) && s0.cfg == cfg && IsRun(s0, steps) && Idle(Run(s0, steps))
    ensures Run(s0, steps).told && !Run(s0, steps).throttling
  {
    s0 := State(cfg, Empty(cfg.q), false, false, NoFrame, Resting, [[], [], []], [[], [], []]);
    assert Reached(s0, [], s0);
    var s, m;
    steps, s, m := FillToStart(s0, [], s0, cfg, 0, f);
    steps, s, m := DrainToStop(s0, steps, s, cfg, m, f);
    steps, s := Go(s0, steps, s, Tell);
    steps, s := FileOne(s0, steps, s, cfg, m);
    steps, s := DrainQuietly(s0, steps, s, cfg, m + 1);
  }
}
