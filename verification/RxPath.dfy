/** The receive side shared by the SDIO and SPI half-duplex drivers (the UART and SPI
    drivers are the same with throttling off): one rx task files each frame in one of
    three queues and gives a counting semaphore; one reader takes the semaphore and then
    polls the queues one by one. Throttling is tested, measured and set in separate
    steps on both sides. */
module RxPath {
  import opened Transport
  import opened Arithmetic
  import opened Mailbox

  datatype Frame = Frame(ifType: nat, bytes: seq<Byte>)

  const ESP_SERIAL_IF: nat := 3
  const ESP_HCI_IF: nat := 4

  function ClassOf(f: Frame): Class
  {
    if f.ifType == ESP_SERIAL_IF then SERIAL else if f.ifType == ESP_HCI_IF then BT else OTHERS
  }

  /** Queue size and the two thresholds, in percent; the host sets the thresholds. */
  datatype Config = Config(q: nat, high: Byte, low: Byte)

  datatype Writer =
    | NoFrame
    | Testing(f: Frame)     // about to test the high threshold and current_throttling
    | Measuring(f: Frame)   // about to read the queue load
    | Setting(f: Frame)     // the load is over the high threshold
    | Telling(f: Frame)     // current_throttling set, the host not yet told
    | Filing(f: Frame)      // about to enqueue
    | Giving                // enqueued, semaphore not yet given

  datatype Reader =
    | Resting
    | Polling(c: Class)     // semaphore taken, about to poll queue c
    | Failed                // all three polls found nothing
    | Checking              // frame received, about to test current_throttling
    | Reading               // about to read the queue load
    | Clearing              // the load is under the low threshold
    | Untelling             // current_throttling cleared, the host not yet told

  datatype State = State(
    cfg: Config,
    box: Box<Frame>,
    throttling: bool,     // current_throttling
    told: bool,           // the last command for the host: start or stop
    writer: Writer,
    reader: Reader,
    // history, per class
    filed: seq<seq<Frame>>,
    received: seq<seq<Frame>>)

  datatype Step =
    | Arrive(f: Frame) | Test | Measure | SetFlag | Tell | File | Give
    | Take | Poll | Check | Read | ClearFlag | Untell

  predicate Ready(s: State)
  {
    Mailbox.Shaped(s.box) && s.box.size == s.cfg.q && |s.filed| == 3 && |s.received| == 3
  }

  predicate Enabled(s: State, st: Step)
    requires Ready(s)
  {
    match st
    case Arrive(f) => s.writer.NoFrame? && f.bytes != []   // empty frames are dropped
    case Test => s.writer.Testing?
    case Measure => s.writer.Measuring?
    case SetFlag => s.writer.Setting?
    case Tell => s.writer.Telling?
    case File => s.writer.Filing? && |s.box.queues[ClassOf(s.writer.f)]| < s.box.size
    case Give => s.writer.Giving?
    case Take => s.reader.Resting? && s.box.sem > 0
    case Poll => s.reader.Polling?
    case Check => s.reader.Checking?
    case Read => s.reader.Reading?
    case ClearFlag => s.reader.Clearing?
    case Untell => s.reader.Untelling?
  }

  /** load_percent, kept in a uint8_t. */
  function LoadPercent(load: nat, q: nat): Byte
    requires q >= 1
  {
    (load * 100 / q) % 256
  }

  function OthersPercent(s: State): Byte
    requires Ready(s)
  {
    LoadPercent(|s.box.queues[OTHERS]|, s.cfg.q)
  }

  function AddTo(qs: seq<seq<Frame>>, c: Class, f: Frame): seq<seq<Frame>>
    requires |qs| == 3
  {
    qs[c := qs[c] + [f]]
  }

  function Next(s: State, st: Step): State
    requires Ready(s) && Enabled(s, st)
  {
    match st
    case Arrive(f) => s.(writer := Testing(f))
    case Test =>
      var f := s.writer.f;
      s.(writer := if s.cfg.high > 0 && !s.throttling then Measuring(f) else Filing(f))
    case Measure =>
      var f := s.writer.f;
      s.(writer := if OthersPercent(s) > s.cfg.high then Setting(f) else Filing(f))
    case SetFlag => s.(throttling := true, writer := Telling(s.writer.f))
    case Tell => s.(told := true, writer := Filing(s.writer.f))
    case File =>
      var c := ClassOf(s.writer.f);
      s.(box := Put(s.box, c, s.writer.f), filed := AddTo(s.filed, c, s.writer.f), writer := Giving)
    case Give => s.(box := Mailbox.Give(s.box), writer := NoFrame)
    case Take => s.(box := Mailbox.Take(s.box), reader := Polling(SERIAL))
    case Poll =>
      var c := s.reader.c;
      if s.box.queues[c] == [] then s.(reader := if c < OTHERS then Polling(c + 1) else Failed)
      else s.(box := Drop(s.box, c),
              received := AddTo(s.received, c, s.box.queues[c][0]),
              reader := Checking)
    case Check => s.(reader := if s.throttling then Reading else Resting)
    case Read => s.(reader := if OthersPercent(s) < s.cfg.low then Clearing else Resting)
    case ClearFlag => s.(throttling := false, reader := Untelling)
    case Untell => s.(told := false, reader := Resting)
  }

  predicate Init(s: State)
  {
    && Ready(s)
    && s.box == Empty(s.cfg.q) && s.filed == [[], [], []] && s.received == [[], [], []]
    && !s.throttling && !s.told && s.writer == NoFrame && s.reader == Resting
  }

  ghost predicate IsRun(s: State, steps: seq<Step>)
    requires Ready(s)
    decreases |steps|
  {
    steps == [] || (Enabled(s, steps[0]) && IsRun(Next(s, steps[0]), steps[1..]))
  }

  ghost function Run(s: State, steps: seq<Step>): (t: State)
    requires Ready(s) && IsRun(s, steps)
    ensures Ready(t) && t.cfg == s.cfg
    decreases |steps|
  {
    if steps == [] then s else Run(Next(s, steps[0]), steps[1..])
  }

  // ----- the invariant -----

  function Unannounced(w: Writer): nat { if w.Giving? then 1 else 0 }

  function Fetching(r: Reader): Fetch { if r.Polling? then Polls(r.c) else NotFetching }

  ghost predicate Inv(s: State)
  {
    && Ready(s) && Ordered(s)
    && Announced(s)
    && Throttled(s)
  }

  ghost predicate Ordered(s: State)
    requires Ready(s)
  {
    forall c: Class :: s.received[c] + s.box.queues[c] == s.filed[c]
  }

  /** Without a high threshold that a load can exceed, throttling never starts. */
  predicate Throttled(s: State)
  {
    && (s.cfg.high == 0 || s.cfg.high >= 100 ==> !s.throttling && !s.writer.Setting? && !s.writer.Telling?)
    && (s.cfg.high == 0 ==> !s.writer.Measuring?)
  }

  /** Throttling is on only while something is left that will re-examine it. */
  ghost predicate Accounted(s: State)
    requires Ready(s)
  {
    s.throttling ==>
      || Total(s.box) > 0
      || s.writer.Telling? || s.writer.Filing?
      || s.reader.Checking? || s.reader.Reading? || s.reader.Clearing?
  }

  lemma InvInit(s: State)
    requires Init(s)
    ensures Inv(s) && Accounted(s)
  {
  }

  lemma InvNext(s: State, st: Step)
    requires Inv(s) && Enabled(s, st)
    ensures Inv(Next(s, st))
  {
    OrderedNext(s, st);
    AccountsNext(s, st);
    ThrottledNext(s, st);
  }

  lemma OrderedNext(s: State, st: Step)
    requires Ready(s) && Ordered(s) && Enabled(s, st)
    ensures Ordered(Next(s, st))
  {
    var t := Next(s, st);
    if st.Poll? && s.box.queues[s.reader.c] != [] {
      assert s.box.queues[s.reader.c] == [s.box.queues[s.reader.c][0]] + s.box.queues[s.reader.c][1..];
    }
    forall c: Class ensures t.received[c] + t.box.queues[c] == t.filed[c] {
      assert s.received[c] + s.box.queues[c] == s.filed[c];
    }
  }

  /** The accounting, as far as the two tasks' places matter to it. */
  ghost predicate Announced(s: State)
  {
    Accounts(s.box, Unannounced(s.writer), Fetching(s.reader)) && !s.reader.Failed?
  }

  lemma AccountsNext(s: State, st: Step)
    requires Ready(s) && Enabled(s, st) && Announced(s)
    ensures Announced(Next(s, st))
  {
    match st {
      case File => AccountsFile(s);
      case Give => GiveKeeps(s.box, 1, Fetching(s.reader));
      case Take => TakeKeeps(s.box, Unannounced(s.writer));
      case Poll => PollKeeps(s.box, Unannounced(s.writer), s.reader.c);
      case _ => AccountsFrame(s, Next(s, st));
    }
  }

  lemma AccountsFile(s: State)
    requires Ready(s) && Enabled(s, File) && Announced(s)
    ensures Announced(Next(s, File))
  {
    PutKeeps(s.box, 0, Fetching(s.reader), ClassOf(s.writer.f), s.writer.f);
  }

  lemma AccountsFrame(s: State, t: State)
    requires Announced(s) && t.box == s.box && Unannounced(t.writer) == Unannounced(s.writer)
    requires Fetching(t.reader) == Fetching(s.reader) && !t.reader.Failed?
    ensures Announced(t)
  {
  }

  /** The load is at most 100 percent, so the uint8_t holds it without truncation. */
  lemma PercentFits(load: nat, q: nat)
    requires q >= 1 && load <= q
    ensures LoadPercent(load, q) == load * 100 / q <= 100
  {
    var z := load * 100 / q;
    if z > 100 {
      MulGrows(q, 100, z);
    }
  }

  lemma ThrottledNext(s: State, st: Step)
    requires Ready(s) && Enabled(s, st) && Throttled(s)
    requires |s.box.queues[OTHERS]| <= s.cfg.q
    ensures Throttled(Next(s, st))
  {
    PercentFits(|s.box.queues[OTHERS]|, s.cfg.q);
  }

  lemma AccountedNext(s: State, st: Step)
    requires Inv(s) && Enabled(s, st) && s.cfg.low >= 1 && Accounted(s)
    ensures Accounted(Next(s, st))
  {
  }

  lemma {:induction false} InvRun(s: State, steps: seq<Step>)
    requires Inv(s) && IsRun(s, steps)
    ensures Inv(Run(s, steps))
    ensures s.cfg.low >= 1 && Accounted(s) ==> Accounted(Run(s, steps))
    decreases |steps|
  {
    if steps != [] {
      InvNext(s, steps[0]);
      if s.cfg.low >= 1 && Accounted(s) {
        AccountedNext(s, steps[0]);
      }
      InvRun(Next(s, steps[0]), steps[1..]);
    }
  }

  // ----- what holds in every interleaving -----

  /** The semaphore count is the number of filed frames nobody is announcing or fetching;
      so giving never saturates it, the reader always finds a frame although its three
      polls are separate steps, and a reader at rest with an idle writer and a zero count
      has left nothing behind. */
  lemma SemaphoreTracksQueues(s0: State, steps: seq<Step>)
    requires Init(s0) && IsRun(s0, steps)
    ensures var s := Run(s0, steps);
      && Total(s.box) == s.box.sem + Unannounced(s.writer) + (if s.reader.Polling? then 1 else 0)
      && (s.writer.Giving? ==> s.box.sem < 3 * s.cfg.q && Next(s, Step.Give).box.sem == s.box.sem + 1)
      && !s.reader.Failed?
      && (s.reader == Polling(OTHERS) ==> Next(s, Poll).reader == Checking)
      && (s.box.sem == 0 && s.writer.NoFrame? && s.reader.Resting? ==> Total(s.box) == 0)
  {
    InvInit(s0);
    InvRun(s0, steps);
  }

  /** Each class reaches the reader in the order filed, every frame once. */
  lemma ReceivedInOrder(s0: State, steps: seq<Step>)
    requires Init(s0) && IsRun(s0, steps)
    ensures var s := Run(s0, steps); forall c: Class :: s.received[c] + s.box.queues[c] == s.filed[c]
  {
    InvInit(s0);
    InvRun(s0, steps);
  }

  /** All frames drained and both tasks at rest. */
  predicate Idle(s: State)
    requires Ready(s)
  {
    s.writer.NoFrame? && s.reader.Resting? && Total(s.box) == 0
  }

  /** Throttling never outlives the traffic that caused it. */
  ghost predicate Settles(cfg: Config)
  {
    forall s0, steps :: Init(s0) && s0.cfg == cfg && IsRun(s0, steps) && Idle(Run(s0, steps))
      ==> !Run(s0, steps).throttling
  }

  /** It does so for exactly the configurations with a non-zero low threshold, or with a
      high threshold no load can exceed. */
  lemma ThrottlingSettlesExactly(cfg: Config)
    requires cfg.q >= 1
    ensures Settles(cfg) <==> cfg.low >= 1 || cfg.high == 0 || cfg.high >= 100
  {
    if cfg.low >= 1 || cfg.high == 0 || cfg.high >= 100 {
      forall s0, steps | Init(s0) && s0.cfg == cfg && IsRun(s0, steps) && Idle(Run(s0, steps))
        ensures !Run(s0, steps).throttling
      {
        InvInit(s0);
        InvRun(s0, steps);
      }
    } else {
      var s0, steps := StuckRun(cfg, Frame(0, [0]));
    }
  }

  // ----- the run in which throttling sticks -----

  lemma {:induction false} RunConcat(s: State, a: seq<Step>, b: seq<Step>)
    requires Ready(s) && IsRun(s, a) && IsRun(Run(s, a), b)
    ensures IsRun(s, a + b) && Run(s, a + b) == Run(Run(s, a), b)
    decreases |a|
  {
    if a == [] {
      assert a + b == b;
    } else {
      RunConcat(Next(s, a[0]), a[1..], b);
      assert (a + b)[1..] == a[1..] + b;
    }
  }

  /** t is reached from s0 by steps. */
  ghost predicate Reached(s0: State, steps: seq<Step>, t: State)
  {
    Init(s0) && IsRun(s0, steps) && Run(s0, steps) == t
  }

  lemma Go(s0: State, steps: seq<Step>, s: State, st: Step) returns (steps': seq<Step>, t: State)
    requires Reached(s0, steps, s) && Enabled(s, st)
    ensures Reached(s0, steps', t) && t == Next(s, st)
  {
    RunConcat(s0, steps, [st]);
    steps', t := steps + [st], Next(s, st);
  }

  /** A frame for the OTHERS queue. */
  predicate IsData(f: Frame) { ClassOf(f) == OTHERS && f.bytes != [] }

  /** Both tasks at rest with n frames waiting in the OTHERS queue and none elsewhere. */
  predicate Waiting(s: State, cfg: Config, n: nat)
  {
    && Ready(s) && s.cfg == cfg && s.writer.NoFrame? && s.reader.Resting?
    && s.box.sem == n && |s.box.queues[OTHERS]| == n
    && s.box.queues[SERIAL] == [] && s.box.queues[BT] == []
  }

  /** A frame arrives and passes the start check; a load over the high threshold leaves
      throttling on. */
  lemma StartCheck(s0: State, steps: seq<Step>, s: State, cfg: Config, n: nat, f: Frame)
    returns (steps': seq<Step>, t: State)
    requires IsData(f) && Reached(s0, steps, s) && Waiting(s, cfg, n) && n <= cfg.q
    ensures Reached(s0, steps', t) && t.writer.Filing? && ClassOf(t.writer.f) == OTHERS
    ensures Waiting(t.(writer := NoFrame), cfg, n)
    ensures s.throttling || (0 < cfg.high < 100 && n == cfg.q) ==> t.throttling
  {
    steps', t := Go(s0, steps, s, Arrive(f));
    steps', t := Go(s0, steps', t, Test);
    if t.writer.Measuring? {
      steps', t := MeasureLoad(s0, steps', t, cfg, n, f);
    }
  }

  lemma FullIsHundred(q: nat)
    requires q >= 1
    ensures LoadPercent(q, q) == 100
  {
    QuotientIsUnique(q, q * 100, 100, 0);
  }

  lemma MeasureLoad(s0: State, steps: seq<Step>, s: State, cfg: Config, n: nat, f: Frame)
    returns (steps': seq<Step>, t: State)
    requires Reached(s0, steps, s) && s.writer == Measuring(f)
    requires Waiting(s.(writer := NoFrame), cfg, n) && n <= cfg.q
    ensures Reached(s0, steps', t) && t.writer == Filing(f)
    ensures Waiting(t.(writer := NoFrame), cfg, n)
    ensures s.throttling || (0 < cfg.high < 100 && n == cfg.q) ==> t.throttling
  {
    FullIsHundred(cfg.q);
    assert n == cfg.q ==> OthersPercent(s) == 100;
    steps', t := Go(s0, steps, s, Measure);
    if t.writer.Setting? {
      steps', t := Go(s0, steps', t, SetFlag);
      steps', t := Go(s0, steps', t, Tell);
    }
  }

  /** The reader fetches one OTHERS frame; with a zero low threshold it never clears. */
  lemma FetchOne(s0: State, steps: seq<Step>, s: State, cfg: Config, n: nat)
    returns (steps': seq<Step>, t: State)
    requires Reached(s0, steps, s) && Waiting(s.(writer := NoFrame), cfg, n) && n > 0
    requires s.throttling && cfg.low == 0
    ensures Reached(s0, steps', t) && t.throttling && t.writer == s.writer
    ensures Waiting(t.(writer := NoFrame), cfg, n - 1)
  {
    steps', t := Go(s0, steps, s, Step.Take);
    steps', t := Go(s0, steps', t, Poll);
    steps', t := Go(s0, steps', t, Poll);
    steps', t := Go(s0, steps', t, Poll);
    steps', t := Go(s0, steps', t, Check);
    steps', t := Go(s0, steps', t, Read);
  }

  lemma FileOne(s0: State, steps: seq<Step>, s: State, cfg: Config, n: nat)
    returns (steps': seq<Step>, t: State)
    requires Reached(s0, steps, s) && s.writer.Filing? && ClassOf(s.writer.f) == OTHERS
    requires Waiting(s.(writer := NoFrame), cfg, n) && n < cfg.q
    ensures Reached(s0, steps', t) && Waiting(t, cfg, n + 1)
    ensures t.throttling == s.throttling && t.told == s.told
  {
    steps', t := Go(s0, steps, s, File);
    steps', t := Go(s0, steps', t, Step.Give);
  }

  lemma {:induction false} FillQueue(s0: State, cfg: Config, n: nat, f: Frame)
    returns (steps: seq<Step>, t: State)
    requires IsData(f) && Init(s0) && s0.cfg == cfg && n <= cfg.q
    ensures Reached(s0, steps, t) && Waiting(t, cfg, n)
  {
    if n == 0 {
      steps, t := [], s0;
    } else {
      steps, t := FillQueue(s0, cfg, n - 1, f);
      steps, t := StartCheck(s0, steps, t, cfg, n - 1, f);
      steps, t := FileOne(s0, steps, t, cfg, n - 1);
    }
  }

  lemma {:induction false} DrainQueue(s0: State, steps: seq<Step>, s: State, cfg: Config, n: nat)
    returns (steps': seq<Step>, t: State)
    requires Reached(s0, steps, s) && Waiting(s, cfg, n) && s.throttling && cfg.low == 0
    ensures Reached(s0, steps', t) && Waiting(t, cfg, 0) && t.throttling
    decreases n
  {
    if n == 0 {
      steps', t := steps, s;
    } else {
      steps', t := FetchOne(s0, steps, s, cfg, n);
      steps', t := DrainQueue(s0, steps', t, cfg, n - 1);
    }
  }

  /** With any data frame: fill the OTHERS queue; one more frame turns throttling on; drain everything. */
  lemma StuckRun(cfg: Config, f: Frame) returns (s0: State, steps: seq<Step>)
    requires IsData(f) && cfg.q >= 1 && cfg.low == 0 && 0 < cfg.high < 100
    ensures Init(s0) && s0.cfg == cfg && IsRun(s0, steps)
    ensures Idle(Run(s0, steps)) && Run(s0, steps).throttling
  {
    s0 := State(cfg, Empty(cfg.q), false, false, NoFrame, Resting, [[], [], []], [[], [], []]);
    var t;
    steps, t := FillQueue(s0, cfg, cfg.q, f);
    steps, t := StartCheck(s0, steps, t, cfg, cfg.q, f);
    steps, t := FetchOne(s0, steps, t, cfg, cfg.q);
    steps, t := FileOne(s0, steps, t, cfg, cfg.q - 1);
    steps, t := DrainQueue(s0, steps, t, cfg, cfg.q);
  }
}
