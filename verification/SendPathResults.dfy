/** What the send path guarantees over whole runs, for any number of producers and
    every interleaving. */
module SendPathResults {
  import opened Transport
  import opened SendPath
  import opened SendPathProof

  /** In every interleaving a token in the meta queue or in send_task's hands stands
      for one buffer in its data queue; so the data receive never blocks, and a
      token push never meets a full meta queue. */
  lemma TokensMatchBuffers(s0: State, steps: seq<Step>)
    requires Init(s0) && IsRun(s0, steps)
    ensures var s := Run(s0, steps);
      && |s.queues| == 3
      && (forall c: Class ::
            && |s.queues[c]| <= s.n
            && |s.queues[c]| == multiset(s.meta)[c] + Pending(s.producers, c) + Held(s.consumer, c))
      && (s.consumer.HasToken? ==> Enabled(s, TakeData))
      && (forall p :: 0 <= p < |s.producers| && s.producers[p].Between? ==> Enabled(s, PushToken(p)))
  {
    InvInit(s0);
    InvRun(s0, steps);
    TokensMatch(Run(s0, steps));
  }

  lemma TokensMatch(s: State)
    requires Shaped(s) && Counted(s)
    ensures forall c: Class ::
            && |s.queues[c]| <= s.n
            && |s.queues[c]| == multiset(s.meta)[c] + Pending(s.producers, c) + Held(s.consumer, c)
    ensures s.consumer.HasToken? ==> Enabled(s, TakeData)
    ensures forall p :: 0 <= p < |s.producers| && s.producers[p].Between? ==> Enabled(s, PushToken(p))
  {
    CountsFit(s);
  }

  lemma CountsFit(s: State)
    requires Shaped(s) && Counted(s)
    ensures forall c: Class ::
            && |s.queues[c]| <= s.n
            && |s.queues[c]| == multiset(s.meta)[c] + Pending(s.producers, c) + Held(s.consumer, c)
    ensures s.consumer.HasToken? ==> s.queues[s.consumer.cls] != []
    ensures forall p :: 0 <= p < |s.producers| && s.producers[p].Between? ==> |s.meta| < 3 * s.n
  {
    forall c: Class
      ensures |s.queues[c]| <= s.n
      ensures |s.queues[c]| == multiset(s.meta)[c] + Pending(s.producers, c) + Held(s.consumer, c)
    {
      assert CountedAt(s, c);
    }
    TokensSum(s.meta);
    forall p | 0 <= p < |s.producers| && s.producers[p].Between? ensures |s.meta| < 3 * s.n {
      PendingUpdate(s.producers, p, Idle, s.producers[p].cls);
    }
  }

  /** In every interleaving each class is handled in the order pushed, nothing lost or
      repeated; while the data path was never closed, everything handled was written. */
  lemma DeliveredInOrder(s0: State, steps: seq<Step>)
    requires Init(s0) && IsRun(s0, steps)
    ensures var s := Run(s0, steps);
      && |s.queues| == 3 && |s.pushed| == 3 && |s.handled| == 3
      && (forall c: Class :: s.handled[c] + InHand(s.consumer, c) + s.queues[c] == s.pushed[c])
      && (!s.everClosed ==> s.written == s.handled)
  {
    InvInit(s0);
    InvRun(s0, steps);
    var s := Run(s0, steps);
    forall c: Class ensures s.handled[c] + InHand(s.consumer, c) + s.queues[c] == s.pushed[c] {
      assert FifoAt(s, c);
    }
  }

  /** Serial tokens come first; and when send_task takes a token of another class, as many
      serial buffers are left as there are serial producers between their two pushes. They
      need not be the buffers of those producers: see module SendOrder. */
  lemma SerialOvertakes(s0: State, steps: seq<Step>)
    requires Init(s0) && IsRun(s0, steps)
    ensures var s := Run(s0, steps);
      && (forall i, j :: 0 <= i < j < |s.meta| && s.meta[j] == SERIAL ==> s.meta[i] == SERIAL)
      && (Enabled(s, TakeToken) && s.meta[0] != SERIAL ==>
            |s.queues| == 3 && |s.queues[SERIAL]| == Pending(s.producers, SERIAL))
  {
    InvInit(s0);
    InvRun(s0, steps);
    var s := Run(s0, steps);
    assert CountedAt(s, SERIAL);
  }

  /** No use after free: no buffer still queued, being written or waiting to be pushed
      points into a heap block that has been freed. */
  lemma NoUseAfterFree(s0: State, steps: seq<Step>, b: Buffer)
    requires Init(s0) && IsRun(s0, steps)
    requires var s := Run(s0, steps);
      || (|s.queues| == 3 && exists c: Class :: b in s.queues[c])
      || ((s.consumer.HasBuffer? || s.consumer.Finishing?) && b == s.consumer.buf)
      || (exists p :: 0 <= p < |s.producers| && !s.producers[p].Idle? && b in s.producers[p].left)
    ensures b.call !in Run(s0, steps).freed
  {
    InvInit(s0);
    InvRun(s0, steps);
    var s := Run(s0, steps);
    if c: Class :| b in s.queues[c] {
      assert FifoAt(s, c);
      QueuedUnfinished(s, c, b);
    } else if s.consumer.HasBuffer? && b == s.consumer.buf {
      InFlightUnfinished(s);
    } else if p :| 0 <= p < |s.producers| && !s.producers[p].Idle? && b in s.producers[p].left {
      LeftUnfinished(s, p, b);
    }
  }

  lemma QueuedUnfinished(s: State, c: Class, b: Buffer)
    requires Shaped(s) && FifoAt(s, c) && CallsKept(s) && b in s.queues[c]
    ensures !Complete(s, b.call)
  {
    InFlightKnown(s, c, b);
    var i :| 0 <= i < |s.queues[c]| && s.queues[c][i] == b;
    OfCallHas(s.queues[c], i);
    CallSplit(s, c, b.call);
    PushedPrefix(s, b.call);
  }

  lemma LeftUnfinished(s: State, p: nat, b: Buffer)
    requires Shaped(s) && Fifo(s) && CallsKept(s)
    requires p < |s.producers| && !s.producers[p].Idle? && b in s.producers[p].left
    ensures !Complete(s, b.call)
  {
    var pr := s.producers[p];
    assert ProducerKept(s, pr);
    LeftBelongs(s, pr, b);
    var c := s.calls[pr.call][0].cls;
    assert FifoAt(s, c);
    CallSplit(s, c, pr.call);
    assert |OfCall(s.handled[c], pr.call)| < |s.calls[pr.call]|;
  }

  lemma LeftBelongs(s: State, pr: Producer, b: Buffer)
    requires Shaped(s) && !pr.Idle? && ProducerKept(s, pr) && b in pr.left
    ensures b.call == pr.call
  {
    var i :| 0 <= i < |pr.left| && pr.left[i] == b;
    var done := OfCall(s.pushed[s.calls[pr.call][0].cls], pr.call);
    assert s.calls[pr.call][|done| + i] == b;
  }

  /** Everything begun has been pushed, taken, handled and released. */
  ghost predicate Drained(s: State)
    requires Shaped(s)
  {
    && (forall p :: 0 <= p < |s.producers| ==> s.producers[p].Idle?)
    && s.meta == [] && s.queues == [[], [], []]
    && (s.consumer.Top? || s.consumer.Waiting?)
  }

  /** Once drained, each class was handled exactly as pushed, each call in full, and each
      heap block handed over for freeing was freed exactly once. */
  lemma DrainedDeliversAll(s0: State, steps: seq<Step>)
    requires Init(s0) && IsRun(s0, steps) && Shaped(Run(s0, steps)) && Drained(Run(s0, steps))
    ensures var s := Run(s0, steps);
      && s.handled == s.pushed
      && (forall m :: m in s.calls ==>
            && s.calls[m] != []
            && OfCall(s.handled[s.calls[m][0].cls], m) == s.calls[m]
            && multiset(s.freed)[m] == if s.calls[m][|s.calls[m]| - 1].owner then 1 else 0)
  {
    InvInit(s0);
    InvRun(s0, steps);
    var s := Run(s0, steps);
    forall c: Class ensures s.handled[c] == s.pushed[c] {
      assert FifoAt(s, c);
    }
    forall m | m in s.calls
      ensures s.calls[m] != [] && OfCall(s.handled[s.calls[m][0].cls], m) == s.calls[m]
      ensures multiset(s.freed)[m] == if s.calls[m][|s.calls[m]| - 1].owner then 1 else 0
    {
      CallDelivered(s, m);
    }
  }

  lemma CallDelivered(s: State, m: nat)
    requires Shaped(s) && CallsKept(s) && FreedOnce(s) && Drained(s) && m in s.calls
    requires forall c: Class :: s.handled[c] == s.pushed[c]
    ensures s.calls[m] != [] && OfCall(s.handled[s.calls[m][0].cls], m) == s.calls[m]
    ensures multiset(s.freed)[m] == if s.calls[m][|s.calls[m]| - 1].owner then 1 else 0
  {
    assert CallShaped(s, m) && Quiet(s, m);
    assert AllPushed(s, m);
    DistinctCount(s.freed, m);
    assert Owned(s, m) && Complete(s, m) <==> m in s.freed;
  }

  lemma {:induction false} DistinctCount(ms: seq<nat>, m: nat)
    requires forall i, j :: 0 <= i < j < |ms| ==> ms[i] != ms[j]
    ensures multiset(ms)[m] == if m in ms then 1 else 0
  {
    if ms != [] {
      DistinctCount(ms[1..], m);
      assert ms == [ms[0]] + ms[1..];
    }
  }

  // ----- progress -----

  function ProducerWork(pr: Producer): nat
  {
    match pr
    case Idle => 0
    case Sending(_, left) => 7 * |left|
    case Between(_, left, _) => 7 * |left| + 2
  }

  function ProducersWork(ps: seq<Producer>): nat
  {
    if ps == [] then 0 else ProducersWork(ps[..|ps| - 1]) + ProducerWork(ps[|ps| - 1])
  }

  function ConsumerWork(k: Consumer): nat
  {
    match k
    case Top => 1
    case Waiting => 0
    case HasToken(_) => 0
    case HasBuffer(_) => 3
    case Finishing(_) => 2
  }

  /** The number of steps of its own that the path still has to take. */
  function Work(s: State): nat
    requires Shaped(s)
  {
    ProducersWork(s.producers) + |s.meta|
    + 4 * (|s.queues[0]| + |s.queues[1]| + |s.queues[2]|) + ConsumerWork(s.consumer)
  }

  lemma {:induction false} WorkUpdate(ps: seq<Producer>, p: nat, pr: Producer)
    requires p < |ps|
    ensures ProducersWork(ps[p := pr]) + ProducerWork(ps[p]) == ProducersWork(ps) + ProducerWork(pr)
  {
    var last := |ps| - 1;
    if p < last {
      WorkUpdate(ps[..last], p, pr);
      assert ps[p := pr][..last] == ps[..last][p := pr];
    } else {
      assert ps[p := pr][..last] == ps[..last];
    }
  }

  /** Each step of the path's own takes exactly one unit of work off. */
  lemma WorkNext(s: State, st: Step)
    requires Shaped(s) && Enabled(s, st) && Internal(st)
    ensures Shaped(Next(s, st)) && Work(Next(s, st)) == Work(s) - 1
  {
    ShapedNext(s, st);
    match st {
      case PushData(p) => WorkUpdate(s.producers, p, Next(s, st).producers[p]);
      case PushToken(p) => WorkUpdate(s.producers, p, Next(s, st).producers[p]);
      case _ =>
    }
  }

  lemma {:induction false} WorkSome(ps: seq<Producer>) returns (p: nat)
    requires ProducersWork(ps) > 0
    ensures p < |ps| && !ps[p].Idle?
  {
    var last := |ps| - 1;
    if ps[last].Idle? {
      p := WorkSome(ps[..last]);
    } else {
      p := last;
    }
  }

  lemma {:induction false} NoWork(ps: seq<Producer>, p: nat)
    requires p < |ps| && ProducersWork(ps) == 0
    ensures ProducerWork(ps[p]) == 0
  {
    if p < |ps| - 1 {
      NoWork(ps[..|ps| - 1], p);
    }
  }

  lemma WorkZero(s: State)
    requires Shaped(s) && Counted(s)
    ensures Work(s) == 0 <==> Drained(s) && s.consumer.Waiting?
  {
    if Work(s) == 0 {
      forall p | 0 <= p < |s.producers| ensures s.producers[p].Idle? {
        NoWork(s.producers, p);
      }
      assert s.queues == [[], [], []];
      assert CountedAt(s, if s.consumer.HasToken? then s.consumer.cls else SERIAL);
    } else if Drained(s) && s.consumer.Waiting? {
      var p := WorkSome(s.producers);
    }
  }

  /** While the data path is open and work remains, some step of the path's own can go. */
  lemma SomeStep(s: State) returns (st: Step)
    requires Inv(s) && s.datapath && Work(s) > 0
    ensures Internal(st) && Enabled(s, st)
  {
    TokensSum(s.meta);
    assert CountedAt(s, SERIAL) && CountedAt(s, BT) && CountedAt(s, OTHERS);
    match s.consumer {
      case Top => st := CheckDatapath;
      case HasToken(c) => assert CountedAt(s, c); st := TakeData;
      case HasBuffer(_) => st := Process;
      case Finishing(_) => st := Release;
      case Waiting =>
        if s.meta != [] {
          st := TakeToken;
        } else if c: Class :| s.queues[c] != [] {
          assert CountedAt(s, c);
          var p := PendingSome(s.producers, c);
          st := PushToken(p);
        } else {
          var p := WorkSome(s.producers);
          st := if s.producers[p].Sending? then PushData(p) else PushToken(p);
        }
    }
  }

  lemma {:induction false} WorkRun(s: State, steps: seq<Step>)
    requires Inv(s) && IsRun(s, steps) && forall st :: st in steps ==> Internal(st)
    ensures Inv(Run(s, steps)) && Work(Run(s, steps)) + |steps| == Work(s)
    ensures s.datapath ==> Run(s, steps).datapath
    decreases |steps|
  {
    if steps != [] {
      assert steps[0] in steps;
      InvNext(s, steps[0]);
      WorkNext(s, steps[0]);
      WorkRun(Next(s, steps[0]), steps[1..]);
    }
  }

  /** The path never deadlocks and drains in a fixed number of steps: from any reachable
      state with the data path open, whatever the scheduling, it takes exactly Work(s)
      steps of its own to have everything delivered and send_task waiting again; until
      then some step is always possible. */
  lemma DrainsInExactlyWork(s0: State, steps: seq<Step>, more: seq<Step>)
    requires Init(s0) && IsRun(s0, steps) && Shaped(Run(s0, steps)) && Run(s0, steps).datapath
    requires IsRun(Run(s0, steps), more) && forall st :: st in more ==> Internal(st)
    ensures var s := Run(s0, steps); var t := Run(s, more);
      && |more| <= Work(s)
      && Shaped(t)
      && (|more| == Work(s) <==> Drained(t) && t.consumer.Waiting?)
      && (|more| < Work(s) ==> exists st :: Internal(st) && Enabled(t, st))
  {
    InvInit(s0);
    InvRun(s0, steps);
    var s := Run(s0, steps);
    var t := Run(s, more);
    WorkRun(s, more);
    WorkZero(t);
    if |more| < Work(s) {
      var st := SomeStep(t);
    }
  }
}
