/** Whole runs of the send path told by the schedule: what a closed data path lets through,
    and in which order tokens are taken. */
module SendFlow {
  import opened Transport
  import opened SendPath
  import opened SendPathProof

  // ----- the data path -----

  /** Whether the data path is open after a schedule. */
  function OpenAfter(open: bool, steps: seq<Step>): bool
    decreases |steps|
  {
    if steps == [] then open
    else OpenAfter(if steps[0].Open? then true else if steps[0].Close? then false else open, steps[1..])
  }

  /** The buffers of class c that process_tx_pkt gets with the data path open, in a run that
      starts with it open or not. */
  ghost function Processed(s: State, steps: seq<Step>, open: bool, c: Class): seq<Buffer>
    requires Shaped(s) && IsRun(s, steps)
    decreases |steps|
  {
    if steps == [] then []
    else
      (if steps[0].Process? && open && s.consumer.buf.cls == c then [s.consumer.buf] else [])
      + Processed(Next(s, steps[0]), steps[1..], OpenAfter(open, [steps[0]]), c)
  }

  lemma {:induction false} WrittenRun(s: State, steps: seq<Step>, c: Class)
    requires Shaped(s) && IsRun(s, steps)
    ensures Shaped(Run(s, steps)) && Run(s, steps).datapath == OpenAfter(s.datapath, steps)
    ensures Run(s, steps).written[c] == s.written[c] + Processed(s, steps, s.datapath, c)
    decreases |steps|
  {
    if steps != [] {
      var t := Next(s, steps[0]);
      OneStep(s.datapath, steps[0]);
      WrittenStep(s, steps[0], c);
      WrittenRun(t, steps[1..], c);
    }
  }

  lemma OneStep(open: bool, st: Step)
    ensures OpenAfter(open, [st]) == if st.Open? then true else if st.Close? then false else open
  {
    assert [st][1..] == [];
  }

  lemma WrittenStep(s: State, st: Step, c: Class)
    requires Shaped(s) && Enabled(s, st)
    ensures Next(s, st).datapath == if st.Open? then true else if st.Close? then false else s.datapath
    ensures |Next(s, st).written| == 3
    ensures Next(s, st).written[c] == s.written[c]
              + if st.Process? && s.datapath && s.consumer.buf.cls == c then [s.consumer.buf] else []
  {
  }

  /** In every run, per class: exactly the buffers processed while the schedule has the data
      path open are written, in order. */
  lemma WrittenWhileOpen(s0: State, steps: seq<Step>, c: Class)
    requires Init(s0) && IsRun(s0, steps)
    ensures Shaped(Run(s0, steps)) && Run(s0, steps).datapath == OpenAfter(s0.datapath, steps)
    ensures Run(s0, steps).written[c] == Processed(s0, steps, s0.datapath, c)
  {
    WrittenRun(s0, steps, c);
  }

  /** What a buffer owns is freed once the buffer is done with, written or dropped. */
  lemma OwnerHandledIsFreed(s0: State, steps: seq<Step>, c: Class, b: Buffer)
    requires Init(s0) && IsRun(s0, steps) && Shaped(Run(s0, steps))
    requires b in Run(s0, steps).handled[c] && b.owner
    requires var k := Run(s0, steps).consumer; !(k.Finishing? && k.buf.call == b.call)
    ensures b.call in Run(s0, steps).freed
  {
    InvInit(s0);
    InvRun(s0, steps);
    OwnerCompletes(Run(s0, steps), c, b);
  }

  lemma OwnerCompletes(s: State, c: Class, b: Buffer)
    requires Shaped(s) && Fifo(s) && CallsKept(s) && b in s.handled[c] && b.owner
    ensures Owned(s, b.call) && Complete(s, b.call)
  {
    assert FifoAt(s, c);
    InFlightKnown(s, c, b);
    PushedPrefix(s, b.call);
    CallSplit(s, c, b.call);
    MemberOfCall(s.handled[c], b);
    OwnerIsLast(s.calls[b.call], OfCall(s.handled[c], b.call), b);
  }

  lemma OwnerIsLast(call: seq<Buffer>, done: seq<Buffer>, b: Buffer)
    requires OneCall(call, b.call, b.cls) && done <= call && b in done && b.owner
    ensures done == call && call[|call| - 1].owner
  {
    var i :| 0 <= i < |done| && done[i] == b;
    assert call[i] == b;
    assert i == |call| - 1;
  }

  lemma {:induction false} MemberOfCall(bs: seq<Buffer>, b: Buffer)
    requires b in bs
    ensures b in OfCall(bs, b.call)
  {
    var last := |bs| - 1;
    if bs[last] != b {
      assert b in bs[..last];
      MemberOfCall(bs[..last], b);
    }
  }

  /** How often send_task takes a token. */
  function Takes(steps: seq<Step>): nat
  {
    if steps == [] then 0 else (if steps[0].TakeToken? then 1 else 0) + Takes(steps[1..])
  }

  /** While the data path stays closed, send_task takes no token but the one it was already
      waiting for, and nothing is written. */
  lemma {:induction false} ClosedHoldsBack(s: State, steps: seq<Step>)
    requires Shaped(s) && IsRun(s, steps) && !s.datapath && Step.Open !in steps
    ensures Takes(steps) <= if s.consumer.Waiting? then 1 else 0
    ensures Run(s, steps).written == s.written
    decreases |steps|
  {
    if steps != [] {
      ClosedHoldsBack(Next(s, steps[0]), steps[1..]);
    }
  }

  // ----- the order of tokens -----

  /** The tokens of the classes other than serial. */
  function Others(meta: seq<Class>): seq<Class>
  {
    if meta == [] then []
    else Others(meta[..|meta| - 1]) + if meta[|meta| - 1] == 0 then [] else [meta[|meta| - 1]]
  }

  ghost function TokensPushed(s: State, steps: seq<Step>): seq<Class>
    requires Shaped(s) && IsRun(s, steps)
    decreases |steps|
  {
    if steps == [] then []
    else
      (if steps[0].PushToken? then [s.producers[steps[0].p].cls] else [])
      + TokensPushed(Next(s, steps[0]), steps[1..])
  }

  ghost function TokensTaken(s: State, steps: seq<Step>): seq<Class>
    requires Shaped(s) && IsRun(s, steps)
    decreases |steps|
  {
    if steps == [] then []
    else (if steps[0].TakeToken? then [s.meta[0]] else []) + TokensTaken(Next(s, steps[0]), steps[1..])
  }

  lemma {:induction false} OthersConcat(a: seq<Class>, b: seq<Class>)
    ensures Others(a + b) == Others(a) + Others(b)
  {
    if b == [] {
      assert a + b == a;
    } else {
      OthersConcat(a, b[..|b| - 1]);
      assert (a + b)[..|a + b| - 1] == a + b[..|b| - 1];
    }
  }

  lemma TokenStep(s: State, st: Step)
    requires Shaped(s) && Enabled(s, st)
    ensures var pushed := if st.PushToken? then [s.producers[st.p].cls] else [];
            var taken := if st.TakeToken? then [s.meta[0]] else [];
      Others(taken) + Others(Next(s, st).meta) == Others(s.meta) + Others(pushed)
  {
    match st {
      case PushToken(p) => PushedToken(s.meta, s.producers[p].cls);
      case TakeToken => TakenToken(s.meta);
      case _ =>
        assert Next(s, st).meta == s.meta;
        NoToken(s.meta);
    }
  }

  lemma PushedToken(meta: seq<Class>, c: Class)
    ensures Others([]) + Others(AddToken(meta, c)) == Others(meta) + Others([c])
  {
    OthersConcat(meta, [c]);
    OthersConcat([c], meta);
    assert c == 0 ==> Others([c]) == Others([]) == [];
  }

  lemma TakenToken(meta: seq<Class>)
    requires meta != []
    ensures Others([meta[0]]) + Others(meta[1..]) == Others(meta) + Others([])
  {
    OthersConcat([meta[0]], meta[1..]);
    assert meta == [meta[0]] + meta[1..];
  }

  lemma NoToken(meta: seq<Class>)
    ensures Others([]) + Others(meta) == Others(meta) + Others([])
  {
  }

  lemma {:induction false} TokensRun(s: State, steps: seq<Step>)
    requires Shaped(s) && IsRun(s, steps)
    ensures Others(TokensTaken(s, steps)) + Others(Run(s, steps).meta)
         == Others(s.meta) + Others(TokensPushed(s, steps))
    decreases |steps|
  {
    if steps != [] {
      var t := Next(s, steps[0]);
      var pushed := if steps[0].PushToken? then [s.producers[steps[0].p].cls] else [];
      var taken := if steps[0].TakeToken? then [s.meta[0]] else [];
      TokenStep(s, steps[0]);
      TokensRun(t, steps[1..]);
      OthersConcat(pushed, TokensPushed(t, steps[1..]));
      OthersConcat(taken, TokensTaken(t, steps[1..]));
      Rejoin(Others(s.meta), Others(t.meta), Others(Run(s, steps).meta), Others(taken), Others(pushed),
             Others(TokensTaken(t, steps[1..])), Others(TokensPushed(t, steps[1..])));
    }
  }

  lemma Rejoin(m0: seq<Class>, m1: seq<Class>, m2: seq<Class>, a: seq<Class>, p: seq<Class>,
               b: seq<Class>, q: seq<Class>)
    requires a + m1 == m0 + p && b + m2 == m1 + q
    ensures (a + b) + m2 == m0 + (p + q)
  {
    assert (a + b) + m2 == a + (b + m2) == a + (m1 + q) == (a + m1) + q == (m0 + p) + q;
  }

  /** In every run the tokens of the two other classes are taken in the order in which they
      were given, whichever the class. */
  lemma OtherTokensInOrder(s0: State, steps: seq<Step>)
    requires Init(s0) && IsRun(s0, steps)
    ensures Others(TokensTaken(s0, steps)) + Others(Run(s0, steps).meta) == Others(TokensPushed(s0, steps))
  {
    TokensRun(s0, steps);
  }
}
