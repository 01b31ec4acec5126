/** What the reassembly slot guarantees over whole runs. */
module SerialResults {
  import opened Transport
  import opened SerialSlot
  import Tlv
  import Frame

  /** Over all runs: the slot never overflows; `valid` is set exactly while one request is
      being queued, is queued, or is taken but not read; and a reader with a request always
      finds the slot as it was handed over. */
  lemma SlotHandshake(s0: State, steps: seq<Step>)
    requires Init(s0) && IsRun(s0, steps)
    ensures var s := Run(s0, steps);
      && s.slot.len <= 4096
      && Pending(s) == (if s.slot.valid then 1 else 0)
      && (Held(s.reader) == 1 ==>
            s.slot.valid && ReadBytes(s.slot, s.reader.arg.copy) == s.reader.arg.copy == Bytes(s.slot))
  {
    InvInit(s0);
    InvRun(s0, steps);
  }

  /** Everything handed over is read once, in order, and is what the stored fragments mean. */
  lemma HandOversAreGathered(s0: State, steps: seq<Step>)
    requires Init(s0) && IsRun(s0, steps)
    ensures var s := Run(s0, steps);
      && s.offered == GatherAll(s.stored).out
      && s.offered == s.returned + (if s.slot.valid then [Bytes(s.slot)] else [])
  {
    InvInit(s0);
    InvRun(s0, steps);
  }

  /** What was handed over stays handed over. */
  lemma {:induction false} OfferedGrows(s: State, steps: seq<Step>)
    requires Shaped(s) && IsRun(s, steps)
    ensures s.offered <= Run(s, steps).offered
    decreases |steps|
  {
    if steps != [] {
      OfferedGrows(Next(s, steps[0]), steps[1..]);
    }
  }

  /** A fragment with a foreign number hands over the bytes gathered so far, and none of its
      own; and whatever happens then, the next thing pserial_task reads after the earlier
      hand-overs is exactly those bytes. */
  lemma MismatchHandsOver(s0: State, steps: seq<Step>, more: seq<Step>)
    requires Init(s0) && IsRun(s0, steps) && Enabled(Run(s0, steps), Accept)
    requires var s := Run(s0, steps); s.slot.len > 0 && s.recv.f.seqNum != s.slot.curSeqNo
    requires Shaped(Next(Run(s0, steps), Accept)) && IsRun(Next(Run(s0, steps), Accept), more)
    ensures var s := Run(s0, steps); var t := Next(s, Accept);
      && t.slot == s.slot.(valid := true) && t.recv == HandingOver
      && t.offered == s.offered + [Bytes(s.slot)]
    ensures var s := Run(s0, steps); var u := Run(Next(s, Accept), more);
      |u.returned| > |s.offered| ==> u.returned[..|s.offered| + 1] == s.offered + [Bytes(s.slot)]
  {
    InvInit(s0);
    InvRun(s0, steps);
    var s := Run(s0, steps);
    var t := Next(s, Accept);
    InvNext(s, Accept);
    InvRun(t, more);
    OfferedGrows(t, more);
    if |Run(t, more).returned| > |s.offered| {
      ReadsPrefix(Run(t, more), t.offered);
    }
  }

  lemma ReadsPrefix(u: State, first: seq<seq<Byte>>)
    requires Shaped(u) && Meaning(u) && first <= u.offered && |u.returned| >= |first|
    ensures u.returned[..|first|] == first
  {
    assert u.returned <= u.offered;
  }

  // ----- lossless reassembly -----

  /** Each fragment fits behind the partial message it continues. */
  predicate Fits(fs: seq<Frag>)
  {
    fs == [] || (Fits(fs[..|fs| - 1])
      && |GatherAll(fs[..|fs| - 1]).bytes| + |fs[|fs| - 1].payload| <= SLOT_SIZE)
  }

  /** The room computed on arrival is still the slot's room, and nothing was cut. */
  ghost predicate Lossless(s: State)
    requires Shaped(s)
  {
    s.clear ==>
      && (s.recv.Waiting? ==> !s.slot.valid && s.recv.rem == SLOT_SIZE - s.slot.len)
      && (Fits(s.arrived) ==> s.stored == s.arrived)
  }

  lemma LosslessNext(s: State, st: Step)
    requires Inv(s) && Lossless(s) && Enabled(s, st)
    ensures Shaped(Next(s, st)) && Lossless(Next(s, st))
  {
    ShapedNext(s, st);
    if st.Accept? && s.clear && Fits(s.arrived + [s.recv.f]) {
      assert (s.arrived + [s.recv.f])[..|s.arrived|] == s.arrived;
      assert GatherAll(s.arrived).bytes == Bytes(s.slot);
      assert CutTo(s.recv.f, s.recv.rem) == s.recv.f;
    }
  }

  lemma {:induction false} LosslessRun(s: State, steps: seq<Step>)
    requires Inv(s) && Lossless(s) && IsRun(s, steps)
    ensures Inv(Run(s, steps)) && Lossless(Run(s, steps))
    decreases |steps|
  {
    if steps != [] {
      InvNext(s, steps[0]);
      LosslessNext(s, steps[0]);
      LosslessRun(Next(s, steps[0]), steps[1..]);
    }
  }

  /** If every fragment arrived with the slot clear and fits, what is handed over is what the
      fragments mean, uncut. */
  lemma ReassemblyIsLossless(s0: State, steps: seq<Step>)
    requires Init(s0) && IsRun(s0, steps)
    requires Run(s0, steps).clear && Fits(Run(s0, steps).arrived)
    ensures var s := Run(s0, steps); s.offered == GatherAll(s.arrived).out
  {
    InvInit(s0);
    LosslessRun(s0, steps);
  }

  // ----- whole messages -----

  /** A control message and a cut of it into fragments. */
  datatype Message = Message(epname: seq<Byte>, data: seq<Byte>, frags: seq<Frag>)

  function Body(fs: seq<Frag>): seq<Byte>
  {
    if fs == [] then [] else Body(fs[..|fs| - 1]) + fs[|fs| - 1].payload
  }

  /** Any cut: one number, MORE_FRAGMENT on all but the last, the bytes those of the TLV. */
  predicate Proper(m: Message)
  {
    && Tlv.Composable(m.epname, m.data) && m.frags != [] && OneMessage(m.frags)
    && Body(m.frags) == Tlv.Compose(m.epname, m.data)
  }

  /** The message fits the slot. */
  predicate Sized(m: Message) { |Body(m.frags)| <= SLOT_SIZE }

  predicate OneMessage(fs: seq<Frag>)
  {
    forall i :: 0 <= i < |fs| ==> fs[i].seqNum == fs[0].seqNum && (fs[i].more <==> i < |fs| - 1)
  }

  predicate AllProper(ms: seq<Message>) { forall i :: 0 <= i < |ms| ==> Proper(ms[i]) }

  predicate AllSized(ms: seq<Message>) { forall i :: 0 <= i < |ms| ==> Sized(ms[i]) }

  function Flatten(ms: seq<Message>): seq<Frag>
  {
    if ms == [] then [] else Flatten(ms[..|ms| - 1]) + ms[|ms| - 1].frags
  }

  function Bodies(ms: seq<Message>): seq<seq<Byte>>
  {
    if ms == [] then [] else Bodies(ms[..|ms| - 1]) + [Body(ms[|ms| - 1].frags)]
  }

  /** What the request handler must be called with. */
  function Expected(m: Message): Tlv.Parsed
  {
    if 1 <= |m.epname| < Tlv.EPNAME_MAX - 1 && m.data != [] then Tlv.Request(m.epname, m.data)
    else Tlv.Failed
  }

  function AllExpected(ms: seq<Message>): seq<Tlv.Parsed>
  {
    if ms == [] then [] else AllExpected(ms[..|ms| - 1]) + [Expected(ms[|ms| - 1])]
  }

  /** Behind complete messages, the first k fragments of another leave its partial body. */
  predicate Partial(g: Gather, out: seq<seq<Byte>>, fs: seq<Frag>, k: nat)
    requires k <= |fs|
  {
    && g.out == out + (if 0 < k == |fs| then [Body(fs)] else [])
    && g.bytes == (if k == |fs| then [] else Body(fs[..k]))
    && (g.bytes != [] ==> g.seqNum == fs[0].seqNum)
  }

  lemma {:induction false} PartialGathers(before: seq<Frag>, fs: seq<Frag>, k: nat) returns (soFar: seq<Frag>)
    requires k <= |fs| && GatherAll(before).bytes == [] && OneMessage(fs)
    ensures soFar == before + fs[..k]
    ensures Partial(GatherAll(soFar), GatherAll(before).out, fs, k)
    ensures Fits(before) && |Body(fs)| <= SLOT_SIZE ==> Fits(soFar)
  {
    if k == 0 {
      soFar := before;
      NothingPartial(GatherAll(before), fs);
    } else {
      var less := PartialGathers(before, fs, k - 1);
      soFar := less + [fs[k - 1]];
      Snoc(before, fs, k - 1);
      OneMore(less, GatherAll(less), GatherAll(before).out, fs, k - 1);
    }
  }

  lemma Snoc(before: seq<Frag>, fs: seq<Frag>, k: nat)
    requires k < |fs|
    ensures before + fs[..k] + [fs[k]] == before + fs[..k + 1]
  {
  }

  lemma NothingPartial(g: Gather, fs: seq<Frag>)
    requires g.bytes == []
    ensures Partial(g, g.out, fs, 0)
  {
    assert fs[..0] == [];
  }

  lemma OneMore(less: seq<Frag>, g: Gather, out: seq<seq<Byte>>, fs: seq<Frag>, k: nat)
    requires k < |fs| && OneMessage(fs) && g == GatherAll(less) && Partial(g, out, fs, k)
    ensures Partial(GatherAll(less + [fs[k]]), out, fs, k + 1)
    ensures Fits(less) && |Body(fs)| <= SLOT_SIZE ==> Fits(less + [fs[k]])
  {
    BodyStep(fs, k);
    if Fits(less) && |Body(fs)| <= SLOT_SIZE {
      FitsAppend(less, fs[k]);
    }
    GatherAppend(less, fs[k]);
    PartialStep(g, out, fs, k);
  }

  lemma BodyStep(fs: seq<Frag>, k: nat)
    requires k < |fs|
    ensures Body(fs[..k + 1]) == Body(fs[..k]) + fs[k].payload
    ensures |Body(fs[..k])| + |fs[k].payload| <= |Body(fs)|
  {
    assert fs[..k + 1][..k] == fs[..k];
    BodyPrefix(fs, k + 1);
  }

  lemma FitsAppend(fs: seq<Frag>, f: Frag)
    requires Fits(fs) && |GatherAll(fs).bytes| + |f.payload| <= SLOT_SIZE
    ensures Fits(fs + [f])
  {
    assert (fs + [f])[..|fs|] == fs;
  }

  lemma PartialStep(g: Gather, out: seq<seq<Byte>>, fs: seq<Frag>, k: nat)
    requires k < |fs| && OneMessage(fs) && Partial(g, out, fs, k)
    requires Body(fs[..k + 1]) == Body(fs[..k]) + fs[k].payload
    ensures Partial(Gathered(g, fs[k]), out, fs, k + 1)
  {
    assert fs[k].seqNum == fs[0].seqNum && (fs[k].more <==> k < |fs| - 1);
    assert k + 1 == |fs| ==> fs[..k + 1] == fs;
  }

  lemma {:induction false} BodyPrefix(fs: seq<Frag>, k: nat)
    requires k <= |fs|
    ensures |Body(fs[..k])| <= |Body(fs)|
    decreases |fs| - k
  {
    if k < |fs| {
      assert fs[..k + 1][..k] == fs[..k];
      BodyPrefix(fs, k + 1);
    } else {
      assert fs[..k] == fs;
    }
  }

  lemma {:induction false} MessagesGather(ms: seq<Message>)
    requires AllProper(ms)
    ensures AllSized(ms) ==> Fits(Flatten(ms))
    ensures GatherAll(Flatten(ms)).out == Bodies(ms) && GatherAll(Flatten(ms)).bytes == []
  {
    if ms != [] {
      var before, m := ms[..|ms| - 1], ms[|ms| - 1];
      MessagesGather(before);
      var all := PartialGathers(Flatten(before), m.frags, |m.frags|);
      assert m.frags[..|m.frags|] == m.frags;
    }
  }

  // ----- the request handler -----

  function Outcomes(bodies: seq<seq<Byte>>): seq<Tlv.Parsed>
  {
    if bodies == [] then []
    else
      var last := bodies[|bodies| - 1];
      Outcomes(bodies[..|bodies| - 1]) + (if last == [] then [] else [Tlv.Parse(last)])
  }

  predicate Handled(s: State) { s.handled == Outcomes(s.returned) }

  lemma HandledNext(s: State, st: Step)
    requires Shaped(s) && Handled(s) && Enabled(s, st)
    ensures Handled(Next(s, st))
  {
    if st.Serve? && s.reader.arg.ARequest? {
      var bytes := ReadBytes(s.slot, s.reader.arg.copy);
      assert (s.returned + [bytes])[..|s.returned|] == s.returned;
    }
  }

  lemma {:induction false} HandledRun(s: State, steps: seq<Step>)
    requires Shaped(s) && Handled(s) && IsRun(s, steps)
    ensures Handled(Run(s, steps))
    decreases |steps|
  {
    if steps != [] {
      HandledNext(s, steps[0]);
      HandledRun(Next(s, steps[0]), steps[1..]);
    }
  }

  lemma {:induction false} OutcomesExpected(ms: seq<Message>)
    requires AllProper(ms)
    ensures Outcomes(Bodies(ms)) == AllExpected(ms)
  {
    if ms != [] {
      var before, m := ms[..|ms| - 1], ms[|ms| - 1];
      OutcomesExpected(before);
      assert Bodies(ms)[..|Bodies(ms)| - 1] == Bodies(before);
      Tlv.ComposeThenParse(m.epname, m.data);
    }
  }

  // ----- the queue to the handler -----

  ghost function Taken(s: State, steps: seq<Step>): seq<Arg>
    requires Shaped(s) && IsRun(s, steps)
    decreases |steps|
  {
    if steps == [] then []
    else (if steps[0].Take? then [s.queue[0]] else []) + Taken(Next(s, steps[0]), steps[1..])
  }

  ghost function Queued(s: State, steps: seq<Step>): seq<Arg>
    requires Shaped(s) && IsRun(s, steps)
    decreases |steps|
  {
    if steps == [] then []
    else
      var st := steps[0];
      (if st.PostEvent? then [AnEvent(st.id)] else if st.Enqueue? then [ARequest(s.recv.copy)] else [])
      + Queued(Next(s, st), steps[1..])
  }

  lemma {:induction false} TakenInOrder(s: State, steps: seq<Step>)
    requires Shaped(s) && IsRun(s, steps)
    ensures Taken(s, steps) + Run(s, steps).queue == s.queue + Queued(s, steps)
    decreases |steps|
  {
    if steps != [] {
      var t := Next(s, steps[0]);
      TakenInOrder(t, steps[1..]);
      QueueStep(s, steps[0]);
      Chained(if steps[0].Take? then [s.queue[0]] else [], t.queue, s.queue, NewIn(s, steps[0]),
              Taken(t, steps[1..]), Run(s, steps).queue, Queued(t, steps[1..]));
    }
  }

  function NewIn(s: State, st: Step): seq<Arg>
    requires Enabled(s, st)
  {
    if st.PostEvent? then [AnEvent(st.id)] else if st.Enqueue? then [ARequest(s.recv.copy)] else []
  }

  lemma QueueStep(s: State, st: Step)
    requires Shaped(s) && Enabled(s, st)
    ensures (if st.Take? then [s.queue[0]] else []) + Next(s, st).queue == s.queue + NewIn(s, st)
  {
  }

  lemma Chained(a: seq<Arg>, q1: seq<Arg>, q0: seq<Arg>, n: seq<Arg>, b: seq<Arg>, q2: seq<Arg>, m: seq<Arg>)
    requires a + q1 == q0 + n && b + q2 == q1 + m
    ensures (a + b) + q2 == q0 + (n + m)
  {
    assert (a + b) + q2 == a + (b + q2) == a + (q1 + m) == (a + q1) + m == (q0 + n) + m;
  }

  /** Requests and events reach pserial_task in the order queued, each once. */
  lemma ServedInOrder(s0: State, steps: seq<Step>)
    requires Init(s0) && IsRun(s0, steps)
    ensures Taken(s0, steps) + Run(s0, steps).queue == Queued(s0, steps)
  {
    TakenInOrder(s0, steps);
  }

  /** How many of the hand-overs read were not empty. */
  function NotEmpty(bodies: seq<seq<Byte>>): nat
  {
    if bodies == [] then 0 else NotEmpty(bodies[1..]) + if bodies[0] == [] then 0 else 1
  }

  lemma {:induction false} NotEmptyAppend(bodies: seq<seq<Byte>>, b: seq<Byte>)
    ensures NotEmpty(bodies + [b]) == NotEmpty(bodies) + if b == [] then 0 else 1
  {
    if bodies == [] {
      assert [b][1..] == [];
    } else {
      NotEmptyAppend(bodies[1..], b);
      assert (bodies + [b])[1..] == bodies[1..] + [b];
    }
  }

  lemma CallsStep(s: State, st: Step)
    requires Shaped(s) && Enabled(s, st) && |s.handled| == NotEmpty(s.returned)
    ensures |Next(s, st).handled| == NotEmpty(Next(s, st).returned)
  {
    if st.Serve? && s.reader.arg.ARequest? {
      NotEmptyAppend(s.returned, ReadBytes(s.slot, s.reader.arg.copy));
    }
  }

  /** The request handler is called once for each hand-over read that is not empty. */
  lemma {:induction false} CallsCounted(s: State, steps: seq<Step>)
    requires Shaped(s) && IsRun(s, steps) && |s.handled| == NotEmpty(s.returned)
    ensures |Run(s, steps).handled| == NotEmpty(Run(s, steps).returned)
    decreases |steps|
  {
    if steps != [] {
      CallsStep(s, steps[0]);
      CallsCounted(Next(s, steps[0]), steps[1..]);
    }
  }

  // ----- exactly when nothing is cut -----

  /** Every fragment fits the room that was computed for it when it arrived. */
  ghost predicate Roomy(s: State, steps: seq<Step>)
    requires Shaped(s) && IsRun(s, steps)
    decreases |steps|
  {
    steps == [] ||
    ((steps[0].Accept? ==> |s.recv.f.payload| <= s.recv.rem) && Roomy(Next(s, steps[0]), steps[1..]))
  }

  /** In one step: a fragment is kept whole exactly if it fits the room left when it
      arrived, even though the slot may have been emptied since. */
  lemma KeptWholeExactly(s: State, f: Frag, rem: nat)
    requires Shaped(s) && s.recv == Waiting(f, rem) && Enabled(s, Accept)
    ensures Next(s, Accept).stored == s.stored + [f] <==> |f.payload| <= rem
  {
    var cut := CutTo(f, rem);
    assert (s.stored + [cut])[|s.stored|] == cut;
    assert (s.stored + [f])[|s.stored|] == f;
    assert |f.payload| <= rem ==> cut == f;
  }

  lemma StoredNext(s: State, st: Step)
    requires Shaped(s) && Enabled(s, st) && |s.stored| == |s.arrived|
    ensures var t := Next(s, st);
      && |t.stored| == |t.arrived|
      && (t.stored == t.arrived <==>
            s.stored == s.arrived && (st.Accept? ==> |s.recv.f.payload| <= s.recv.rem))
  {
    if st.Accept? {
      var f, rem := s.recv.f, s.recv.rem;
      KeptWholeExactly(s, f, rem);
      SameSnoc(s.stored, CutTo(f, rem), s.arrived, f);
    }
  }

  lemma SameSnoc(a: seq<Frag>, x: Frag, b: seq<Frag>, y: Frag)
    requires |a| == |b|
    ensures a + [x] == b + [y] <==> a == b && x == y
  {
    assert a + [x] == b + [y] ==> (a + [x])[..|a|] == (b + [y])[..|b|] && (a + [x])[|a|] == (b + [y])[|b|];
  }

  /** Over a whole run: nothing was cut exactly if the run was roomy. */
  lemma {:induction false} StoredWholeExactly(s: State, steps: seq<Step>)
    requires Shaped(s) && IsRun(s, steps) && |s.stored| == |s.arrived|
    ensures var t := Run(s, steps);
      && |t.stored| == |t.arrived|
      && (t.stored == t.arrived <==> s.stored == s.arrived && Roomy(s, steps))
    decreases |steps|
  {
    if steps != [] {
      StoredNext(s, steps[0]);
      StoredWholeExactly(Next(s, steps[0]), steps[1..]);
    }
  }

  /** A fragment, cut or not: the number and the flag survive. */
  predicate CutOf(x: Frag, f: Frag)
  {
    x.seqNum == f.seqNum && x.more == f.more && x.payload <= f.payload
  }

  predicate CutsOf(xs: seq<Frag>, fs: seq<Frag>)
  {
    |xs| == |fs| && forall i :: 0 <= i < |xs| ==> CutOf(xs[i], fs[i])
  }

  lemma CutsNext(s: State, st: Step)
    requires Shaped(s) && Enabled(s, st) && CutsOf(s.stored, s.arrived)
    ensures CutsOf(Next(s, st).stored, Next(s, st).arrived)
  {
  }

  lemma {:induction false} CutsRun(s: State, steps: seq<Step>)
    requires Shaped(s) && IsRun(s, steps) && CutsOf(s.stored, s.arrived)
    ensures CutsOf(Run(s, steps).stored, Run(s, steps).arrived)
    decreases |steps|
  {
    if steps != [] {
      CutsNext(s, steps[0]);
      CutsRun(Next(s, steps[0]), steps[1..]);
    }
  }

  // Counting bytes: without a foreign number no byte is lost in gathering.

  function Weight(fs: seq<Frag>): nat
  {
    if fs == [] then 0 else Weight(fs[..|fs| - 1]) + |fs[|fs| - 1].payload|
  }

  function Length(bodies: seq<seq<Byte>>): nat
  {
    if bodies == [] then 0 else Length(bodies[..|bodies| - 1]) + |bodies[|bodies| - 1]|
  }

  /** A fragment behind one that announces more has the same number. */
  predicate Continuous(fs: seq<Frag>)
  {
    forall i :: 0 < i < |fs| && fs[i - 1].more ==> fs[i].seqNum == fs[i - 1].seqNum
  }

  lemma {:induction false} WeightKept(fs: seq<Frag>)
    requires Continuous(fs)
    ensures Length(GatherAll(fs).out) + |GatherAll(fs).bytes| == Weight(fs)
    ensures fs != [] && fs[|fs| - 1].more ==>
      (GatherAll(fs).bytes != [] ==> GatherAll(fs).seqNum == fs[|fs| - 1].seqNum)
    ensures fs == [] || !fs[|fs| - 1].more ==> GatherAll(fs).bytes == []
  {
    if fs != [] {
      var last := |fs| - 1;
      WeightKept(fs[..last]);
      assert last > 0 && fs[last - 1].more ==> fs[last].seqNum == fs[last - 1].seqNum;
      WeightStep(GatherAll(fs[..last]), fs[last]);
    }
  }

  lemma WeightStep(g: Gather, f: Frag)
    requires g.bytes != [] ==> g.seqNum == f.seqNum
    ensures var g' := Gathered(g, f);
      && Length(g'.out) + |g'.bytes| == Length(g.out) + |g.bytes| + |f.payload|
      && (if f.more then g'.bytes != [] ==> g'.seqNum == f.seqNum else g'.bytes == [])
  {
    var body := g.bytes + f.payload;
    assert (g.out + [body])[..|g.out|] == g.out;
  }

  lemma {:induction false} CutsWeigh(xs: seq<Frag>, fs: seq<Frag>)
    requires CutsOf(xs, fs)
    ensures Weight(xs) <= Weight(fs)
    ensures Weight(xs) == Weight(fs) ==> xs == fs
  {
    if xs != [] {
      var last := |xs| - 1;
      CutsWeigh(xs[..last], fs[..last]);
      assert CutOf(xs[last], fs[last]);
      if Weight(xs) == Weight(fs) {
        assert xs[last] == fs[last];
        SameSnoc(xs[..last], xs[last], fs[..last], fs[last]);
        assert xs == xs[..last] + [xs[last]] && fs == fs[..last] + [fs[last]];
      }
    }
  }

  lemma {:induction false} FlattenContinuous(ms: seq<Message>)
    requires AllProper(ms)
    ensures Continuous(Flatten(ms))
    ensures Flatten(ms) != [] ==> !Flatten(ms)[|Flatten(ms)| - 1].more
  {
    if ms != [] {
      var before, m := ms[..|ms| - 1], ms[|ms| - 1];
      FlattenContinuous(before);
      ContinuousJoin(Flatten(before), m.frags);
    }
  }

  lemma ContinuousJoin(a: seq<Frag>, b: seq<Frag>)
    requires Continuous(a) && (a != [] ==> !a[|a| - 1].more) && OneMessage(b) && b != []
    ensures Continuous(a + b) && !(a + b)[|a + b| - 1].more
  {
    forall i | 0 < i < |a + b| && (a + b)[i - 1].more ensures (a + b)[i].seqNum == (a + b)[i - 1].seqNum {
      if i > |a| {
        assert b[i - |a|].seqNum == b[0].seqNum && b[i - 1 - |a|].seqNum == b[0].seqNum;
      }
    }
  }

  /** Cutting anything of complete messages shows in what is gathered. */
  lemma CutShows(xs: seq<Frag>, fs: seq<Frag>)
    requires CutsOf(xs, fs) && Continuous(fs) && (fs != [] ==> !fs[|fs| - 1].more)
    ensures GatherAll(xs).out == GatherAll(fs).out <==> xs == fs
  {
    forall i | 0 < i < |xs| && xs[i - 1].more ensures xs[i].seqNum == xs[i - 1].seqNum {
      assert CutOf(xs[i], fs[i]) && CutOf(xs[i - 1], fs[i - 1]);
    }
    if xs != [] {
      assert CutOf(xs[|xs| - 1], fs[|fs| - 1]);
    }
    WeightKept(xs);
    WeightKept(fs);
    CutsWeigh(xs, fs);
  }

  /** Control messages end to end, in every interleaving of the two tasks and the event
      senders, for messages of any size cut anyhow: the hand-overs are exactly the messages
      if and only if every fragment fitted the room computed when it arrived; and then, once
      the last is read, the request handler was called with exactly the endpoint and data of
      each message, in order. */
  lemma EndToEndExactly(s0: State, steps: seq<Step>, ms: seq<Message>)
    requires Init(s0) && IsRun(s0, steps) && AllProper(ms) && Run(s0, steps).arrived == Flatten(ms)
    ensures var s := Run(s0, steps);
      && (s.offered == Bodies(ms) <==> Roomy(s0, steps))
      && (Roomy(s0, steps) && !s.slot.valid ==> s.handled == AllExpected(ms))
  {
    StoredWholeExactly(s0, steps);
    CutsRun(s0, steps);
    HandOversAreGathered(s0, steps);
    MessagesGather(ms);
    FlattenContinuous(ms);
    CutShows(Run(s0, steps).stored, Flatten(ms));
    if Roomy(s0, steps) {
      HandledRun(s0, steps);
      OutcomesExpected(ms);
      AllHandled(Run(s0, steps), Bodies(ms));
    }
  }

  /** Fragments that arrive with the slot clear, of messages that fit the slot, are enough. */
  lemma ClearIsRoomy(s0: State, steps: seq<Step>, ms: seq<Message>)
    requires Init(s0) && IsRun(s0, steps) && AllProper(ms) && AllSized(ms)
    requires Run(s0, steps).clear && Run(s0, steps).arrived == Flatten(ms)
    ensures Roomy(s0, steps)
  {
    MessagesGather(ms);
    InvInit(s0);
    LosslessRun(s0, steps);
    StoredWholeExactly(s0, steps);
  }

  /** So one hand-over per message is made, and each is handled. */
  lemma ControlMessagesEndToEnd(s0: State, steps: seq<Step>, ms: seq<Message>)
    requires Init(s0) && IsRun(s0, steps) && AllProper(ms) && AllSized(ms)
    requires Run(s0, steps).clear && Run(s0, steps).arrived == Flatten(ms)
    ensures var s := Run(s0, steps);
      && s.offered == Bodies(ms)
      && (!s.slot.valid ==> s.handled == AllExpected(ms))
  {
    ClearIsRoomy(s0, steps, ms);
    EndToEndExactly(s0, steps, ms);
  }

  lemma AllHandled(s: State, bodies: seq<seq<Byte>>)
    requires Shaped(s) && Handled(s) && s.offered == bodies
    requires s.offered == s.returned + (if s.slot.valid then [Bytes(s.slot)] else [])
    ensures !s.slot.valid ==> s.handled == Outcomes(bodies)
  {
    assert s.returned + [] == s.returned;
  }

  // ----- what a fragment arriving too early loses -----

  lemma {:induction false} RunExtend(s: State, steps: seq<Step>, st: Step)
    requires Shaped(s) && IsRun(s, steps) && Enabled(Run(s, steps), st)
    ensures IsRun(s, steps + [st]) && Run(s, steps + [st]) == Next(Run(s, steps), st)
    decreases |steps|
  {
    ShapedNext(Run(s, steps), st);
    if steps == [] {
      assert IsRun(Next(s, st), []);
    } else {
      RunExtend(Next(s, steps[0]), steps[1..], st);
      assert (steps + [st])[1..] == steps[1..] + [st];
    }
  }

  ghost predicate Reached(s0: State, steps: seq<Step>, t: State)
  {
    Init(s0) && IsRun(s0, steps) && Run(s0, steps) == t
  }

  lemma Go(s0: State, steps: seq<Step>, s: State, st: Step) returns (steps': seq<Step>, t: State)
    requires Reached(s0, steps, s) && Enabled(s, st)
    ensures Reached(s0, steps', t) && t == Next(s, st)
  {
    RunExtend(s0, steps, st);
    steps', t := steps + [st], Next(s, st);
  }

  /** A run that is not roomy, with fragments no longer than a frame carries: a message that
      arrives behind another one, before that is read, loses what does not fit beside it. */
  lemma EarlyArrivalLost(s0: State, a: seq<Byte>, b: seq<Byte>, c: seq<Byte>)
    returns (steps: seq<Step>, s: State)
    requires Init(s0) && |a| + |b| + |c| > 4096
    requires |a| <= 1588 && |b| <= 1588 && |c| <= 1588
    ensures Reached(s0, steps, s)
    ensures s.arrived == [Frag(1, true, a), Frag(1, false, b), Frag(2, false, c)]
    ensures s.offered == [a + b, c[..4096 - |a| - |b|]]
    ensures IsRun(s0, steps) && !Roomy(s0, steps)
  {
    steps, s := FirstGathers(s0, a);
    steps, s := FirstArrives(s0, steps, s, a, b);
    steps, s := SecondIsCut(s0, steps, s, a + b, c);
    StoredWholeExactly(s0, steps);
    assert s.arrived == [Frag(1, true, a), Frag(1, false, b)] + [Frag(2, false, c)];
    assert s.offered == [a + b] + [c[..SLOT_SIZE - |a| - |b|]];
    assert s.stored[2].payload != s.arrived[2].payload;
  }

  lemma FirstGathers(s0: State, a: seq<Byte>) returns (steps: seq<Step>, s: State)
    requires Init(s0) && 0 < |a| <= SLOT_SIZE
    ensures Reached(s0, steps, s) && Shaped(s) && s.cap == s0.cap
    ensures s.recv.Ready? && s.reader.Resting? && s.queue == [] && s.offered == []
    ensures !s.slot.valid && s.slot.curSeqNo == 1 && s.slot.len == |a| && Bytes(s.slot) == a
    ensures s.arrived == [Frag(1, true, a)] && |s.stored| == 1
  {
    assert Reached(s0, [], s0);
    steps, s := Go(s0, [], s0, Arrive(Frag(1, true, a)));
    steps, s := Go(s0, steps, s, Accept);
    assert Bytes(s.slot) == a;
    assert s.arrived == [] + [Frag(1, true, a)];
  }

  lemma FirstArrives(s0: State, steps: seq<Step>, s: State, a: seq<Byte>, b: seq<Byte>)
    returns (steps': seq<Step>, t: State)
    requires Reached(s0, steps, s) && Shaped(s)
    requires s.recv.Ready? && s.reader.Resting? && s.queue == [] && s.offered == []
    requires !s.slot.valid && s.slot.curSeqNo == 1 && s.slot.len == |a| > 0 && Bytes(s.slot) == a
    requires s.arrived == [Frag(1, true, a)] && |s.stored| == 1 && |a + b| <= SLOT_SIZE
    ensures Reached(s0, steps', t) && Shaped(t)
    ensures t.recv.Ready? && t.reader.Resting? && t.queue == [ARequest(a + b)]
    ensures t.slot.valid && t.slot.len == |a + b| && Bytes(t.slot) == a + b
    ensures t.arrived == [Frag(1, true, a), Frag(1, false, b)] && |t.stored| == 2 && t.offered == [a + b]
  {
    steps', t := Go(s0, steps, s, Arrive(Frag(1, false, b)));
    steps', t := Go(s0, steps', t, Accept);
    assert CutTo(Frag(1, false, b), SLOT_SIZE - |a|).payload == b;
    assert Bytes(t.slot) == a + b;
    assert t.arrived == [Frag(1, true, a)] + [Frag(1, false, b)] && t.offered == [] + [a + b];
    steps', t := Go(s0, steps', t, CopyOut);
    steps', t := Go(s0, steps', t, Enqueue);
  }

  /** A last fragment of another message arrives beside the bytes of the first. */
  lemma SecondIsCut(s0: State, steps: seq<Step>, s: State, first: seq<Byte>, c: seq<Byte>)
    returns (steps': seq<Step>, t: State)
    requires Reached(s0, steps, s) && Shaped(s)
    requires s.recv.Ready? && s.reader.Resting? && s.queue == [ARequest(first)]
    requires s.slot.valid && s.slot.len == |first| && Bytes(s.slot) == first && |first| + |c| > SLOT_SIZE
    ensures Reached(s0, steps', t)
    ensures t.arrived == s.arrived + [Frag(2, false, c)]
    ensures t.stored == s.stored + [Frag(2, false, c[..SLOT_SIZE - |first|])]
    ensures t.offered == s.offered + [c[..SLOT_SIZE - |first|]]
  {
    var cut := c[..SLOT_SIZE - |first|];
    steps', t := Go(s0, steps, s, Arrive(Frag(2, false, c)));
    steps', t := Go(s0, steps', t, Take);
    steps', t := Go(s0, steps', t, Serve);
    assert CutTo(t.recv.f, t.recv.rem).payload == cut;
    steps', t := Go(s0, steps', t, Accept);
    assert Bytes(t.slot) == cut;
  }
}
