/** The invariant of the send path is inductive: it holds initially and every step of
    every task keeps it. */
module SendPathProof {
  import opened Transport
  import opened SendPath

  // ----- bookkeeping lemmas -----

  lemma {:induction false} PendingUpdate(ps: seq<Producer>, p: nat, pr: Producer, c: Class)
    requires p < |ps|
    ensures Pending(ps[p := pr], c) + (if ps[p].Between? && ps[p].cls == c then 1 else 0)
         == Pending(ps, c) + (if pr.Between? && pr.cls == c then 1 else 0)
  {
    var last := |ps| - 1;
    if p < last {
      PendingUpdate(ps[..last], p, pr, c);
      assert ps[p := pr][..last] == ps[..last][p := pr];
    } else {
      assert ps[p := pr][..last] == ps[..last];
    }
  }

  lemma {:induction false} PendingSome(ps: seq<Producer>, c: Class) returns (p: nat)
    requires Pending(ps, c) > 0
    ensures p < |ps| && ps[p].Between? && ps[p].cls == c
  {
    var last := |ps| - 1;
    if ps[last].Between? && ps[last].cls == c {
      p := last;
    } else {
      p := PendingSome(ps[..last], c);
    }
  }

  lemma {:induction false} TokensSum(meta: seq<Class>)
    ensures |meta| == multiset(meta)[SERIAL] + multiset(meta)[BT] + multiset(meta)[OTHERS]
  {
    if meta != [] {
      TokensSum(meta[1..]);
      assert meta == [meta[0]] + meta[1..];
    }
  }

  lemma {:induction false} OfCallConcat(a: seq<Buffer>, b: seq<Buffer>, m: nat)
    ensures OfCall(a + b, m) == OfCall(a, m) + OfCall(b, m)
  {
    if b == [] {
      assert a + b == a;
    } else {
      OfCallConcat(a, b[..|b| - 1], m);
      assert (a + b)[..|a + b| - 1] == a + b[..|b| - 1];
    }
  }

  lemma OfCallOne(b: Buffer, m: nat)
    ensures OfCall([b], m) == if b.call == m then [b] else []
  {
    assert [b][..0] == [];
  }

  lemma {:induction false} OfCallHas(bs: seq<Buffer>, i: nat)
    requires i < |bs|
    ensures OfCall(bs, bs[i].call) != []
  {
    if i < |bs| - 1 {
      OfCallHas(bs[..|bs| - 1], i);
    }
  }

  lemma {:induction false} OfCallNone(bs: seq<Buffer>, m: nat)
    requires forall i :: 0 <= i < |bs| ==> bs[i].call != m
    ensures OfCall(bs, m) == []
  {
    if bs != [] {
      OfCallNone(bs[..|bs| - 1], m);
    }
  }

  // ----- every step keeps the invariant -----

  lemma ShapedNext(s: State, st: Step)
    requires Shaped(s) && Enabled(s, st)
    ensures Shaped(Next(s, st))
  {
  }

  lemma CountedNext(s: State, st: Step)
    requires Shaped(s) && Counted(s) && Enabled(s, st)
    ensures Shaped(Next(s, st)) && Counted(Next(s, st))
  {
    ShapedNext(s, st);
    forall c: Class
      ensures CountedAt(Next(s, st), c)
    {
      assert CountedAt(s, c);
      CountedNextAt(s, st, c);
    }
  }

  lemma CountedNextAt(s: State, st: Step, c: Class)
    requires Shaped(s) && CountedAt(s, c) && Enabled(s, st) && Shaped(Next(s, st))
    ensures CountedAt(Next(s, st), c)
  {
    match st {
      case Begin(p, bufs) =>
        PendingUpdate(s.producers, p, Sending(bufs[0].call, bufs), c);
        CountedFrame(s, Next(s, st), c);
      case PushData(p) => CountedPushData(s, p, c);
      case PushToken(p) => CountedPushToken(s, p, c);
      case TakeToken => CountedTakeToken(s, c);
      case TakeData => CountedTakeData(s, c);
      case _ => CountedFrame(s, Next(s, st), c);
    }
  }

  lemma CountedFrame(s: State, t: State, c: Class)
    requires Shaped(s) && CountedAt(s, c) && Shaped(t)
    requires t.n == s.n && t.meta == s.meta && t.queues == s.queues
    requires Pending(t.producers, c) == Pending(s.producers, c)
    requires Held(t.consumer, c) == Held(s.consumer, c)
    ensures CountedAt(t, c)
  {
  }

  lemma CountedPushData(s: State, p: nat, c: Class)
    requires Shaped(s) && CountedAt(s, c) && Enabled(s, PushData(p)) && Shaped(Next(s, PushData(p)))
    ensures CountedAt(Next(s, PushData(p)), c)
  {
    PendingUpdate(s.producers, p, Next(s, PushData(p)).producers[p], c);
  }

  lemma CountedPushToken(s: State, p: nat, c: Class)
    requires Shaped(s) && CountedAt(s, c) && Enabled(s, PushToken(p)) && Shaped(Next(s, PushToken(p)))
    ensures CountedAt(Next(s, PushToken(p)), c)
  {
    PendingUpdate(s.producers, p, Next(s, PushToken(p)).producers[p], c);
  }

  lemma CountedTakeToken(s: State, c: Class)
    requires Shaped(s) && CountedAt(s, c) && Enabled(s, TakeToken) && Shaped(Next(s, TakeToken))
    ensures CountedAt(Next(s, TakeToken), c)
  {
    assert s.meta == [s.meta[0]] + s.meta[1..];
  }

  lemma CountedTakeData(s: State, c: Class)
    requires Shaped(s) && CountedAt(s, c) && Enabled(s, TakeData) && Shaped(Next(s, TakeData))
    ensures CountedAt(Next(s, TakeData), c)
  {
  }

  lemma SerialFirstAdd(meta: seq<Class>, c: Class)
    requires SerialFirst(meta)
    ensures SerialFirst(AddToken(meta, c))
  {
    var t := AddToken(meta, c);
    forall i, j | 0 <= i < j < |t| && t[j] == SERIAL
      ensures t[i] == SERIAL
    {
      if c == SERIAL && i > 0 {
        assert meta[j - 1] == SERIAL && meta[i - 1] == SERIAL;
      }
    }
  }

  lemma SerialFirstNext(s: State, st: Step)
    requires Shaped(s) && SerialFirst(s.meta) && Enabled(s, st)
    ensures SerialFirst(Next(s, st).meta)
  {
    match st {
      case PushToken(p) => SerialFirstAdd(s.meta, s.producers[p].cls);
      case TakeToken =>
        var meta := s.meta[1..];
        assert forall i :: 0 <= i < |meta| ==> meta[i] == s.meta[i + 1];
      case _ =>
    }
  }

  lemma FifoNext(s: State, st: Step)
    requires Inv(s) && Enabled(s, st)
    ensures Shaped(Next(s, st)) && Fifo(Next(s, st))
  {
    ShapedNext(s, st);
    if st.TakeData? {
      assert FifoAt(s, s.consumer.cls);
      BufferClass(s, s.consumer.cls, 0);
    }
    forall c: Class ensures FifoAt(Next(s, st), c) {
      assert FifoAt(s, c);
      FifoNextAt(s, st, c);
    }
  }

  lemma FifoNextAt(s: State, st: Step, c: Class)
    requires Shaped(s) && FifoAt(s, c) && Enabled(s, st) && Shaped(Next(s, st))
    requires st.TakeData? ==> s.queues[s.consumer.cls][0].cls == s.consumer.cls
    ensures FifoAt(Next(s, st), c)
  {
    var t := Next(s, st);
    if st.TakeData? && c == s.consumer.cls {
      assert s.queues[c] == [s.queues[c][0]] + s.queues[c][1..];
    } else if st.PushData? {
      assert t.handled[c] + InHand(t.consumer, c) + (s.queues[c] + [s.producers[st.p].left[0]])
          == (t.handled[c] + InHand(t.consumer, c) + s.queues[c]) + [s.producers[st.p].left[0]];
    } else if st.Process? {
      assert s.handled[c] + InHand(s.consumer, c) == t.handled[c] + InHand(t.consumer, c);
    }
  }

  /** A buffer waiting in a data queue carries that queue's class. */
  lemma BufferClass(s: State, c: Class, i: nat)
    requires Shaped(s) && FifoAt(s, c) && CallsKept(s) && i < |s.queues[c]|
    ensures s.queues[c][i].cls == c && s.queues[c][i].call in s.calls
  {
    InFlightKnown(s, c, s.queues[c][i]);
  }

  lemma CallsKeptNext(s: State, st: Step)
    requires Inv(s) && Enabled(s, st)
    ensures Shaped(Next(s, st)) && CallsKept(Next(s, st))
  {
    ShapedNext(s, st);
    match st {
      case Begin(p, bufs) => CallsKeptBegin(s, p, bufs);
      case PushData(p) => CallsKeptPushData(s, p);
      case PushToken(p) => CallsKeptPushToken(s, p);
      case _ => CallsKeptFrame(s, Next(s, st));
    }
  }

  lemma CallsKeptFrame(s: State, t: State)
    requires Shaped(s) && Shaped(t) && CallsKept(s)
    requires t.calls == s.calls && t.pushed == s.pushed && t.producers == s.producers
    ensures CallsKept(t)
  {
    forall m | m in t.calls ensures CallShaped(t, m) { assert CallShaped(s, m); }
    forall c: Class, i | 0 <= i < |t.pushed[c]| ensures Known(t, t.pushed[c][i], c) {
      assert Known(s, s.pushed[c][i], c);
    }
    forall p | 0 <= p < |t.producers| && !t.producers[p].Idle? ensures ProducerKept(t, t.producers[p]) {
      assert ProducerKept(s, s.producers[p]);
    }
    forall m | m in t.calls && CallShaped(t, m) && Quiet(t, m) ensures AllPushed(t, m) {
      assert CallShaped(s, m) && Quiet(s, m);
    }
  }

  lemma CallsKeptBegin(s: State, p: nat, bufs: seq<Buffer>)
    requires Shaped(s) && CallsKept(s) && Enabled(s, Begin(p, bufs))
    ensures Shaped(Next(s, Begin(p, bufs))) && CallsKept(Next(s, Begin(p, bufs)))
  {
    var t := Next(s, Begin(p, bufs));
    var m := bufs[0].call;
    KnownBegin(s, p, bufs);
    OfCallNone(s.pushed[bufs[0].cls], m);
    forall q | 0 <= q < |t.producers| && !t.producers[q].Idle? ensures ProducerKept(t, t.producers[q]) {
      assert q != p ==> ProducerKept(s, s.producers[q]);
    }
    forall m' | m' in t.calls && CallShaped(t, m') && Quiet(t, m') ensures AllPushed(t, m') {
      QuietBegin(s, p, bufs, m');
    }
  }

  lemma KnownBegin(s: State, p: nat, bufs: seq<Buffer>)
    requires Shaped(s) && CallsKept(s) && Enabled(s, Begin(p, bufs)) && Shaped(Next(s, Begin(p, bufs)))
    ensures var t := Next(s, Begin(p, bufs));
      && (forall m :: m in t.calls ==> CallShaped(t, m))
      && (forall c: Class, i :: 0 <= i < |t.pushed[c]| ==>
            t.pushed[c][i].call != bufs[0].call && Known(t, t.pushed[c][i], c))
  {
    var t := Next(s, Begin(p, bufs));
    forall c: Class, i | 0 <= i < |t.pushed[c]|
      ensures t.pushed[c][i].call != bufs[0].call && Known(t, t.pushed[c][i], c)
    {
      assert Known(s, s.pushed[c][i], c);
    }
    forall m | m in t.calls ensures CallShaped(t, m) { assert m != bufs[0].call ==> CallShaped(s, m); }
  }

  lemma QuietBegin(s: State, p: nat, bufs: seq<Buffer>, m: nat)
    requires Shaped(s) && CallsKept(s) && Enabled(s, Begin(p, bufs)) && Shaped(Next(s, Begin(p, bufs)))
    requires var t := Next(s, Begin(p, bufs)); m in t.calls && CallShaped(t, m) && Quiet(t, m)
    ensures AllPushed(Next(s, Begin(p, bufs)), m)
  {
    var t := Next(s, Begin(p, bufs));
    assert !Active(t.producers[p], m);
    forall q | 0 <= q < |s.producers| ensures !Active(s.producers[q], m) {
      assert q != p ==> !Active(t.producers[q], m);
    }
    assert CallShaped(s, m) && Quiet(s, m);
    assert AllPushed(s, m);
  }

  lemma CallsKeptPushData(s: State, p: nat)
    requires Shaped(s) && CallsKept(s) && Enabled(s, PushData(p))
    ensures Shaped(Next(s, PushData(p))) && CallsKept(Next(s, PushData(p)))
  {
    var t := Next(s, PushData(p));
    KnownPushData(s, p);
    assert ProducerKept(s, s.producers[p]);
    forall q | 0 <= q < |t.producers| && !t.producers[q].Idle? ensures ProducerKept(t, t.producers[q]) {
      assert ProducerKept(s, s.producers[q]);
      ProducerKeptPushData(s, p, q);
    }
    forall m | m in t.calls && CallShaped(t, m) && Quiet(t, m) ensures AllPushed(t, m) {
      QuietPushData(s, p, m);
    }
  }

  lemma KnownPushData(s: State, p: nat)
    requires Shaped(s) && CallsKept(s) && Enabled(s, PushData(p)) && Shaped(Next(s, PushData(p)))
    ensures var t := Next(s, PushData(p));
      && (forall m :: m in t.calls ==> CallShaped(t, m))
      && (forall c: Class, i :: 0 <= i < |t.pushed[c]| ==> Known(t, t.pushed[c][i], c))
  {
    var t := Next(s, PushData(p));
    forall m | m in t.calls ensures CallShaped(t, m) { assert CallShaped(s, m); }
    forall c: Class, i | 0 <= i < |t.pushed[c]| ensures Known(t, t.pushed[c][i], c) {
      if i < |s.pushed[c]| {
        assert Known(s, s.pushed[c][i], c);
      } else {
        assert ProducerKept(s, s.producers[p]);
        PushedBelongs(s, p);
      }
    }
  }

  lemma ProducerKeptPushData(s: State, p: nat, q: nat)
    requires Shaped(s) && Enabled(s, PushData(p)) && ProducerKept(s, s.producers[p])
    requires q < |s.producers| && !s.producers[q].Idle? && ProducerKept(s, s.producers[q])
    requires q != p ==> s.producers[q].call != s.producers[p].call
    ensures Shaped(Next(s, PushData(p)))
    ensures ProducerKept(Next(s, PushData(p)), Next(s, PushData(p)).producers[q])
  {
    PushedBelongs(s, p);
    var m := s.producers[q].call;
    OfCallAppend(s.pushed, s.producers[p].left[0], s.calls[m][0].cls, m);
    if q == p {
      PusherKept(s, p);
    } else {
      ShapedNext(s, PushData(p));
      OtherKept(s, Next(s, PushData(p)), s.producers[q]);
    }
  }

  lemma PusherKept(s: State, p: nat)
    requires Shaped(s) && Enabled(s, PushData(p)) && ProducerKept(s, s.producers[p])
    requires var pr := s.producers[p]; var m := pr.call; var c := s.calls[m][0].cls;
      && Known(s, pr.left[0], c)
      && OfCall(Append(s.pushed, pr.left[0])[c], m) == OfCall(s.pushed[c], m) + [pr.left[0]]
    ensures Shaped(Next(s, PushData(p)))
    ensures ProducerKept(Next(s, PushData(p)), Next(s, PushData(p)).producers[p])
  {
    ShapedNext(s, PushData(p));
    PusherMoves(s, Next(s, PushData(p)), s.producers[p]);
  }

  lemma PusherMoves(s: State, t: State, pr: Producer)
    requires Shaped(s) && Shaped(t) && pr.Sending? && pr.left != [] && ProducerKept(s, pr) && t.calls == s.calls
    requires var c := s.calls[pr.call][0].cls;
      && pr.left[0].cls == c
      && OfCall(t.pushed[c], pr.call) == OfCall(s.pushed[c], pr.call) + [pr.left[0]]
    ensures ProducerKept(t, Between(pr.call, pr.left[1..], pr.left[0].cls))
  {
    assert CallShaped(s, pr.call);
    assert pr.left == [pr.left[0]] + pr.left[1..];
  }

  lemma OtherKept(s: State, t: State, pr: Producer)
    requires Shaped(s) && Shaped(t) && !pr.Idle? && ProducerKept(s, pr) && t.calls == s.calls
    requires var c := s.calls[pr.call][0].cls; OfCall(t.pushed[c], pr.call) == OfCall(s.pushed[c], pr.call)
    ensures ProducerKept(t, pr)
  {
    assert CallShaped(s, pr.call);
  }

  lemma QuietPushData(s: State, p: nat, m: nat)
    requires Shaped(s) && CallsKept(s) && Enabled(s, PushData(p)) && Shaped(Next(s, PushData(p)))
    requires m in s.calls && CallShaped(Next(s, PushData(p)), m) && Quiet(Next(s, PushData(p)), m)
    ensures AllPushed(Next(s, PushData(p)), m)
  {
    var t := Next(s, PushData(p));
    assert !Active(t.producers[p], m);
    forall q | 0 <= q < |s.producers| ensures !Active(s.producers[q], m) {
      assert !Active(t.producers[q], m);
    }
    assert CallShaped(s, m) && Quiet(s, m);
    assert AllPushed(s, m);
    assert ProducerKept(s, s.producers[p]);
    PushedBelongs(s, p);
    OfCallAppend(s.pushed, s.producers[p].left[0], s.calls[m][0].cls, m);
  }

  lemma OfCallAppend(qs: seq<seq<Buffer>>, b: Buffer, c: Class, m: nat)
    requires |qs| == 3
    ensures OfCall(Append(qs, b)[c], m) == OfCall(qs[c], m) + if c == b.cls && b.call == m then [b] else []
  {
    if c == b.cls {
      OfCallConcat(qs[c], [b], m);
      OfCallOne(b, m);
    }
  }

  /** The buffer a producer is about to push belongs to its own call. */
  lemma PushedBelongs(s: State, p: nat)
    requires Shaped(s) && p < |s.producers| && s.producers[p].Sending? && ProducerKept(s, s.producers[p])
    ensures var pr := s.producers[p]; pr.left[0].call == pr.call && Known(s, pr.left[0], s.calls[pr.call][0].cls)
  {
    var pr := s.producers[p];
    var done := OfCall(s.pushed[s.calls[pr.call][0].cls], pr.call);
    assert s.calls[pr.call][|done|] == pr.left[0];
  }

  lemma CallsKeptPushToken(s: State, p: nat)
    requires Shaped(s) && CallsKept(s) && Enabled(s, PushToken(p))
    ensures Shaped(Next(s, PushToken(p))) && CallsKept(Next(s, PushToken(p)))
  {
    var t := Next(s, PushToken(p));
    var pr := s.producers[p];
    assert ProducerKept(s, pr);
    forall m | m in t.calls ensures CallShaped(t, m) { assert CallShaped(s, m); }
    forall c: Class, i | 0 <= i < |t.pushed[c]| ensures Known(t, t.pushed[c][i], c) {
      assert Known(s, s.pushed[c][i], c);
    }
    forall q | 0 <= q < |t.producers| && !t.producers[q].Idle? ensures ProducerKept(t, t.producers[q]) {
      assert ProducerKept(s, s.producers[q]);
    }
    forall m | m in t.calls && CallShaped(t, m) && Quiet(t, m) ensures AllPushed(t, m) {
      assert !Active(t.producers[p], m);
      assert CallShaped(s, m);
      if m != pr.call {
        forall q | 0 <= q < |s.producers| ensures !Active(s.producers[q], m) {
          assert !Active(t.producers[q], m);
        }
        assert AllPushed(s, m);
      }
    }
  }

  /** What is pushed of a call is a prefix of it. */
  lemma PushedPrefix(s: State, m: nat)
    requires Shaped(s) && CallsKept(s) && m in s.calls
    ensures CallShaped(s, m) && OfCall(s.pushed[s.calls[m][0].cls], m) <= s.calls[m]
  {
    assert CallShaped(s, m);
    if p :| 0 <= p < |s.producers| && Active(s.producers[p], m) {
      assert ProducerKept(s, s.producers[p]);
    } else {
      assert Quiet(s, m);
      assert AllPushed(s, m);
    }
  }

  /** Within a class and a call: handled, then in hand, then queued, is what was pushed. */
  lemma CallSplit(s: State, c: Class, m: nat)
    requires Shaped(s) && FifoAt(s, c)
    ensures OfCall(s.handled[c], m) + OfCall(InHand(s.consumer, c), m) + OfCall(s.queues[c], m)
         == OfCall(s.pushed[c], m)
  {
    OfCallConcat(s.handled[c] + InHand(s.consumer, c), s.queues[c], m);
    OfCallConcat(s.handled[c], InHand(s.consumer, c), m);
  }

  /** Anything handled, in hand or queued in class c belongs to a call of class c. */
  lemma InFlightKnown(s: State, c: Class, b: Buffer)
    requires Shaped(s) && FifoAt(s, c) && CallsKept(s)
    requires b in s.handled[c] || b in InHand(s.consumer, c) || b in s.queues[c]
    ensures Known(s, b, c)
  {
    assert b in s.handled[c] + InHand(s.consumer, c) + s.queues[c];
    var i :| 0 <= i < |s.pushed[c]| && s.pushed[c][i] == b;
    assert Known(s, s.pushed[c][i], c);
  }

  lemma FreedOnceNext(s: State, st: Step)
    requires Inv(s) && Enabled(s, st)
    ensures Shaped(Next(s, st)) && FreedOnce(Next(s, st))
  {
    ShapedNext(s, st);
    match st {
      case Begin(p, bufs) => FreedOnceBegin(s, p, bufs);
      case Process => InFlightUnfinished(s); FreedOnceProcess(s);
      case Release => LastHandled(s); FreedOnceRelease(s);
      case _ => FreedOnceFrame(s, Next(s, st));
    }
  }

  lemma FreedOnceFrame(s: State, t: State)
    requires Shaped(s) && Shaped(t) && FreedOnce(s)
    requires t.calls == s.calls && t.handled == s.handled && t.freed == s.freed
    requires s.consumer.Finishing? <==> t.consumer.Finishing?
    requires s.consumer.Finishing? ==> t.consumer == s.consumer
    ensures FreedOnce(t)
  {
    forall m ensures Owned(s, m) == Owned(t, m) && Complete(s, m) == Complete(t, m) {}
  }

  lemma FreedOnceBegin(s: State, p: nat, bufs: seq<Buffer>)
    requires Inv(s) && Enabled(s, Begin(p, bufs))
    ensures Shaped(Next(s, Begin(p, bufs))) && FreedOnce(Next(s, Begin(p, bufs)))
  {
    var m, c := bufs[0].call, bufs[0].cls;
    forall i | 0 <= i < |s.handled[c]| ensures s.handled[c][i].call != m {
      assert FifoAt(s, c);
      InFlightKnown(s, c, s.handled[c][i]);
    }
    OfCallNone(s.handled[c], m);
    FreedOnceNewCall(s, Next(s, Begin(p, bufs)), m, bufs);
  }

  /** A new call with nothing handled yet is neither complete nor freed. */
  lemma FreedOnceNewCall(s: State, t: State, m: nat, bufs: seq<Buffer>)
    requires Shaped(s) && Shaped(t) && FreedOnce(s) && m !in s.calls && bufs != []
    requires t.calls == s.calls[m := bufs] && t.handled == s.handled && t.freed == s.freed
    requires t.consumer == s.consumer && OfCall(s.handled[bufs[0].cls], m) == []
    ensures FreedOnce(t)
  {
    assert m !in s.freed;
    forall m' | m' != m ensures Owned(s, m') == Owned(t, m') && Complete(s, m') == Complete(t, m') {}
  }

  lemma FreedOnceProcess(s: State)
    requires Shaped(s) && FreedOnce(s) && s.consumer.HasBuffer? && !Complete(s, s.consumer.buf.call)
    ensures Shaped(Next(s, Process)) && FreedOnce(Next(s, Process))
  {
    var t := Next(s, Process);
    var b := s.consumer.buf;
    assert b.call !in s.freed;
    forall m | m != b.call ensures Owned(s, m) == Owned(t, m) && Complete(s, m) == Complete(t, m) {
      if m in s.calls && s.calls[m] != [] {
        OfCallAppend(s.handled, b, s.calls[m][0].cls, m);
      }
    }
  }

  /** While send_task holds a buffer, that buffer's call is not complete. */
  lemma InFlightUnfinished(s: State)
    requires Shaped(s) && Fifo(s) && CallsKept(s) && s.consumer.HasBuffer?
    ensures !Complete(s, s.consumer.buf.call)
  {
    var b := s.consumer.buf;
    assert FifoAt(s, b.cls);
    InFlightKnown(s, b.cls, b);
    PushedPrefix(s, b.call);
    CallSplit(s, b.cls, b.call);
    OfCallOne(b, b.call);
  }

  /** The buffer being finished is the last handled one of its call. */
  lemma LastHandled(s: State)
    requires Inv(s) && s.consumer.Finishing?
    ensures var b := s.consumer.buf;
            && Known(s, b, b.cls)
            && OfCall(s.handled[b.cls], b.call) <= s.calls[b.call]
            && OfCall(s.handled[b.cls], b.call) != []
            && OfCall(s.handled[b.cls], b.call)[|OfCall(s.handled[b.cls], b.call)| - 1] == b
  {
    var b := s.consumer.buf;
    assert FifoAt(s, b.cls);
    InFlightKnown(s, b.cls, b);
    PushedPrefix(s, b.call);
    CallSplit(s, b.cls, b.call);
  }

  lemma FreedOnceRelease(s: State)
    requires Shaped(s) && FreedOnce(s) && s.consumer.Finishing?
    requires var b := s.consumer.buf;
            && Known(s, b, b.cls)
            && OfCall(s.handled[b.cls], b.call) <= s.calls[b.call]
            && OfCall(s.handled[b.cls], b.call) != []
            && OfCall(s.handled[b.cls], b.call)[|OfCall(s.handled[b.cls], b.call)| - 1] == b
    ensures Shaped(Next(s, Release)) && FreedOnce(Next(s, Release))
  {
    var t := Next(s, Release);
    var b := s.consumer.buf;
    var done := OfCall(s.handled[b.cls], b.call);
    forall m ensures Owned(s, m) == Owned(t, m) && Complete(s, m) == Complete(t, m) {}
    assert b.call !in s.freed;
    assert s.calls[b.call][|done| - 1] == b;
    if b.owner {
      assert |done| == |s.calls[b.call]|;
    }
    assert b.owner <==> Owned(s, b.call) && Complete(s, b.call);
  }

  lemma InvNext(s: State, st: Step)
    requires Inv(s) && Enabled(s, st)
    ensures Inv(Next(s, st))
  {
    ShapedNext(s, st);
    CountedNext(s, st);
    SerialFirstNext(s, st);
    FifoNext(s, st);
    CallsKeptNext(s, st);
    FreedOnceNext(s, st);
  }

  lemma InvInit(s: State)
    requires Init(s)
    ensures Inv(s)
  {
    forall c: Class ensures Pending(s.producers, c) == 0 {
      PendingNone(s.producers, c);
    }
  }

  lemma {:induction false} PendingNone(ps: seq<Producer>, c: Class)
    requires forall p :: 0 <= p < |ps| ==> !ps[p].Between?
    ensures Pending(ps, c) == 0
  {
    if ps != [] {
      PendingNone(ps[..|ps| - 1], c);
    }
  }

  lemma {:induction false} InvRun(s: State, steps: seq<Step>)
    requires Inv(s) && IsRun(s, steps)
    ensures Inv(Run(s, steps))
    decreases |steps|
  {
    if steps != [] {
      InvNext(s, steps[0]);
      InvRun(Next(s, steps[0]), steps[1..]);
    }
  }
}
