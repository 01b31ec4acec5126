/** When a published serial buffer really overtakes the others: which serial buffers are
    still queued when send_task takes the token of another class. */
module SendOrder {
  import opened Transport
  import opened SendPath
  import opened SendPathProof

  // ----- places in the push history -----

  /** The place (counted from 1) of the last buffer of call m; 0 if there is none. */
  function LastPlace(bs: seq<Buffer>, m: nat): (k: nat)
    ensures k <= |bs| && (k > 0 ==> bs[k - 1].call == m)
    ensures forall i :: k <= i < |bs| ==> bs[i].call != m
  {
    if bs == [] then 0
    else if bs[|bs| - 1].call == m then |bs|
    else LastPlace(bs[..|bs| - 1], m)
  }

  predicate IsBetween(pr: Producer, c: Class) { pr.Between? && pr.cls == c }

  /** Where the buffers stand that the first n producers pushed without their token yet. */
  ghost function PlacesUpTo(ps: seq<Producer>, bs: seq<Buffer>, c: Class, n: nat): set<nat>
    requires n <= |ps|
  {
    set p | 0 <= p < n && IsBetween(ps[p], c) :: LastPlace(bs, ps[p].call)
  }

  ghost function Unpublished(s: State, c: Class): set<nat>
    requires Shaped(s)
  {
    PlacesUpTo(s.producers, s.pushed[c], c, |s.producers|)
  }

  /** How many buffers of class c send_task has received so far. */
  function Received(s: State, c: Class): nat
    requires Shaped(s)
  {
    |s.handled[c]| + |InHand(s.consumer, c)|
  }

  function Range(from: nat, to: nat): (r: set<nat>)
    ensures forall k: nat :: k in r <==> from < k <= to
    ensures from <= to ==> |r| == to - from
  {
    if to <= from then {} else Range(from, to - 1) + {to}
  }

  /** The places of the buffers waiting in the data queue of class c. */
  ghost function Queued(s: State, c: Class): set<nat>
    requires Shaped(s)
  {
    Range(Received(s, c), |s.pushed[c]|)
  }

  // ----- counting places -----

  ghost predicate CallsDiffer(ps: seq<Producer>)
  {
    forall p, q :: 0 <= p < q < |ps| && !ps[p].Idle? && !ps[q].Idle? ==> ps[p].call != ps[q].call
  }

  /** A producer between its two pushes has pushed something. */
  ghost predicate MarkedAt(s: State, p: nat)
    requires Shaped(s) && p < |s.producers|
  {
    var pr := s.producers[p];
    pr.Between? ==> LastPlace(s.pushed[pr.cls], pr.call) > 0
  }

  ghost predicate Marked(s: State)
    requires Shaped(s)
  {
    forall p :: 0 <= p < |s.producers| ==> MarkedAt(s, p)
  }

  /** Distinct producers stand at distinct places. */
  lemma {:induction false} PlacesCount(ps: seq<Producer>, bs: seq<Buffer>, c: Class, n: nat)
    requires n <= |ps| && CallsDiffer(ps)
    requires forall p :: 0 <= p < n && IsBetween(ps[p], c) ==> LastPlace(bs, ps[p].call) > 0
    ensures |PlacesUpTo(ps, bs, c, n)| == Pending(ps[..n], c)
  {
    if n > 0 {
      PlacesCount(ps, bs, c, n - 1);
      assert ps[..n][..n - 1] == ps[..n - 1];
      PlacesStep(ps, bs, c, n - 1);
    } else {
      assert PlacesUpTo(ps, bs, c, 0) == {};
    }
  }

  lemma PlacesStep(ps: seq<Producer>, bs: seq<Buffer>, c: Class, n: nat)
    requires n < |ps| && CallsDiffer(ps)
    requires IsBetween(ps[n], c) ==> LastPlace(bs, ps[n].call) > 0
    ensures var place := LastPlace(bs, if IsBetween(ps[n], c) then ps[n].call else 0);
      && (IsBetween(ps[n], c) ==>
            && place !in PlacesUpTo(ps, bs, c, n)
            && PlacesUpTo(ps, bs, c, n + 1) == PlacesUpTo(ps, bs, c, n) + {place})
      && (!IsBetween(ps[n], c) ==> PlacesUpTo(ps, bs, c, n + 1) == PlacesUpTo(ps, bs, c, n))
  {
    if IsBetween(ps[n], c) {
      forall p | 0 <= p < n && IsBetween(ps[p], c)
        ensures LastPlace(bs, ps[p].call) != LastPlace(bs, ps[n].call)
      {
        assert ps[p].call != ps[n].call;
      }
    }
  }

  lemma SplitSize(a: set<nat>, b: set<nat>)
    ensures |a| == |a - b| + |a * b|
  {
    assert a == (a - b) + (a * b);
  }

  /** In one state: what waits published is announced by tokens, or stands in for buffers
      that were taken before their own token was pushed. */
  lemma PublishedCount(s: State, c: Class)
    requires Shaped(s) && CountedAt(s, c) && FifoAt(s, c) && CallsKept(s) && Marked(s)
    ensures |Queued(s, c) - Unpublished(s, c)|
         == multiset(s.meta)[c] + Held(s.consumer, c) + |Unpublished(s, c) - Queued(s, c)|
  {
    var q, u := Queued(s, c), Unpublished(s, c);
    forall p | 0 <= p < |s.producers| && IsBetween(s.producers[p], c)
      ensures LastPlace(s.pushed[c], s.producers[p].call) > 0
    {
      assert MarkedAt(s, p);
    }
    PlacesCount(s.producers, s.pushed[c], c, |s.producers|);
    assert s.producers[..|s.producers|] == s.producers;
    SplitSize(q, u);
    SplitSize(u, q);
    assert q * u == u * q;
  }

  // ----- every run keeps the marks -----

  lemma {:induction false} PlaceKept(bs: seq<Buffer>, b: Buffer, m: nat)
    ensures LastPlace(bs + [b], m) == if b.call == m then |bs| + 1 else LastPlace(bs, m)
  {
    assert (bs + [b])[..|bs|] == bs;
  }

  lemma MarkedNext(s: State, st: Step)
    requires Inv(s) && Marked(s) && Enabled(s, st)
    ensures Shaped(Next(s, st)) && Marked(Next(s, st))
  {
    ShapedNext(s, st);
    var t := Next(s, st);
    forall p | 0 <= p < |t.producers| ensures MarkedAt(t, p) {
      assert MarkedAt(s, p);
      if st.PushData? {
        MarkedPushData(s, st.p, p);
      }
    }
  }

  lemma MarkedPushData(s: State, p: nat, q: nat)
    requires Inv(s) && Enabled(s, PushData(p)) && q < |s.producers| && MarkedAt(s, q)
    ensures Shaped(Next(s, PushData(p))) && MarkedAt(Next(s, PushData(p)), q)
  {
    assert ProducerKept(s, s.producers[p]);
    PushedBelongs(s, p);
    var b := s.producers[p].left[0];
    var pr := Next(s, PushData(p)).producers[q];
    if pr.Between? {
      PlaceKept(s.pushed[b.cls], b, pr.call);
    }
  }

  lemma {:induction false} MarkedRun(s: State, steps: seq<Step>)
    requires Inv(s) && Marked(s) && IsRun(s, steps)
    ensures Inv(Run(s, steps)) && Marked(Run(s, steps))
    decreases |steps|
  {
    if steps != [] {
      InvNext(s, steps[0]);
      MarkedNext(s, steps[0]);
      MarkedRun(Next(s, steps[0]), steps[1..]);
    }
  }

  /** In every reachable state, for every class: the published buffers in the data queue
      number the tokens of the class, queued or held, plus the producers whose buffer was
      received before they pushed their token. */
  lemma PublishedBuffersCounted(s0: State, steps: seq<Step>, c: Class)
    requires Init(s0) && IsRun(s0, steps)
    ensures var s := Run(s0, steps);
      && Shaped(s)
      && |Queued(s, c) - Unpublished(s, c)|
         == multiset(s.meta)[c] + Held(s.consumer, c) + |Unpublished(s, c) - Queued(s, c)|
  {
    InvInit(s0);
    MarkedRun(s0, steps);
    var s := Run(s0, steps);
    assert CountedAt(s, c) && FifoAt(s, c);
    PublishedCount(s, c);
  }

  // ----- the exact condition for overtaking -----

  /** If send_task can take the token of another class, every serial buffer still queued is
      the one some producer has just pushed and not yet published. */
  ghost predicate Overtaken(s: State)
    requires Shaped(s)
  {
    Enabled(s, TakeToken) && s.meta[0] != SERIAL ==> Queued(s, SERIAL) <= Unpublished(s, SERIAL)
  }

  /** At such a moment it holds exactly if send_task has received no buffer whose producer
      has still to push the token for it. */
  lemma OvertakenExactly(s0: State, steps: seq<Step>)
    requires Init(s0) && IsRun(s0, steps)
    requires var s := Run(s0, steps); Enabled(s, TakeToken) && s.meta[0] != SERIAL
    ensures var s := Run(s0, steps);
      Shaped(s) && (Overtaken(s) <==> Unpublished(s, SERIAL) <= Queued(s, SERIAL))
  {
    InvInit(s0);
    InvRun(s0, steps);
    PublishedBuffersCounted(s0, steps, SERIAL);
    var s := Run(s0, steps);
    NoSerialToken(s.meta);
    var q, u := Queued(s, SERIAL), Unpublished(s, SERIAL);
    NoneLeft(q - u);
    NoneLeft(u - q);
    assert q <= u <==> q - u == {};
    assert u <= q <==> u - q == {};
  }

  lemma NoSerialToken(meta: seq<Class>)
    requires SerialFirst(meta) && (meta == [] || meta[0] != SERIAL)
    ensures multiset(meta)[SERIAL] == 0
  {
  }

  lemma NoneLeft(a: set<nat>)
    ensures |a| == 0 <==> a == {}
  {
  }

  /** The producers that ever send serial buffers in a run. */
  ghost predicate SerialFrom(steps: seq<Step>, senders: set<nat>)
  {
    forall st :: st in steps && st.Begin? && st.bufs != [] && st.bufs[0].cls == SERIAL ==> st.p in senders
  }

  /** The producers that ever send buffers of the other classes. */
  ghost predicate OthersFrom(steps: seq<Step>, others: set<nat>)
  {
    forall st :: st in steps && st.Begin? && st.bufs != [] && st.bufs[0].cls != SERIAL ==> st.p in others
  }

  /** Overtaking in every run of a system of this size with these senders. */
  ghost predicate AlwaysOvertakes(n: nat, tasks: nat, senders: set<nat>, others: set<nat>)
  {
    forall s0, steps ::
      Init(s0) && s0.n == n && |s0.producers| == tasks && IsRun(s0, steps)
      && SerialFrom(steps, senders) && OthersFrom(steps, others)
      ==> Shaped(Run(s0, steps)) && Overtaken(Run(s0, steps))
  }

  ghost predicate OneSender(tasks: nat, senders: set<nat>)
  {
    forall a, b :: a in senders && b in senders && a < tasks && b < tasks ==> a == b
  }

  ghost predicate NoSender(tasks: nat, others: set<nat>)
  {
    forall o :: o in others ==> o >= tasks
  }

  /** A published serial buffer overtakes every other one in all runs exactly if at most one
      task sends serial buffers, or none sends any other, or the data queue has room for
      only one. */
  lemma OvertakesExactly(n: nat, tasks: nat, senders: set<nat>, others: set<nat>)
    requires n >= 1
    ensures AlwaysOvertakes(n, tasks, senders, others)
       <==> n == 1 || OneSender(tasks, senders) || NoSender(tasks, others)
  {
    if n == 1 || OneSender(tasks, senders) || NoSender(tasks, others) {
      forall s0, steps | Init(s0) && s0.n == n && |s0.producers| == tasks && IsRun(s0, steps)
                         && SerialFrom(steps, senders) && OthersFrom(steps, others)
        ensures Shaped(Run(s0, steps)) && Overtaken(Run(s0, steps))
      {
        InvInit(s0);
        if NoSender(tasks, others) {
          OnlySerialRun(s0, steps, others);
          OnlySerialOvertakes(Run(s0, steps));
        } else {
          SoloRun(s0, steps, senders);
          SoloOvertakes(Run(s0, steps), senders);
        }
      }
    } else {
      var a, b :| a in senders && b in senders && a < tasks && b < tasks && a != b;
      var o :| o in others && o < tasks;
      var s0, steps := NotOvertaken(n, tasks, if o == a then b else a, if o == a then a else b, o);
      assert SerialFrom(steps, senders) && OthersFrom(steps, others);
      assert Shaped(Run(s0, steps)) && !Overtaken(Run(s0, steps));
    }
  }

  // ----- no other class at all -----

  ghost predicate OnlySerial(s: State)
  {
    forall m :: m in s.calls ==> s.calls[m] != [] && s.calls[m][0].cls == SERIAL
  }

  lemma {:induction false} OnlySerialRun(s: State, steps: seq<Step>, others: set<nat>)
    requires Inv(s) && OnlySerial(s) && IsRun(s, steps)
    requires NoSender(|s.producers|, others) && OthersFrom(steps, others)
    ensures Inv(Run(s, steps)) && OnlySerial(Run(s, steps))
    decreases |steps|
  {
    if steps != [] {
      InvNext(s, steps[0]);
      assert steps[0] in steps;
      assert OthersFrom(steps[1..], others);
      OnlySerialRun(Next(s, steps[0]), steps[1..], others);
    }
  }

  lemma OnlySerialOvertakes(s: State)
    requires Inv(s) && OnlySerial(s)
    ensures Overtaken(s)
  {
    if s.meta != [] && s.meta[0] != SERIAL {
      var c := s.meta[0];
      assert CountedAt(s, c) && FifoAt(s, c) && s.queues[c] != [];
      InFlightKnown(s, c, s.queues[c][0]);
      assert false;
    }
  }

  // ----- one serial producer at a time -----

  ghost predicate Within(s: State, senders: set<nat>)
    requires Shaped(s)
  {
    forall p :: 0 <= p < |s.producers| && IsSerial(s, s.producers[p]) ==> p in senders
  }

  predicate IsSerial(s: State, pr: Producer)
  {
    !pr.Idle? && pr.call in s.calls && s.calls[pr.call] != [] && s.calls[pr.call][0].cls == SERIAL
  }

  ghost predicate LastIsMine(s: State)
    requires Shaped(s)
  {
    forall p :: 0 <= p < |s.producers| && IsBetween(s.producers[p], SERIAL)
      ==> LastPlace(s.pushed[SERIAL], s.producers[p].call) == |s.pushed[SERIAL]|
  }

  ghost predicate Solo(s: State, senders: set<nat>)
    requires Shaped(s)
  {
    LastIsMine(s) && (s.n == 1 || (OneSender(|s.producers|, senders) && Within(s, senders)))
  }

  lemma {:induction false} PendingTwo(ps: seq<Producer>, c: Class, p: nat, q: nat)
    requires p < q < |ps| && IsBetween(ps[p], c) && IsBetween(ps[q], c)
    ensures Pending(ps, c) >= 2
  {
    var idle := Idle;
    PendingUpdate(ps, q, idle, c);
    PendingUpdate(ps[q := idle], p, idle, c);
  }

  /** At most one producer is between the pushes of a serial buffer. */
  lemma SoloPending(s: State, senders: set<nat>, p: nat, q: nat)
    requires Shaped(s) && CountedAt(s, SERIAL) && CallsKept(s)
    requires s.n == 1 || (OneSender(|s.producers|, senders) && Within(s, senders))
    requires p < |s.producers| && q < |s.producers|
    requires IsBetween(s.producers[p], SERIAL) && IsBetween(s.producers[q], SERIAL)
    ensures p == q
  {
    if p != q {
      if s.n == 1 {
        PendingTwo(s.producers, SERIAL, if p < q then p else q, if p < q then q else p);
      } else {
        assert ProducerKept(s, s.producers[p]) && ProducerKept(s, s.producers[q]);
        assert IsSerial(s, s.producers[p]) && IsSerial(s, s.producers[q]);
      }
    }
  }

  lemma WithinNext(s: State, st: Step, senders: set<nat>)
    requires Inv(s) && Within(s, senders) && Enabled(s, st) && SerialFrom([st], senders)
    ensures Shaped(Next(s, st)) && Within(Next(s, st), senders)
  {
    ShapedNext(s, st);
    var t := Next(s, st);
    forall p | 0 <= p < |t.producers| && IsSerial(t, t.producers[p]) ensures p in senders {
      if st.Begin? && st.p == p {
        assert st in [st];
      } else {
        assert !s.producers[p].Idle? && ProducerKept(s, s.producers[p]);
        assert IsSerial(s, s.producers[p]);
      }
    }
  }

  lemma LastIsMineNext(s: State, st: Step, senders: set<nat>)
    requires Inv(s) && LastIsMine(s) && Enabled(s, st) && Inv(Next(s, st))
    requires var t := Next(s, st);
      t.n == 1 || (OneSender(|t.producers|, senders) && Within(t, senders))
    ensures LastIsMine(Next(s, st))
  {
    var t := Next(s, st);
    if st.PushData? {
      LastIsMinePushData(s, st.p, senders);
    } else {
      forall p | 0 <= p < |t.producers| && IsBetween(t.producers[p], SERIAL)
        ensures LastPlace(t.pushed[SERIAL], t.producers[p].call) == |t.pushed[SERIAL]|
      {
        assert IsBetween(s.producers[p], SERIAL);
      }
    }
  }

  lemma LastIsMinePushData(s: State, p: nat, senders: set<nat>)
    requires Inv(s) && LastIsMine(s) && Enabled(s, PushData(p)) && Inv(Next(s, PushData(p)))
    requires var t := Next(s, PushData(p));
      t.n == 1 || (OneSender(|t.producers|, senders) && Within(t, senders))
    ensures LastIsMine(Next(s, PushData(p)))
  {
    var t := Next(s, PushData(p));
    var b := s.producers[p].left[0];
    assert ProducerKept(s, s.producers[p]);
    PushedBelongs(s, p);
    PlaceKept(s.pushed[b.cls], b, b.call);
    forall q | 0 <= q < |t.producers| && IsBetween(t.producers[q], SERIAL)
      ensures LastPlace(t.pushed[SERIAL], t.producers[q].call) == |t.pushed[SERIAL]|
    {
      if b.cls == SERIAL {
        assert CountedAt(t, SERIAL);
        SoloPending(t, senders, p, q);
      } else {
        assert IsBetween(s.producers[q], SERIAL);
      }
    }
  }

  lemma {:induction false} SoloRun(s: State, steps: seq<Step>, senders: set<nat>)
    requires Inv(s) && Solo(s, senders) && IsRun(s, steps) && SerialFrom(steps, senders)
    ensures Inv(Run(s, steps)) && Solo(Run(s, steps), senders)
    decreases |steps|
  {
    if steps != [] {
      var st := steps[0];
      InvNext(s, st);
      assert SerialFrom([st], senders) && SerialFrom(steps[1..], senders);
      if s.n != 1 {
        WithinNext(s, st, senders);
      }
      LastIsMineNext(s, st, senders);
      SoloRun(Next(s, st), steps[1..], senders);
    }
  }

  lemma SoloOvertakes(s: State, senders: set<nat>)
    requires Inv(s) && Solo(s, senders)
    ensures Overtaken(s)
  {
    if Enabled(s, TakeToken) && s.meta[0] != SERIAL {
      assert CountedAt(s, SERIAL) && FifoAt(s, SERIAL);
      NoSerialToken(s.meta);
      if Pending(s.producers, SERIAL) > 0 {
        var p := PendingSome(s.producers, SERIAL);
        SoloCount(s, senders, p);
        assert LastPlace(s.pushed[SERIAL], s.producers[p].call) in Unpublished(s, SERIAL);
      }
    }
  }

  lemma SoloCount(s: State, senders: set<nat>, p: nat)
    requires Shaped(s) && CountedAt(s, SERIAL) && CallsKept(s)
    requires s.n == 1 || (OneSender(|s.producers|, senders) && Within(s, senders))
    requires p < |s.producers| && IsBetween(s.producers[p], SERIAL)
    ensures Pending(s.producers, SERIAL) == 1
  {
    PendingUpdate(s.producers, p, Idle, SERIAL);
    var rest := s.producers[p := Idle];
    if Pending(rest, SERIAL) > 0 {
      var q := PendingSome(rest, SERIAL);
      SoloPending(s, senders, p, q);
    }
  }

  // ----- the run with two serial senders -----

  lemma {:induction false} RunExtend(s: State, steps: seq<Step>, st: Step)
    requires Shaped(s) && IsRun(s, steps) && Shaped(Run(s, steps)) && Enabled(Run(s, steps), st)
    ensures IsRun(s, steps + [st]) && Run(s, steps + [st]) == Next(Run(s, steps), st)
    decreases |steps|
  {
    ShapedNext(Run(s, steps), st);
    if steps == [] {
      assert IsRun(Next(s, st), []);
    } else {
      RunExtend(Next(s, steps[0]), steps[1..], st);
      assert (steps + [st])[1..] == steps[1..] + [st];
    }
  }

  /** Who may send what. */
  datatype Roles = Roles(senders: set<nat>, others: set<nat>)

  ghost predicate Keeps(steps: seq<Step>, r: Roles)
  {
    SerialFrom(steps, r.senders) && OthersFrom(steps, r.others)
  }

  /** t is reached from s0 by steps that keep to the roles. */
  ghost predicate Reached(s0: State, steps: seq<Step>, t: State, r: Roles)
  {
    Init(s0) && IsRun(s0, steps) && Run(s0, steps) == t && Shaped(t) && Keeps(steps, r)
  }

  lemma Go(s0: State, steps: seq<Step>, s: State, r: Roles, st: Step)
    returns (steps': seq<Step>, t: State)
    requires Reached(s0, steps, s, r) && Enabled(s, st) && Keeps([st], r)
    ensures Reached(s0, steps', t, r) && t == Next(s, st)
  {
    RunExtend(s0, steps, st);
    ShapedNext(s, st);
    KeepsBoth(steps, [st], r);
    steps', t := steps + [st], Next(s, st);
  }

  lemma KeepsBoth(a: seq<Step>, b: seq<Step>, r: Roles)
    requires Keeps(a, r) && Keeps(b, r)
    ensures Keeps(a + b, r)
  {
  }

  function Single(c: Class, m: nat): Buffer { Buffer(c, m, false, [], 0, false) }

  /** A producer begins a call of one buffer and pushes the data. */
  lemma PushOne(s0: State, steps: seq<Step>, s: State, r: Roles, p: nat, c: Class, m: nat)
    returns (steps': seq<Step>, t: State)
    requires Reached(s0, steps, s, r) && p < |s.producers| && s.producers[p].Idle? && m !in s.calls
    requires |s.queues[c]| < s.n && p in (if c == SERIAL then r.senders else r.others)
    ensures Reached(s0, steps', t, r)
    ensures t.producers == s.producers[p := Between(m, [], c)] && t.calls == s.calls[m := [Single(c, m)]]
    ensures t.queues == s.queues[c := s.queues[c] + [Single(c, m)]]
    ensures t.pushed == s.pushed[c := s.pushed[c] + [Single(c, m)]]
    ensures t.n == s.n && t.meta == s.meta && t.consumer == s.consumer && t.handled == s.handled
    ensures t.datapath == s.datapath
  {
    var bufs := [Single(c, m)];
    assert OneCall(bufs, m, c);
    var u;
    steps', u := Go(s0, steps, s, r, Begin(p, bufs));
    assert u.producers[p] == Sending(m, bufs) && bufs[1..] == [];
    steps', t := Go(s0, steps', u, r, PushData(p));
    assert t.producers == s.producers[p := Between(m, [], c)];
  }

  lemma PushItsToken(s0: State, steps: seq<Step>, s: State, r: Roles, p: nat)
    returns (steps': seq<Step>, t: State)
    requires Reached(s0, steps, s, r) && p < |s.producers| && |s.meta| < 3 * s.n
    requires s.producers[p].Between? && s.producers[p].left == []
    ensures Reached(s0, steps', t, r)
    ensures t == s.(producers := s.producers[p := Idle], meta := AddToken(s.meta, s.producers[p].cls))
  {
    steps', t := Go(s0, steps, s, r, PushToken(p));
  }

  /** send_task runs one round on the serial token at the front. */
  lemma ServeOne(s0: State, steps: seq<Step>, s: State, r: Roles, b: Buffer)
    returns (steps': seq<Step>, t: State)
    requires Reached(s0, steps, s, r) && s.consumer.Top? && s.datapath
    requires s.meta != [] && s.meta[0] == SERIAL && s.queues[SERIAL] != [] && s.queues[SERIAL][0] == b
    requires b.cls == SERIAL
    ensures Reached(s0, steps', t, r)
    ensures t.consumer == Waiting && t.meta == s.meta[1..] && t.producers == s.producers
    ensures t.queues[SERIAL] == s.queues[SERIAL][1..] && t.pushed == s.pushed
    ensures |t.handled[SERIAL]| == |s.handled[SERIAL]| + 1
  {
    var u;
    steps', u := Go(s0, steps, s, r, CheckDatapath);
    steps', u := Go(s0, steps', u, r, TakeToken);
    steps', u := Go(s0, steps', u, r, TakeData);
    assert u.consumer == HasBuffer(b);
    steps', u := Go(s0, steps', u, r, Process);
    steps', u := Go(s0, steps', u, r, Release);
    steps', t := Go(s0, steps', u, r, CheckDatapath);
  }

  /** Task a stops between its pushes; task b publishes a serial buffer; task o, any but a,
      publishes a buffer of another class; send_task takes b's token and gets a's buffer. Now
      b's serial buffer is published, and the token of the other class comes first. */
  lemma NotOvertaken(n: nat, tasks: nat, a: nat, b: nat, o: nat) returns (s0: State, steps: seq<Step>)
    requires n >= 2 && a < tasks && b < tasks && o < tasks && a != b && o != a
    ensures Init(s0) && s0.n == n && |s0.producers| == tasks && IsRun(s0, steps)
    ensures SerialFrom(steps, {a, b}) && OthersFrom(steps, {o})
    ensures var s := Run(s0, steps);
      && Shaped(s) && !Overtaken(s)
      && s.meta == [OTHERS] && s.queues[SERIAL] == [Single(SERIAL, 1)] && |s.producers| == tasks
      && forall p :: 0 <= p < tasks && p != a ==> s.producers[p].Idle?
  {
    var r := Roles({a, b}, {o});
    var idle := seq(tasks, _ => Idle);
    s0 := State(n, true, [], [[], [], []], idle, Top, map[],
                [[], [], []], [[], [], []], [[], [], []], [], false);
    var s;
    steps, s := BothPush(s0, a, b, r);
    steps, s := PushOne(s0, steps, s, r, o, OTHERS, 2);
    steps, s := PushItsToken(s0, steps, s, r, o);
    assert s.meta == [SERIAL, OTHERS];
    steps, s := ServeOne(s0, steps, s, r, Single(SERIAL, 0));
    assert s.queues[SERIAL] == [Single(SERIAL, 1)] && s.meta == [OTHERS];
    SecondIsPublished(s, a);
  }

  lemma BothPush(s0: State, a: nat, b: nat, r: Roles) returns (steps: seq<Step>, s: State)
    requires Init(s0) && s0.n >= 2 && a < |s0.producers| && b < |s0.producers| && a != b && s0.datapath
    requires r.senders == {a, b}
    ensures Reached(s0, steps, s, r) && s.n == s0.n && s.datapath && s.consumer == Top
    ensures s.producers == s0.producers[a := Between(0, [], SERIAL)] && s.meta == [SERIAL]
    ensures s.queues == [[Single(SERIAL, 0), Single(SERIAL, 1)], [], []] == s.pushed
    ensures s.handled == [[], [], []] && 2 !in s.calls
  {
    assert Reached(s0, [], s0, r);
    steps, s := PushOne(s0, [], s0, r, a, SERIAL, 0);
    assert s0.queues[SERIAL] + [Single(SERIAL, 0)] == [Single(SERIAL, 0)];
    assert s.queues == [[Single(SERIAL, 0)], [], []] && s.pushed == [[Single(SERIAL, 0)], [], []];
    steps, s := PushOne(s0, steps, s, r, b, SERIAL, 1);
    assert [Single(SERIAL, 0)] + [Single(SERIAL, 1)] == [Single(SERIAL, 0), Single(SERIAL, 1)];
    assert s.producers[b] == Between(1, [], SERIAL);
    steps, s := PushItsToken(s0, steps, s, r, b);
    assert s.producers == s0.producers[a := Between(0, [], SERIAL)];
  }

  lemma SecondIsPublished(s: State, a: nat)
    requires Shaped(s) && s.consumer == Waiting && s.meta == [OTHERS] && |s.handled[SERIAL]| == 1
    requires s.pushed[SERIAL] == [Single(SERIAL, 0), Single(SERIAL, 1)]
    requires a < |s.producers| && s.producers[a] == Between(0, [], SERIAL)
    requires forall p :: 0 <= p < |s.producers| && p != a ==> s.producers[p].Idle?
    ensures !Overtaken(s)
  {
    var pushed := s.pushed[SERIAL];
    assert pushed[..1] == [Single(SERIAL, 0)];
    assert LastPlace(pushed, 0) == 1;
    assert 2 in Queued(s, SERIAL) && 2 !in Unpublished(s, SERIAL);
  }
}
