/** The order in which the SPI driver looks into its queues. */
module SpiPolls {
  import opened Transport
  import opened Mailbox
  import opened SpiDriver

  /** Frames of class d that writers put in the transmit queue in a run. */
  ghost function Enqueued(s: State, steps: seq<Step>, d: Class): nat
    requires Ready(s) && IsRun(s, steps)
    decreases |steps|
  {
    if steps == [] then 0
    else
      var st := steps[0];
      (if st.Write? && st.write.WEnqueue? && s.writers[st.w].cls == d then 1 else 0)
      + Enqueued(Next(s, st), steps[1..], d)
  }

  /** The transmit queue of class d was found empty on the way to the class now polled. */
  predicate TxPassed(s: State, d: Class)
    requires Ready(s)
  {
    s.post.Polling? && d < s.post.cls ==> s.tx.queues[d] == []
  }

  predicate RxPassed(s: State, d: Class)
    requires Ready(s)
  {
    s.reader.Receiving? && d < s.reader.cls ==> s.rx.queues[d] == []
  }

  lemma TxPassedNext(s: State, st: Step, d: Class)
    requires Ready(s) && Enabled(s, st) && TxPassed(s, d) && st != Send(TryTake)
    requires st.Write? && st.write.WEnqueue? ==> s.writers[st.w].cls != d
    ensures TxPassed(Next(s, st), d)
  {
    match st {
      case Write(w, a) =>
      case Send(a) => TxPassedSend(s, a, d);
      case Finish(a) =>
      case Read(a) =>
      case Transfer =>
    }
  }

  lemma TxPassedSend(s: State, a: SendAct, d: Class)
    requires Ready(s) && SendEnabled(s, a) && TxPassed(s, d) && a != TryTake
    ensures TxPassed(SendNext(s, a), d)
  {
  }

  lemma RxPassedNext(s: State, st: Step, d: Class)
    requires Ready(s) && Enabled(s, st) && RxPassed(s, d) && st != Read(RTake) && st != Finish(FileRx(d))
    ensures RxPassed(Next(s, st), d)
  {
    match st {
      case Write(w, a) =>
      case Send(a) =>
      case Finish(a) => RxPassedFinish(s, a, d);
      case Read(a) => RxPassedReader(s, a, d);
      case Transfer =>
    }
  }

  lemma RxPassedFinish(s: State, a: PostAct, d: Class)
    requires Ready(s) && FinishEnabled(s, a) && RxPassed(s, d) && a != FileRx(d)
    ensures RxPassed(FinishNext(s, a), d)
  {
  }

  lemma RxPassedReader(s: State, a: ReaderAct, d: Class)
    requires Ready(s) && ReaderEnabled(s, a) && RxPassed(s, d) && a != RTake
    ensures RxPassed(ReaderNext(s, a), d)
  {
  }

  lemma {:induction false} TxPassedRun(s: State, steps: seq<Step>, d: Class)
    requires Ready(s) && IsRun(s, steps) && TxPassed(s, d)
    requires Send(TryTake) !in steps && Enqueued(s, steps, d) == 0
    ensures TxPassed(Run(s, steps), d)
    decreases |steps|
  {
    if steps != [] {
      TxPassedNext(s, steps[0], d);
      TxPassedRun(Next(s, steps[0]), steps[1..], d);
    }
  }

  lemma {:induction false} RxPassedRun(s: State, steps: seq<Step>, d: Class)
    requires Ready(s) && IsRun(s, steps) && RxPassed(s, d)
    requires Read(RTake) !in steps && Finish(FileRx(d)) !in steps
    ensures RxPassed(Run(s, steps), d)
    decreases |steps|
  {
    if steps != [] {
      RxPassedNext(s, steps[0], d);
      RxPassedRun(Next(s, steps[0]), steps[1..], d);
    }
  }

  /** Serial before Bluetooth before the others, for sending: when the post task, since its
      take, has come to the queue of a class, every queue before it is empty but for frames
      written since. */
  lemma SendsInOrder(s0: State, pre: seq<Step>, since: seq<Step>, d: Class)
    requires Init(s0) && IsRun(s0, pre) && Enabled(Run(s0, pre), Send(TryTake))
    requires Send(TryTake) !in since && IsRun(Next(Run(s0, pre), Send(TryTake)), since)
    requires Enqueued(Next(Run(s0, pre), Send(TryTake)), since, d) == 0
    ensures var s := Run(Next(Run(s0, pre), Send(TryTake)), since);
      s.post.Polling? && d < s.post.cls ==> s.tx.queues[d] == []
  {
    TxPassedRun(Next(Run(s0, pre), Send(TryTake)), since, d);
  }

  /** The same for the reader and the receive queues. */
  lemma ReadsInOrder(s0: State, pre: seq<Step>, since: seq<Step>, d: Class)
    requires Init(s0) && IsRun(s0, pre) && Enabled(Run(s0, pre), Read(RTake))
    requires Read(RTake) !in since && Finish(FileRx(d)) !in since
    requires IsRun(Next(Run(s0, pre), Read(RTake)), since)
    ensures var s := Run(Next(Run(s0, pre), Read(RTake)), since);
      s.reader.Receiving? && d < s.reader.cls ==> s.rx.queues[d] == []
  {
    RxPassedRun(Next(Run(s0, pre), Read(RTake)), since, d);
  }
}
