/** How a throttling command leaves the half-duplex driver: both rx tasks store
    wifi_flow_ctrl and then give a binary semaphore; flow_ctrl_task takes it, reads the
    variable and sends a frame. Runs beside the receive side of RxPath. */
module FlowCtrl {
  import RxPath
  import RxFlow

  datatype Flow = Waiting | Reading | Sending(v: bool)

  datatype State = State(
    rx: RxPath.State,     // rx.told is wifi_flow_ctrl
    triggers: nat,        // stores whose semaphore give is still to come
    sem: bool,            // flow_ctrl_sem, a binary semaphore
    flow: Flow,
    sent: seq<bool>)      // the commands in the frames sent

  datatype Step = Rx(step: RxPath.Step) | Trigger | Take | Read | Send

  predicate Shaped(s: State) { RxPath.Ready(s.rx) }

  predicate Enabled(s: State, st: Step)
    requires Shaped(s)
  {
    match st
    case Rx(step) => RxPath.Enabled(s.rx, step)
    case Trigger => s.triggers > 0
    case Take => s.flow.Waiting? && s.sem
    case Read => s.flow.Reading?
    case Send => s.flow.Sending?
  }

  predicate Stores(step: RxPath.Step) { step.Tell? || step.Untell? }

  function Next(s: State, st: Step): (t: State)
    requires Shaped(s) && Enabled(s, st)
    ensures Shaped(t)
  {
    match st
    case Rx(step) =>
      StaysReady(s.rx, step);
      s.(rx := RxPath.Next(s.rx, step), triggers := s.triggers + if Stores(step) then 1 else 0)
    case Trigger => s.(triggers := s.triggers - 1, sem := true)
    case Take => s.(sem := false, flow := Reading)
    case Read => s.(flow := Sending(s.rx.told))
    case Send => s.(sent := s.sent + [s.flow.v], flow := Waiting)
  }

  lemma StaysReady(rx: RxPath.State, step: RxPath.Step)
    requires RxPath.Ready(rx) && RxPath.Enabled(rx, step)
    ensures RxPath.Ready(RxPath.Next(rx, step))
  {
  }

  predicate Init(s: State)
  {
    RxPath.Init(s.rx) && s.triggers == 0 && !s.sem && s.flow == Waiting && s.sent == []
  }

  ghost predicate IsRun(s: State, steps: seq<Step>)
    requires Shaped(s)
    decreases |steps|
  {
    steps == [] || (Enabled(s, steps[0]) && IsRun(Next(s, steps[0]), steps[1..]))
  }

  ghost function Run(s: State, steps: seq<Step>): (t: State)
    requires Shaped(s) && IsRun(s, steps)
    ensures Shaped(t)
    decreases |steps|
  {
    if steps == [] then s else Run(Next(s, steps[0]), steps[1..])
  }

  /** What the host will have heard last, once the frame in hand is sent; go on, if none. */
  function Heard(s: State): bool
  {
    if s.flow.Sending? then s.flow.v else s.sent != [] && s.sent[|s.sent| - 1]
  }

  /** A value not yet on its way will still be read. */
  predicate Pending(s: State)
  {
    Heard(s) != s.rx.told ==> s.triggers > 0 || s.sem || s.flow.Reading?
  }

  lemma PendingNext(s: State, st: Step)
    requires Shaped(s) && Pending(s) && Enabled(s, st)
    ensures Pending(Next(s, st))
  {
  }

  lemma {:induction false} PendingRun(s: State, steps: seq<Step>)
    requires Shaped(s) && Pending(s) && IsRun(s, steps)
    ensures Pending(Run(s, steps))
    decreases |steps|
  {
    if steps != [] {
      PendingNext(s, steps[0]);
      PendingRun(Next(s, steps[0]), steps[1..]);
    }
  }

  /** No give is due, the semaphore is taken, flow_ctrl_task waits. */
  predicate Quiet(s: State) { s.triggers == 0 && !s.sem && s.flow.Waiting? }

  /** Although the semaphore is binary and stores may come faster than frames, whenever all is
      quiet the last frame carried the value stored last. */
  lemma LastSentIsLastStored(s0: State, steps: seq<Step>)
    requires Init(s0) && IsRun(s0, steps) && Quiet(Run(s0, steps))
    ensures Heard(Run(s0, steps)) == Run(s0, steps).rx.told
  {
    PendingRun(s0, steps);
  }

  function One(b: bool): nat { if b then 1 else 0 }

  /** Stores of wifi_flow_ctrl, and gives of the semaphore, in a schedule. */
  function StoresIn(steps: seq<Step>): nat
  {
    if steps == [] then 0 else One(steps[0].Rx? && Stores(steps[0].step)) + StoresIn(steps[1..])
  }

  function GivesIn(steps: seq<Step>): nat
  {
    if steps == [] then 0 else One(steps[0].Trigger?) + GivesIn(steps[1..])
  }

  /** Frames sent, in hand or called for. */
  function Frames(s: State): nat { |s.sent| + One(!s.flow.Waiting?) + One(s.sem) }

  lemma FramesStep(s: State, st: Step)
    requires Shaped(s) && Enabled(s, st)
    ensures Frames(Next(s, st)) <= Frames(s) + One(st.Trigger?)
    ensures One(st.Trigger?) + Next(s, st).triggers == One(st.Rx? && Stores(st.step)) + s.triggers
  {
  }

  lemma {:induction false} FramesRun(s: State, steps: seq<Step>)
    requires Shaped(s) && IsRun(s, steps)
    ensures Frames(Run(s, steps)) <= Frames(s) + GivesIn(steps)
    ensures GivesIn(steps) + Run(s, steps).triggers == StoresIn(steps) + s.triggers
    decreases |steps|
  {
    if steps != [] {
      FramesStep(s, steps[0]);
      FramesRun(Next(s, steps[0]), steps[1..]);
    }
  }

  /** Each store leads to one give, and no more frames are sent than there were gives. */
  lemma FramesAreCalledFor(s0: State, steps: seq<Step>)
    requires Init(s0) && IsRun(s0, steps)
    ensures GivesIn(steps) + Run(s0, steps).triggers == StoresIn(steps)
    ensures |Run(s0, steps).sent| + One(!Run(s0, steps).flow.Waiting?) + One(Run(s0, steps).sem) <= GivesIn(steps)
  {
    FramesRun(s0, steps);
  }

  // ----- with the receive side -----

  /** The steps of the receive side alone. */
  function RxSteps(steps: seq<Step>): seq<RxPath.Step>
  {
    if steps == [] then []
    else (if steps[0].Rx? then [steps[0].step] else []) + RxSteps(steps[1..])
  }

  lemma {:induction false} RxRuns(s: State, steps: seq<Step>)
    requires Shaped(s) && IsRun(s, steps)
    ensures RxPath.IsRun(s.rx, RxSteps(steps))
    ensures RxPath.Run(s.rx, RxSteps(steps)) == Run(s, steps).rx
    decreases |steps|
  {
    if steps != [] {
      RxRuns(Next(s, steps[0]), steps[1..]);
      if steps[0].Rx? {
        var rest := RxSteps(steps[1..]);
        assert RxSteps(steps)[0] == steps[0].step && RxSteps(steps)[1..] == rest;
      } else {
        assert RxSteps(steps) == RxSteps(steps[1..]);
      }
    }
  }

  /** With all drained and quiet, what the host heard last disagrees with current_throttling
      exactly if a whole stop came between the two stores of the latest start. */
  lemma HostMisledByFrames(s0: State, steps: seq<Step>)
    requires Init(s0) && IsRun(s0, steps) && Quiet(Run(s0, steps)) && RxPath.Idle(Run(s0, steps).rx)
    ensures Heard(Run(s0, steps)) != Run(s0, steps).rx.throttling
       <==> RxFlow.WatchAll(RxFlow.Settled, RxSteps(steps)) == RxFlow.Late
  {
    LastSentIsLastStored(s0, steps);
    RxRuns(s0, steps);
    RxFlow.HostMisledExactly(s0.rx, RxSteps(steps));
  }
}
