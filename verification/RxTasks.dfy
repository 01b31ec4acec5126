/** The receive side as its two tasks run it: queues, semaphore and throttling flag
    updated in place, one method per uninterrupted stretch of a task. */
module RxTasks {
  import opened Transport
  import opened Mailbox
  import opened RxPath

  class RxDriver {
    const cfg: Config
    var queues: seq<seq<Frame>>
    var sem: nat
    var throttling: bool
    var told: bool
    var writer: Writer
    var reader: Reader
    ghost var filed: seq<seq<Frame>>
    ghost var received: seq<seq<Frame>>

    ghost function View(): State
      reads this
    {
      State(cfg, Box(cfg.q, queues, sem), throttling, told, writer, reader, filed, received)
    }

    ghost predicate Ready(st: Step)
      reads this
    {
      RxPath.Ready(View()) && Enabled(View(), st)
    }

    constructor (cfg: Config)
      requires cfg.q >= 1
      ensures Init(View()) && this.cfg == cfg
    {
      this.cfg := cfg;
      queues, sem, throttling, told, writer, reader := [[], [], []], 0, false, false, NoFrame, Resting;
      filed, received := [[], [], []], [[], [], []];
    }

    /** The rx task takes a valid frame from the bus. */
    method FrameArrives(f: Frame)
      requires Ready(Arrive(f))
      modifies this
      ensures View() == Next(old(View()), Arrive(f))
    {
      writer := Testing(f);
    }

    /** start_rx_data_throttling_if_needed, its two early exits. */
    method StartTest()
      requires Ready(Test)
      modifies this
      ensures View() == Next(old(View()), Test)
    {
      var f := writer.f;
      if cfg.high > 0 {
        if throttling {
          writer := Filing(f);
        } else {
          writer := Measuring(f);
        }
      } else {
        writer := Filing(f);
      }
    }

    /** start_rx_data_throttling_if_needed, the queue load. */
    method StartMeasure()
      requires Ready(Measure)
      modifies this
      ensures View() == Next(old(View()), Measure)
    {
      var queueLoad := |queues[OTHERS]|;
      var loadPercent := LoadPercent(queueLoad, cfg.q);
      writer := if loadPercent > cfg.high then Setting(writer.f) else Filing(writer.f);
    }

    /** start_rx_data_throttling_if_needed, the store. */
    method StartThrottling()
      requires Ready(SetFlag)
      modifies this
      ensures View() == Next(old(View()), SetFlag)
    {
      throttling := true;
      writer := Telling(writer.f);
    }

    /** start_rx_data_throttling_if_needed, the command for the host. */
    method TellStart()
      requires Ready(Tell)
      modifies this
      ensures View() == Next(old(View()), Tell)
    {
      told := true;
      writer := Filing(writer.f);
    }

    /** The rx task's xQueueSend into the queue of the frame's class. */
    method FileFrame()
      requires Ready(File)
      modifies this
      ensures View() == Next(old(View()), File)
    {
      var f := writer.f;
      var c := if f.ifType == ESP_SERIAL_IF then SERIAL else if f.ifType == ESP_HCI_IF then BT else OTHERS;
      queues := queues[c := queues[c] + [f]];
      filed := filed[c := filed[c] + [f]];
      writer := Giving;
    }

    method GiveSemaphore()
      requires Ready(Step.Give)
      modifies this
      ensures View() == Next(old(View()), Step.Give)
    {
      if sem < 3 * cfg.q {
        sem := sem + 1;
      }
      writer := NoFrame;
    }

    method TakeSemaphore()
      requires Ready(Step.Take)
      modifies this
      ensures View() == Next(old(View()), Step.Take)
    {
      sem := sem - 1;
      reader := Polling(SERIAL);
    }

    /** One of the reader's three non-blocking receives. */
    method PollQueue()
      requires Ready(Poll)
      modifies this
      ensures View() == Next(old(View()), Poll)
    {
      var c := reader.c;
      if queues[c] != [] {
        received := received[c := received[c] + [queues[c][0]]];
        queues := queues[c := queues[c][1..]];
        reader := Checking;
      } else if c < OTHERS {
        reader := Polling(c + 1);
      } else {
        reader := Failed;
      }
    }

    /** stop_rx_data_throttling_if_needed, its test. */
    method StopTest()
      requires Ready(Check)
      modifies this
      ensures View() == Next(old(View()), Check)
    {
      reader := if throttling then Reading else Resting;
    }

    /** stop_rx_data_throttling_if_needed, the queue load. */
    method StopMeasure()
      requires Ready(Read)
      modifies this
      ensures View() == Next(old(View()), Read)
    {
      var queueLoad := |queues[OTHERS]|;
      reader := if LoadPercent(queueLoad, cfg.q) < cfg.low then Clearing else Resting;
    }

    /** stop_rx_data_throttling_if_needed, the store. */
    method StopThrottling()
      requires Ready(ClearFlag)
      modifies this
      ensures View() == Next(old(View()), ClearFlag)
    {
      throttling := false;
      reader := Untelling;
    }

    /** stop_rx_data_throttling_if_needed, the command for the host. */
    method TellStop()
      requires Ready(Untell)
      modifies this
      ensures View() == Next(old(View()), Untell)
    {
      told := false;
      reader := Resting;
    }

    method Advance(st: Step)
      requires Ready(st)
      modifies this
      ensures View() == Next(old(View()), st)
    {
      match st
      case Arrive(f) => FrameArrives(f);
      case Test => StartTest();
      case Measure => StartMeasure();
      case SetFlag => StartThrottling();
      case Tell => TellStart();
      case File => FileFrame();
      case Give => GiveSemaphore();
      case Take => TakeSemaphore();
      case Poll => PollQueue();
      case Check => StopTest();
      case Read => StopMeasure();
      case ClearFlag => StopThrottling();
      case Untell => TellStop();
    }

    /** Any schedule at all, played on the fields: the reader never comes back without a
        frame, and if the low threshold is set, throttling is off whenever both tasks rest. */
    method Play(steps: seq<Step>)
      requires Init(View()) && IsRun(View(), steps)
      modifies this
      ensures View() == Run(old(View()), steps) && Inv(View())
      ensures !reader.Failed?
      ensures cfg.low >= 1 && Idle(View()) ==> !throttling
    {
      InvInit(View());
      var i := 0;
      while i < |steps|
        invariant 0 <= i <= |steps|
        invariant Inv(View()) && (cfg.low >= 1 ==> Accounted(View()))
        invariant IsRun(View(), steps[i..]) && Run(View(), steps[i..]) == Run(old(View()), steps)
      {
        InvNext(View(), steps[i]);
        if cfg.low >= 1 {
          AccountedNext(View(), steps[i]);
        }
        assert steps[i..][1..] == steps[i + 1..];
        Advance(steps[i]);
        i := i + 1;
      }
    }
  }
}
