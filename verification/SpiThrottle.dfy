/** The throttle command the SPI driver puts in every header it writes. */
module SpiThrottle {
  import opened Transport
  import opened RxPath
  import RxSchedule

  /** The flag after one load has been examined; the low threshold is tested last. */
  function Examined(cfg: Config, on: bool, load: Byte): bool
  {
    if load < cfg.low then false else if load > cfg.high then true else on
  }

  /** The flag after the loads examined so far. */
  function Flag(cfg: Config, loads: seq<Byte>): bool
  {
    loads != [] && Examined(cfg, Flag(cfg, loads[..|loads| - 1]), loads[|loads| - 1])
  }

  /** Loads between the last one over the high threshold and now, none under the low. */
  ghost predicate HeldSince(cfg: Config, loads: seq<Byte>, i: nat)
  {
    i < |loads| && loads[i] > cfg.high && forall j :: i <= j < |loads| ==> loads[j] >= cfg.low
  }

  /** Hysteresis: the host is told to hold back exactly if some load exceeded the high
      threshold and neither it nor any later one was under the low threshold. */
  lemma {:induction false} HysteresisExactly(cfg: Config, loads: seq<Byte>)
    ensures Flag(cfg, loads) <==> exists i: nat :: HeldSince(cfg, loads, i)
  {
    if loads != [] {
      var last := |loads| - 1;
      var before := loads[..last];
      HysteresisExactly(cfg, before);
      if Flag(cfg, loads) {
        if loads[last] > cfg.high {
          assert HeldSince(cfg, loads, last);
        } else {
          var i: nat :| HeldSince(cfg, before, i);
          assert HeldSince(cfg, loads, i);
        }
      }
      if i: nat :| HeldSince(cfg, loads, i) {
        assert loads[last] >= cfg.low;
        if i < last {
          assert HeldSince(cfg, before, i);
        }
      }
    }
  }

  /** A header written while nothing waits tells the host to go on, if the low threshold
      is at least 1. */
  lemma EmptyQueueReleases(cfg: Config, loads: seq<Byte>)
    requires cfg.q >= 1 && cfg.low >= 1
    ensures !Flag(cfg, loads + [LoadPercent(0, cfg.q)])
  {
    PercentFits(0, cfg.q);
    assert (loads + [0])[..|loads|] == loads;
  }

  class ThrottleState {
    const cfg: Config
    var currentThrottling: bool
    ghost var loads: seq<Byte>     // in percent, at each call

    ghost predicate Valid()
      reads this
    {
      cfg.q >= 1 && currentThrottling == Flag(cfg, loads)
    }

    constructor (cfg: Config)
      requires cfg.q >= 1
      ensures Valid() && this.cfg == cfg && loads == []
    {
      this.cfg, currentThrottling, loads := cfg, false, [];
    }

    /** find_wifi_tx_throttling_to_be_set, given the length of the OTHERS queue. */
    method FindWifiTxThrottling(queueLoad: nat) returns (cmd: nat)
      requires Valid()
      modifies this
      ensures Valid()
      ensures loads == if cfg.high == 0 then old(loads) else old(loads) + [LoadPercent(queueLoad, cfg.q)]
      ensures cmd == if cfg.high > 0 && Flag(cfg, loads) then 1 else 0
      ensures cfg.high > 0 && queueLoad <= cfg.q ==>
        cmd == if 100 * queueLoad < cfg.q * cfg.low then 0
               else if 100 * queueLoad >= cfg.q * (cfg.high + 1) then 1
               else if old(currentThrottling) then 1 else 0
    {
      if cfg.high == 0 {
        return 0;
      }
      var loadPercent := LoadPercent(queueLoad, cfg.q);
      if queueLoad <= cfg.q {
        RxSchedule.PercentMeans(queueLoad, cfg.q, cfg.high);
        RxSchedule.PercentMeans(queueLoad, cfg.q, cfg.low);
      }
      assert (loads + [loadPercent])[..|loads|] == loads;
      loads := loads + [loadPercent];
      if loadPercent > cfg.high {
        currentThrottling := true;
      }
      if loadPercent < cfg.low {
        currentThrottling := false;
      }
      cmd := if currentThrottling then 1 else 0;
    }
  }
}
