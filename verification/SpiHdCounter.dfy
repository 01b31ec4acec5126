/** The SPI half-duplex transmit length register: the slave's callbacks add each loaded
    transaction to a 24-bit counter and raise data-ready; the host's read task fetches the
    difference between the register and its own counter. */
module SpiHdCounter {
  import opened Transport
  import opened Arithmetic

  /** x & SPI_HD_TX_BUF_LEN_MASK, and x & SPI_HD_INT_MASK. */
  function LenBits(x: nat): Word32 { x % 0x100_0000 }

  function IntBits(x: Word32): Word32 { x / 0x100_0000 % 4 * 0x100_0000 }

  datatype Host =
    | Asleep             // waiting for the data-ready semaphore
    | Awake              // about to read the register
    | Read(v: Word32)    // register read, CMD9 not yet sent
    | Cleared(v: Word32) // CMD9 sent, bytes not yet fetched

  datatype State = State(
    size: Word32,        // tx_ready_buf_size
    register: Word32,    // SPI_HD_REG_TX_BUF_LEN as the host reads it
    signalling: bool,    // cb_tx_ready has published, data-ready not yet set
    ready: bool,         // the data-ready line
    sem: nat,            // the host's semaphore, given on each rising edge
    host: Host,
    count: Word32,       // spi_hd_rx_byte_count
    // history
    loaded: nat,         // bytes loaded for the host so far
    fetched: nat,        // bytes the host has read so far
    readAt: nat,         // `loaded` at the host's last register read
    missed: bool,        // something was loaded between that read and its CMD9
    overrun: bool)       // some read met a backlog of 2^24 bytes or more

  datatype Step = TxCount(len: Word32) | TxSignal | Wake | ReadRegister | Cmd9 | Fetch

  /** The two callbacks run in one interrupt handler, so neither interrupts the other. */
  predicate Enabled(s: State, st: Step)
  {
    match st
    case TxCount(_) => !s.signalling
    case TxSignal => s.signalling
    case Wake => s.host.Asleep? && s.sem > 0
    case ReadRegister => s.host.Awake?
    case Cmd9 => s.host.Read? && !s.signalling
    case Fetch => s.host.Cleared?
  }

  /** cb_tx_ready's new value, in 32-bit arithmetic. */
  function Loaded(size: Word32, len: Word32): Word32
  {
    LenBits((LenBits(size) + len) % 0x1_0000_0000) + IntBits(size)
  }

  /** size_to_xfer: the host's 32-bit subtraction, masked. */
  function SizeToXfer(v: Word32, count: Word32): Word32
  {
    LenBits((LenBits(v) - count) % 0x1_0000_0000)
  }

  function Next(s: State, st: Step): State
    requires Enabled(s, st)
  {
    match st
    case TxCount(len) =>
      var size := Loaded(s.size, len);
      s.(size := size, register := size, signalling := true, loaded := s.loaded + len)
    case TxSignal =>
      s.(signalling := false, ready := true, sem := if s.ready then s.sem else s.sem + 1)
    case Wake => s.(sem := s.sem - 1, host := Awake)
    case ReadRegister =>
      s.(host := Read(s.register), readAt := s.loaded, missed := false,
         overrun := s.overrun || s.loaded - s.fetched >= 0x100_0000)
    case Cmd9 =>
      s.(size := LenBits(s.size), ready := false, host := Cleared(s.host.v), missed := s.loaded != s.readAt)
    case Fetch =>
      var size := SizeToXfer(s.host.v, s.count);
      s.(host := Asleep, fetched := s.fetched + size, count := LenBits((s.count + size) % 0x1_0000_0000))
  }

  predicate Init(s: State)
  {
    s == State(0, 0, false, false, 0, Asleep, 0, 0, 0, 0, false, false)
  }

  ghost predicate IsRun(s: State, steps: seq<Step>)
    decreases |steps|
  {
    steps == [] || (Enabled(s, steps[0]) && IsRun(Next(s, steps[0]), steps[1..]))
  }

  ghost function Run(s: State, steps: seq<Step>): State
    requires IsRun(s, steps)
    decreases |steps|
  {
    if steps == [] then s else Run(Next(s, steps[0]), steps[1..])
  }

  // ----- the invariant -----

  /** Every counter is the true byte count modulo 2^24. */
  predicate Counts(s: State)
  {
    && s.size < 0x400_0000
    && LenBits(s.size) == LenBits(s.loaded) == LenBits(s.register)
    && s.count == LenBits(s.fetched)
    && s.fetched <= s.readAt <= s.loaded
    && (s.host.Read? || s.host.Cleared? ==> LenBits(s.host.v) == LenBits(s.readAt))
    && (!s.overrun ==>
         && (s.host.Asleep? || s.host.Awake? ==> s.fetched == s.readAt)
         && s.readAt - s.fetched < 0x100_0000)
  }

  predicate Attending(h: Host) { h.Awake? || h.Read? }

  /** The line is high exactly while one wake-up is pending or being served; and bytes the
      host has not seen in the register are announced, unless a CMD9 wiped the announcement. */
  predicate Signals(s: State)
  {
    && s.sem + (if Attending(s.host) then 1 else 0) == (if s.ready then 1 else 0)
    && (s.missed ==> s.loaded != s.readAt)
    && (s.loaded != s.readAt && !s.host.Read? && !s.missed && !s.signalling ==> s.ready)
  }

  predicate Inv(s: State) { Counts(s) && Signals(s) }

  lemma SumModulo(a: nat, b: nat)
    ensures LenBits((LenBits(a) + b) % 0x1_0000_0000) == LenBits(a + b)
  {
    var x := LenBits(a) + b;
    var y := x % 0x1_0000_0000;
    QuotientIsUnique(0x100_0000, x, 256 * (x / 0x1_0000_0000) + y / 0x100_0000, y % 0x100_0000);
    QuotientIsUnique(0x100_0000, a + b, a / 0x100_0000 + x / 0x100_0000, x % 0x100_0000);
  }

  /** The counter gains the length modulo 2^24; the interrupt bits pass through it. */
  lemma LoadedCounts(size: Word32, loaded: nat, len: Word32)
    requires LenBits(size) == LenBits(loaded)
    ensures LenBits(Loaded(size, len)) == LenBits(loaded + len)
    ensures IntBits(Loaded(size, len)) == IntBits(size) && Loaded(size, len) < 0x400_0000
    ensures Loaded(size, len) % 0x100_0000 == (loaded + len) % 0x100_0000
    ensures Loaded(size, len) / 0x100_0000 == size / 0x100_0000 % 4
  {
    SumModulo(loaded, len);
    var low, k := LenBits((LenBits(size) + len) % 0x1_0000_0000), size / 0x100_0000 % 4;
    assert Loaded(size, len) == 0x100_0000 * k + low;
    QuotientIsUnique(0x100_0000, 0x100_0000 * k + low, k, low);
  }

  /** The masked difference is the backlog modulo 2^24. */
  lemma DifferenceIsBacklog(v: Word32, count: Word32, readAt: nat, fetched: nat)
    requires LenBits(v) == LenBits(readAt) && count == LenBits(fetched) && fetched <= readAt
    ensures SizeToXfer(v, count) == LenBits(readAt - fetched)
  {
    var a, k := LenBits(v), readAt / 0x100_0000 - fetched / 0x100_0000;
    if a >= count {
      QuotientIsUnique(0x100_0000, readAt - fetched, k, a - count);
    } else {
      QuotientIsUnique(0x100_0000, readAt - fetched, k - 1, 0x100_0000 + a - count);
      QuotientIsUnique(0x100_0000, 0x1_0000_0000 + a - count, 255, 0x100_0000 + a - count);
    }
  }

  lemma CountStays(count: Word32, fetched: nat)
    requires count == LenBits(fetched)
    ensures LenBits(count % 0x1_0000_0000) == count
  {
    WithinSpan(count);
  }

  lemma CountsNext(s: State, st: Step)
    requires Counts(s) && Enabled(s, st)
    ensures Counts(Next(s, st))
  {
    match st {
      case TxCount(len) => CountsTxCount(s, len);
      case Fetch => CountsFetch(s);
      case Cmd9 => WithinSpan(LenBits(s.size));
      case _ =>
    }
  }

  lemma CountsTxCount(s: State, len: Word32)
    requires Counts(s) && Enabled(s, TxCount(len))
    ensures Counts(Next(s, TxCount(len)))
  {
    LoadedCounts(s.size, s.loaded, len);
  }

  lemma CountsFetch(s: State)
    requires Counts(s) && s.host.Cleared?
    ensures Counts(Next(s, Fetch))
  {
    DifferenceIsBacklog(s.host.v, s.count, s.readAt, s.fetched);
    WithinSpan(s.readAt - s.fetched);
    SumModulo(s.fetched, SizeToXfer(s.host.v, s.count));
  }

  lemma InvNext(s: State, st: Step)
    requires Inv(s) && Enabled(s, st)
    ensures Inv(Next(s, st))
  {
    CountsNext(s, st);
  }

  lemma {:induction false} InvRun(s: State, steps: seq<Step>)
    requires Inv(s) && IsRun(s, steps)
    ensures Inv(Run(s, steps))
    decreases |steps|
  {
    if steps != [] {
      InvNext(s, steps[0]);
      InvRun(Next(s, steps[0]), steps[1..]);
    }
  }

  // ----- what holds in every interleaving -----

  /** The register counts the loaded bytes modulo 2^24; its bits 26 to 31 stay zero. */
  lemma RegisterCountsBytes(s0: State, steps: seq<Step>)
    requires Init(s0) && IsRun(s0, steps)
    ensures var s := Run(s0, steps);
      s.size < 0x400_0000 && s.size % 0x100_0000 == s.register % 0x100_0000 == s.loaded % 0x100_0000
  {
    InvRun(s0, steps);
  }

  /** A fetch catches up with what was loaded at the register read exactly if the backlog
      was below 2^24 bytes then; it never runs ahead. */
  lemma FetchCatchesUpExactly(s0: State, steps: seq<Step>)
    requires Init(s0) && IsRun(s0, steps) && Enabled(Run(s0, steps), Fetch)
    ensures var s := Run(s0, steps); var t := Next(s, Fetch);
      && t.fetched <= s.readAt
      && (t.fetched == s.readAt <==> s.readAt - s.fetched < 0x100_0000)
  {
    InvRun(s0, steps);
    FetchExactly(Run(s0, steps));
  }

  lemma FetchExactly(s: State)
    requires Counts(s) && s.host.Cleared?
    ensures var t := Next(s, Fetch);
      && t.fetched <= s.readAt
      && (t.fetched == s.readAt <==> s.readAt - s.fetched < 0x100_0000)
  {
    DifferenceIsBacklog(s.host.v, s.count, s.readAt, s.fetched);
    WithinSpan(s.readAt - s.fetched);
  }

  lemma WithinSpan(x: nat)
    ensures LenBits(x) <= x && (LenBits(x) == x <==> x < 0x100_0000)
  {
  }

  /** Without such an overrun, a host that is not busy has every byte it saw announced. */
  lemma NothingLostWithoutOverrun(s0: State, steps: seq<Step>)
    requires Init(s0) && IsRun(s0, steps)
    ensures var s := Run(s0, steps);
      !s.overrun && (s.host.Asleep? || s.host.Awake?) ==> s.fetched == s.readAt
  {
    InvRun(s0, steps);
  }

  /** The host's semaphore never exceeds one, and the host sleeps on bytes it has not seen,
      with no wake-up pending, exactly if they were loaded between its last register read
      and the CMD9 that followed. */
  lemma SleepsOnDataExactly(s0: State, steps: seq<Step>)
    requires Init(s0) && IsRun(s0, steps)
    requires Run(s0, steps).host.Asleep? && !Run(s0, steps).signalling
    ensures var s := Run(s0, steps);
      s.sem <= 1 && (s.sem == 0 && s.loaded > s.readAt <==> s.sem == 0 && s.missed)
  {
    InvRun(s0, steps);
  }

  ghost predicate Reached(s0: State, steps: seq<Step>, t: State)
  {
    Init(s0) && IsRun(s0, steps) && Run(s0, steps) == t
  }

  lemma Go(s0: State, steps: seq<Step>, s: State, st: Step) returns (steps': seq<Step>, t: State)
    requires Reached(s0, steps, s) && Enabled(s, st)
    ensures Reached(s0, steps', t) && t == Next(s, st)
  {
    RunExtend(s0, steps, st);
    steps', t := steps + [st], Next(s, st);
  }

  /** It does happen: a second transaction is loaded just before the CMD9. */
  lemma DataCanWaitUnsignalled(s0: State, first: Word32, second: Word32)
    returns (steps: seq<Step>, s: State)
    requires Init(s0) && first < 0x100_0000 && second > 0
    ensures Reached(s0, steps, s) && s.host.Asleep? && s.sem == 0 && !s.signalling && s.missed
    ensures s.loaded == first + second && s.fetched == first
  {
    steps, s := FirstIsRead(s0, first);
    steps, s := Go(s0, steps, s, TxCount(second));
    steps, s := Go(s0, steps, s, TxSignal);
    steps, s := Go(s0, steps, s, Cmd9);
    steps, s := Go(s0, steps, s, Fetch);
    NothingLostWithoutOverrun(s0, steps);
  }

  lemma FirstIsRead(s0: State, first: Word32) returns (steps: seq<Step>, s: State)
    requires Init(s0) && first < 0x100_0000
    ensures Reached(s0, steps, s) && s.host.Read? && s.sem == 0 && s.ready && !s.signalling
    ensures s.loaded == s.readAt == first && s.fetched == 0 && !s.overrun
  {
    steps, s := Go(s0, [], s0, TxCount(first));
    steps, s := Go(s0, steps, s, TxSignal);
    steps, s := Go(s0, steps, s, Wake);
    steps, s := Go(s0, steps, s, ReadRegister);
  }

  lemma {:induction false} RunExtend(s: State, steps: seq<Step>, st: Step)
    requires IsRun(s, steps) && Enabled(Run(s, steps), st)
    ensures IsRun(s, steps + [st]) && Run(s, steps + [st]) == Next(Run(s, steps), st)
    decreases |steps|
  {
    if steps == [] {
      assert IsRun(Next(s, st), []);
    } else {
      RunExtend(Next(s, steps[0]), steps[1..], st);
      assert (steps + [st])[1..] == steps[1..] + [st];
    }
  }

  // ----- the two sides as they run -----

  class Link {
    var txReadyBufSize: Word32
    var register: Word32
    var signalling: bool
    var ready: bool
    var sem: nat
    var host: Host
    var rxByteCount: Word32
    ghost var loaded: nat
    ghost var fetched: nat
    ghost var readAt: nat
    ghost var missed: bool
    ghost var overrun: bool

    ghost function View(): State
      reads this
    {
      State(txReadyBufSize, register, signalling, ready, sem, host, rxByteCount,
            loaded, fetched, readAt, missed, overrun)
    }

    constructor ()
      ensures Init(View())
    {
      txReadyBufSize, register, signalling, ready, sem := 0, 0, false, false, 0;
      host, rxByteCount := Asleep, 0;
      loaded, fetched, readAt, missed, overrun := 0, 0, 0, false, false;
    }

    /** cb_tx_ready up to the register write: the length bits gain the transaction, the
        interrupt bits survive, the register shows the result. */
    method CbTxReady(len: Word32)
      requires Enabled(View(), TxCount(len))
      modifies this
      ensures View() == Next(old(View()), TxCount(len))
    {
      var size := txReadyBufSize;
      LoadedCounts(size, size, len);
      var intMask := IntBits(size);
      var lenBits := LenBits((LenBits(size) + len) % 0x1_0000_0000);
      assert lenBits + intMask == Loaded(size, len);
      txReadyBufSize := lenBits + intMask;
      register := txReadyBufSize;
      signalling := true;
      loaded := loaded + len;
    }

    /** The rest of cb_tx_ready: data-ready is set; a rising edge wakes the host. */
    method SetDataReady()
      requires Enabled(View(), TxSignal)
      modifies this
      ensures View() == Next(old(View()), TxSignal)
    {
      if !ready {
        sem := sem + 1;
      }
      ready := true;
      signalling := false;
    }

    /** The host's CMD9 and the slave's cb_cmd9_recv: the interrupt bits are cleared. */
    method SendCmd9()
      requires Enabled(View(), Cmd9)
      modifies this
      ensures View() == Next(old(View()), Cmd9)
      ensures txReadyBufSize == old(txReadyBufSize) % 0x100_0000 && !ready
    {
      txReadyBufSize := LenBits(txReadyBufSize);
      ready := false;
      host := Cleared(host.v);
      missed := loaded != readAt;
    }

    method HostWakes()
      requires Enabled(View(), Wake)
      modifies this
      ensures View() == Next(old(View()), Wake)
    {
      sem := sem - 1;
      host := Awake;
    }

    method HostReads()
      requires Enabled(View(), ReadRegister)
      modifies this
      ensures View() == Next(old(View()), ReadRegister)
    {
      host := Read(register);
      readAt, missed := loaded, false;
      overrun := overrun || loaded - fetched >= 0x100_0000;
    }

    /** The host's transfer; a zero difference skips it. */
    method HostFetches()
      requires Enabled(View(), Fetch) && Counts(View())
      modifies this
      ensures View() == Next(old(View()), Fetch)
    {
      var currRxValue := LenBits(host.v);
      var sizeToXfer := LenBits((currRxValue - rxByteCount) % 0x1_0000_0000);
      assert sizeToXfer == SizeToXfer(host.v, rxByteCount);
      CountStays(rxByteCount, fetched);
      host := Asleep;
      if sizeToXfer != 0 {
        fetched := fetched + sizeToXfer;
        rxByteCount := LenBits((rxByteCount + sizeToXfer) % 0x1_0000_0000);
      }
    }

    method Advance(st: Step)
      requires Enabled(View(), st) && Counts(View())
      modifies this
      ensures View() == Next(old(View()), st)
    {
      match st
      case TxCount(len) => CbTxReady(len);
      case TxSignal => SetDataReady();
      case Wake => HostWakes();
      case ReadRegister => HostReads();
      case Cmd9 => SendCmd9();
      case Fetch => HostFetches();
    }

    /** Any schedule at all, played on the fields. */
    method Play(steps: seq<Step>)
      requires Inv(View()) && IsRun(View(), steps)
      modifies this
      ensures View() == Run(old(View()), steps) && Inv(View())
    {
      var i := 0;
      while i < |steps|
        invariant 0 <= i <= |steps|
        invariant Inv(View()) && IsRun(View(), steps[i..])
        invariant Run(View(), steps[i..]) == Run(old(View()), steps)
      {
        InvNext(View(), steps[i]);
        assert steps[i..][1..] == steps[i + 1..];
        Advance(steps[i]);
        i := i + 1;
      }
    }
  }
}
