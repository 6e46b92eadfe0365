/**
 The register protocol that moves the system clock. Ready flags follow their enable bits and SWS follows SW
 whenever the hardware gets to it, also after a wait has given up. The ghost trace records every state
 between two register accesses, so a property of the trace is a property of every intermediate state.
 */
module ClockTransition {
  import opened Results
  import opened Clock
  import opened Division

  const VOS1 := 3
  const MANAGED_LATENCY := 4
  const MANAGED_DELAY := 2

  datatype Flag = HsiReady | HseReady | PllReady | VosReady

  predicate FlagSet(r: Registers, f: Flag) {
    match f
    case HsiReady => r.live.hsiReady
    case HseReady => r.live.hseReady
    case PllReady => r.live.pllReady
    case VosReady => r.live.vosReady
  }

  /** One step of hardware progress: a ready flag follows its enable bit, or SWS follows SW. */
  datatype Progress = FlagFollows(flag: Flag) | SwitchFollows

  function Advance(r: Registers, p: Progress): Registers {
    match p
    case SwitchFollows => r.(live := r.live.(sws := r.sw))
    case FlagFollows(HsiReady) => r.(live := r.live.(hsiReady := r.hsiOn))
    case FlagFollows(HseReady) => r.(live := r.live.(hseReady := r.hseOn))
    case FlagFollows(PllReady) => r.(live := r.live.(pllReady := r.pllOn))
    case FlagFollows(VosReady) => r.(live := r.live.(vosReady := true))
  }

  /** b is a after any amount of hardware progress and no register write. */
  ghost predicate Drifts(a: Registers, b: Registers) {
    && b == a.(live := b.live)
    && b.live.sws in {a.live.sws, a.sw}
    && b.live.hsiReady in {a.live.hsiReady, a.hsiOn} && b.live.hseReady in {a.live.hseReady, a.hseOn}
    && b.live.pllReady in {a.live.pllReady, a.pllOn}
    && (a.live.vosReady ==> b.live.vosReady)
  }

  /** Every ready flag is where its enable bit points, SWS where SW does, and the core voltage is reached. */
  predicate Settled(r: Registers) {
    && (r.hsiOn ==> r.live.hsiReady) && r.live.hseReady == r.hseOn && r.live.pllReady == r.pllOn
    && r.live.sws == r.sw && r.live.vosReady
  }

  // ---------- What must hold in every state ----------

  /** Input range k of the PLL takes a reference between 2^k and 2^(k+1) MHz. */
  predicate InRange(range: nat, referenceHz: nat) {
    match range
    case 0 => 1_000_000 <= referenceHz < 2_000_000
    case 1 => 2_000_000 <= referenceHz < 4_000_000
    case 2 => 4_000_000 <= referenceHz < 8_000_000
    case 3 => 8_000_000 <= referenceHz <= 16_000_000
    case _ => false
  }

  predicate FlashReady(r: Registers) {
    r.supply.latency == MANAGED_LATENCY && r.supply.programDelay == MANAGED_DELAY
  }

  predicate FastClockReady(r: Registers) {
    r.supply.vos == VOS1 && r.live.vosReady && FlashReady(r)
  }

  /** Clock c, if it drives the tree, runs, and keeps every bus within the managed envelope. */
  ghost predicate Safe(r: Registers, c: Clk, hseHz: Word) {
    var hz := ClockHz(r, c, hseHz);
    && hz.Value? && WithinEnvelope(SplitByRegisters(hz.value, r.div))
    && (hz.value > HSI_HZ ==> FastClockReady(r))
    && (c == HsiClk ==> r.hsiOn)
    && (c == HseClk ==> r.hseOn && r.live.hseReady)
    && (c == PllClk ==>
          && r.pllOn && r.live.pllReady
          && (r.pll.source == FromHse ==> r.hseOn) && (r.pll.source == FromHsi ==> r.hsiOn))
  }

  /** Both the clock in use and the one the hardware may switch to at any moment are safe. */
  ghost predicate Envelope(r: Registers, hseHz: Word) {
    r.hsiDiv == 1 && Safe(r, r.live.sws, hseHz) && Safe(r, r.sw, hseHz)
  }

  ghost predicate InUse(r: Registers, c: Clk) { r.live.sws == c || r.sw == c }

  /**
   Neither an oscillator nor the PLL is stopped or reprogrammed while it drives, or is asked to drive, the tree;
   and HSE bypass and PLL fields change only while their clock is off and no longer ready.
   */
  ghost predicate LeavesLiveClocksAlone(a: Registers, b: Registers) {
    && (InUse(a, HseClk) || (InUse(a, PllClk) && a.pll.source == FromHse) ==> b.hseOn == a.hseOn && b.hseBypass == a.hseBypass)
    && (InUse(a, HsiClk) || (InUse(a, PllClk) && a.pll.source == FromHsi) ==> b.hsiOn == a.hsiOn && b.hsiDiv == a.hsiDiv)
    && (InUse(a, PllClk) ==> b.pllOn == a.pllOn && b.pll == a.pll)
    && (a.hseOn || a.live.hseReady ==> b.hseBypass == a.hseBypass)
    && (a.pllOn || a.live.pllReady ==> b.pll == a.pll)
  }

  lemma DriftKeepsEnvelope(a: Registers, b: Registers, hseHz: Word)
    requires Envelope(a, hseHz) && Drifts(a, b)
    ensures Envelope(b, hseHz) && LeavesLiveClocksAlone(a, b)
  {
    forall c | c in {a.live.sws, a.sw} ensures Safe(b, c, hseHz) {
      assert ClockHz(b, c, hseHz) == ClockHz(a, c, hseHz);
      assert SplitByRegisters(ClockHz(a, c, hseHz).value, b.div) == SplitByRegisters(ClockHz(a, c, hseHz).value, a.div);
    }
  }

  lemma AdvanceIsDrift(r: Registers, p: Progress)
    ensures Drifts(r, Advance(r, p))
  {
    match p
    case SwitchFollows =>
    case FlagFollows(HsiReady) =>
    case FlagFollows(HseReady) =>
    case FlagFollows(PllReady) =>
    case FlagFollows(VosReady) =>
  }

  lemma DriftsCompose(a: Registers, b: Registers, c: Registers)
    requires Drifts(a, b) && Drifts(b, c)
    ensures Drifts(a, c)
  {
  }

  lemma PllDriftsCompose(a: Registers, b: Registers, c: Registers)
    requires Drifts(a.(pll := b.pll), b) && Drifts(b.(pll := c.pll), c)
    ensures Drifts(a.(pll := c.pll), c)
  {
  }

  lemma SplitStaysBelow(system: nat, core: nat, ahb: nat, apb1: nat, apb2: nat, apb3: nat, apb4: nat)
    requires core > 0 && ahb > 0 && apb1 > 0 && apb2 > 0 && apb3 > 0 && apb4 > 0
    ensures var f := Split(system, core, ahb, apb1, apb2, apb3, apb4);
      f.cm7 <= system && f.ahb <= system && f.apb1 <= system && f.apb2 <= system && f.apb3 <= system && f.apb4 <= system
  {
    QuotientAtMost(system, core);
    var cm7 := system / core;
    QuotientAtMost(cm7, ahb);
    var bus := cm7 / ahb;
    QuotientAtMost(bus, apb1);
    QuotientAtMost(bus, apb2);
    QuotientAtMost(bus, apb3);
    QuotientAtMost(bus, apb4);
  }

  /** On HSI no divider setting can leave the envelope, so the dividers go in before the fast clock. */
  lemma HsiIsAlwaysSafe(r: Registers, hseHz: Word)
    requires r.hsiDiv == 1 && r.hsiOn
    ensures Safe(r, HsiClk, hseHz)
  {
    var d := r.div;
    SplitStaysBelow(HSI_HZ, CoreDivider(d.d1cpre), CoreDivider(d.hpre),
                    ApbDivider(d.d2ppre1), ApbDivider(d.d2ppre2), ApbDivider(d.d1ppre), ApbDivider(d.d3ppre));
  }

  /** Turning HSI on changes nothing that drives the tree. */
  lemma EnablingHsiIsSafe(r: Registers, hseHz: Word)
    requires Envelope(r, hseHz)
    ensures var s := r.(hsiOn := true, hsiDiv := 1); Envelope(s, hseHz) && LeavesLiveClocksAlone(r, s)
  {
    var s := r.(hsiOn := true, hsiDiv := 1);
    forall c | c in {r.live.sws, r.sw} ensures Safe(s, c, hseHz) {
      assert ClockHz(s, c, hseHz) == ClockHz(r, c, hseHz);
      assert SplitByRegisters(ClockHz(r, c, hseHz).value, s.div) == SplitByRegisters(ClockHz(r, c, hseHz).value, r.div);
    }
  }

  /** Asking for HSI leaves the current clock as it is until the hardware follows. */
  lemma AskingForHsiIsSafe(r: Registers, hseHz: Word)
    requires Envelope(r, hseHz) && r.hsiOn
    ensures var s := r.(sw := HsiClk); Envelope(s, hseHz) && LeavesLiveClocksAlone(r, s)
  {
    var s := r.(sw := HsiClk);
    HsiIsAlwaysSafe(s, hseHz);
    assert ClockHz(s, r.live.sws, hseHz) == ClockHz(r, r.live.sws, hseHz);
    var hz := ClockHz(r, r.live.sws, hseHz).value;
    assert SplitByRegisters(hz, s.div) == SplitByRegisters(hz, r.div);
  }

  /** The configured target is safe once every one of its writes is in place. */
  lemma TargetIsSafe(r: Registers, c: Config, hseHz: Word)
    requires Validate(c).Value? && Told(c, hseHz) && r.hsiDiv == 1 && r.hsiOn
    requires r.div == DividerFields(c) && (c.usePll ==> PllInstalled(r, c) && r.pllOn && r.live.pllReady)
    requires c.source != Hsi ==> r.hseOn && r.live.hseReady
    requires FastClockReady(r)
    ensures Safe(r, Target(c), hseHz)
  {
    ClockDecodesAsPromised(r, c, hseHz);
    DividersRoundTrip(c.core, 0);
    DividersRoundTrip(c.ahb, 0);
    DividersRoundTrip(c.apb1, 0);
    DividersRoundTrip(c.apb2, 0);
    DividersRoundTrip(c.apb3, 0);
    DividersRoundTrip(c.apb4, 0);
  }

  lemma RangeCovers(c: Config)
    requires Validate(c).Value? && c.usePll
    ensures c.m > 0 && c.n > 0 && c.p > 0 && c.q > 0 && c.r > 0 && InRange(ReferenceRange(SourceHz(c) / c.m), SourceHz(c) / c.m)
  {
  }

  /** Switching to a prepared target from HSI. */
  lemma SwitchingIsSafe(r: Registers, c: Config, hseHz: Word)
    requires Validate(c).Value? && Told(c, hseHz) && r.sw == r.live.sws == HsiClk && r.hsiDiv == 1 && r.hsiOn
    requires r.div == DividerFields(c) && (c.usePll ==> PllInstalled(r, c) && r.pllOn && r.live.pllReady)
    requires c.source != Hsi ==> r.hseOn && r.live.hseReady
    requires FastClockReady(r)
    ensures var s := r.(sw := Target(c)); Envelope(s, hseHz) && LeavesLiveClocksAlone(r, s)
  {
    hide Safe;
    var s := r.(sw := Target(c));
    TargetIsSafe(s, c, hseHz);
    HsiIsAlwaysSafe(s, hseHz);
  }

  class ClockTree {
    const hseHz: Word          // the physical HSE frequency
    var r: Registers
    ghost var trace: seq<Registers>
    ghost var unready: nat             // looks of the current wait, when none has shown what it waits for
    ghost var flash: seq<(nat, nat)>   // the latencies and programming delays written to FLASH

    ghost predicate Valid()
      reads this
    {
      && |trace| > 0 && trace[|trace| - 1] == r
      && (forall k :: 0 <= k < |trace| ==> Envelope(trace[k], hseHz))
      && (forall k :: 0 < k < |trace| ==> LeavesLiveClocksAlone(trace[k - 1], trace[k]))
    }

    /** Reset: HSI undivided drives the tree; every field the reset does not define is arbitrary. */
    constructor (hseHz: Word, reset: Registers)
      requires reset.sw == reset.live.sws == HsiClk && reset.hsiOn && reset.hsiDiv == 1
      ensures Valid() && r == reset && this.hseHz == hseHz
    {
      this.hseHz, r, trace, unready, flash := hseHz, reset, [reset], 0, [];
      HsiIsAlwaysSafe(reset, hseHz);
    }

    twostate predicate Extended()
      reads this
    {
      old(trace) <= trace
    }

    /** One register write; the state it leaves must be inside the envelope. */
    method Write(next: Registers)
      requires Valid() && Envelope(next, hseHz) && LeavesLiveClocksAlone(r, next)
      modifies `r, `trace
      ensures Valid() && Extended() && r == next
    {
      r := next;
      trace := trace + [next];
    }

    method Drift()
      requires Valid()
      modifies `r, `trace
      ensures Valid() && Extended() && Drifts(old(r), r)
    {
      hide Envelope, LeavesLiveClocksAlone;
      var n: nat := *;
      while n > 0
        invariant Valid() && Extended() && Drifts(old(r), r)
      {
        var p: Progress := *;
        AdvanceIsDrift(r, p);
        DriftsCompose(old(r), r, Advance(r, p));
        DriftKeepsEnvelope(r, Advance(r, p), hseHz);
        Write(Advance(r, p));
        n := n - 1;
      }
    }

    /** One look at a ready flag. */
    method LookForFlag(flag: Flag, set_: bool) returns (seen: bool)
      requires Valid()
      modifies `r, `trace, `unready
      ensures Valid() && Extended() && Drifts(old(r), r)
      ensures seen == (FlagSet(r, flag) == set_) && unready == if seen then 0 else old(unready) + 1
    {
      Drift();
      seen := FlagSet(r, flag) == set_;
      unready := if seen then 0 else unready + 1;
    }

    method WaitFlag(flag: Flag, set_: bool, limit: Word) returns (s: Status)
      requires Valid() && limit > 0
      modifies `r, `trace, `unready
      ensures Valid() && Extended() && Drifts(old(r), r)
      ensures s == Ok || s == Timeout
      ensures s == Ok ==> FlagSet(r, flag) == set_
      ensures s == Timeout ==> FlagSet(r, flag) != set_ && unready == limit
    {
      hide Envelope, LeavesLiveClocksAlone;
      unready := 0;
      var poll := 0;
      while poll < limit
        invariant Valid() && Extended() && Drifts(old(r), r)
        invariant 0 <= poll <= limit && unready == poll && (poll > 0 ==> FlagSet(r, flag) != set_)
      {
        ghost var before := r;
        var seen := LookForFlag(flag, set_);
        DriftsCompose(old(r), before, r);
        if seen {
          return Ok;
        }
        poll := poll + 1;
      }
      return Timeout;
    }

    /** One look at SWS. */
    method LookForSwitch(target: Clk) returns (seen: bool)
      requires Valid()
      modifies `r, `trace, `unready
      ensures Valid() && Extended() && Drifts(old(r), r)
      ensures seen == (r.live.sws == target) && unready == if seen then 0 else old(unready) + 1
    {
      Drift();
      seen := r.live.sws == target;
      unready := if seen then 0 else unready + 1;
    }

    method WaitSwitched(target: Clk, limit: Word) returns (s: Status)
      requires Valid() && limit > 0
      modifies `r, `trace, `unready
      ensures Valid() && Extended() && Drifts(old(r), r)
      ensures s == Ok || s == Timeout
      ensures s == Ok ==> r.live.sws == target
      ensures s == Timeout ==> r.live.sws != target && unready == limit
    {
      hide Envelope, LeavesLiveClocksAlone;
      unready := 0;
      var poll := 0;
      while poll < limit
        invariant Valid() && Extended() && Drifts(old(r), r)
        invariant 0 <= poll <= limit && unready == poll && (poll > 0 ==> r.live.sws != target)
      {
        ghost var before := r;
        var seen := LookForSwitch(target);
        DriftsCompose(old(r), before, r);
        if seen {
          return Ok;
        }
        poll := poll + 1;
      }
      return Timeout;
    }

    ghost predicate OnHsi()
      reads this
    {
      r.sw == r.live.sws == HsiClk && r.hsiOn && r.hsiDiv == 1
    }

    /** A write that only touches parts that do not drive the tree, made while HSI drives it. */
    method WriteOnHsi(next: Registers)
      requires Valid() && OnHsi()
      requires next.sw == next.live.sws == HsiClk && next.hsiOn && next.hsiDiv == 1
      requires r.hseOn || r.live.hseReady ==> next.hseBypass == r.hseBypass
      requires r.pllOn || r.live.pllReady ==> next.pll == r.pll
      modifies `r, `trace
      ensures Valid() && Extended() && r == next && OnHsi()
    {
      HsiIsAlwaysSafe(next, hseHz);
      Write(next);
    }

    method SwitchToHsi(limit: Word) returns (s: Status)
      requires Valid() && limit > 0
      modifies `r, `trace, `unready
      ensures Valid() && Extended() && (s == Ok || s == Timeout)
      ensures s == Timeout ==> !Settled(r) && unready == limit
      ensures s == Ok ==> OnHsi()
      ensures r.supply == old(r.supply)
    {
      hide Envelope, LeavesLiveClocksAlone;
      Drift();
      EnablingHsiIsSafe(r, hseHz);
      Write(r.(hsiOn := true, hsiDiv := 1));
      s := WaitFlag(HsiReady, true, limit);
      if s != Ok { return; }

      Drift();
      AskingForHsiIsSafe(r, hseHz);
      Write(r.(sw := HsiClk));
      s := WaitSwitched(HsiClk, limit);
    }

    /** The FLASH write may be refused. */
    method WriteFlash(latency: nat, programDelay: nat)
      requires Valid() && OnHsi()
      modifies `r, `trace, `flash
      ensures Valid() && Extended() && OnHsi() && flash == old(flash) + [(latency, programDelay)]
      ensures Drifts(old(r), r) || Drifts(old(r).(supply := old(r).supply.(latency := latency, programDelay := programDelay)), r)
    {
      hide Envelope, LeavesLiveClocksAlone;
      Drift();
      var accepted: bool := *;
      if accepted {
        WriteOnHsi(r.(supply := r.supply.(latency := latency, programDelay := programDelay)));
      }
      flash := flash + [(latency, programDelay)];
    }

    /** VOS1, then the wait states a fast clock needs, which are read back. */
    method PrepareFastClock(limit: Word) returns (s: Status)
      requires Valid() && OnHsi() && limit > 0
      modifies `r, `trace, `unready, `flash
      ensures Valid() && Extended() && OnHsi() && s in {Ok, Timeout, Unsupported}
      ensures s == Timeout ==> !Settled(r) && unready == limit && r.supply.vos == 3
      ensures s == Ok ==> FastClockReady(r)
      ensures s == Unsupported ==>
                !FlashReady(r) && r.supply.latency == old(r.supply.latency) && r.supply.programDelay == old(r.supply.programDelay)
      ensures s in {Ok, Unsupported} ==> flash == old(flash) + [(4, 2)]
    {
      hide Envelope, LeavesLiveClocksAlone;
      Drift();
      WriteOnHsi(r.(supply := r.supply.(vos := VOS1), live := r.live.(vosReady := false)));
      s := WaitFlag(VosReady, true, limit);
      if s != Ok { return; }
      WriteFlash(MANAGED_LATENCY, MANAGED_DELAY);
      if !FlashReady(r) {
        return Unsupported;
      }
    }

    /** Conservative dividers, register by register, while the tree still runs from HSI. */
    method ConfigureBusDividers(c: Config)
      requires Valid() && OnHsi() && DividersEncodable(c)
      modifies `r, `trace
      ensures Valid() && Extended() && OnHsi() && Drifts(old(r).(div := DividerFields(c)), r)
    {
      hide Envelope, LeavesLiveClocksAlone;
      Drift();
      WriteOnHsi(r.(div := r.div.(d1cpre := CoreBits(c.core).value, hpre := CoreBits(c.ahb).value,
                                  d1ppre := ApbBits(c.apb3).value)));
      Drift();
      WriteOnHsi(r.(div := r.div.(d2ppre1 := ApbBits(c.apb1).value, d2ppre2 := ApbBits(c.apb2).value)));
      Drift();
      WriteOnHsi(r.(div := r.div.(d3ppre := ApbBits(c.apb4).value)));
    }

    /** What the oscillator and PLL steps leave alone. */
    ghost predicate SameSetup(a: Registers, b: Registers) {
      b.div == a.div && b.supply == a.supply && (a.live.vosReady ==> b.live.vosReady)
    }

    method ConfigureSource(c: Config) returns (s: Status)
      requires Valid() && OnHsi() && c.waitLimit > 0
      modifies `r, `trace, `unready
      ensures Valid() && Extended() && OnHsi() && SameSetup(old(r), r) && (s == Ok || s == Timeout)
      ensures s == Timeout ==> !Settled(r) && unready == c.waitLimit
      ensures s == Ok && c.source != Hsi ==> r.hseOn && r.live.hseReady && r.hseBypass == (c.source == HseBypass)
      ensures r.pll == old(r.pll) && r.pllOn == old(r.pllOn)
    {
      hide Envelope, LeavesLiveClocksAlone;
      if c.source == Hsi {
        Drift();
        WriteOnHsi(r.(hsiOn := true, hsiDiv := 1));
        s := WaitFlag(HsiReady, true, c.waitLimit);
        return;
      }
      Drift();
      WriteOnHsi(r.(hseOn := false));
      s := WaitFlag(HseReady, false, c.waitLimit);
      if s != Ok { return; }
      Drift();
      WriteOnHsi(r.(hseBypass := (c.source == HseBypass)));
      Drift();
      WriteOnHsi(r.(hseOn := true));
      s := WaitFlag(HseReady, true, c.waitLimit);
    }

    /** One write to the PLL registers, with the PLL off. */
    method WritePll(next: Pll)
      requires Valid() && OnHsi() && !r.pllOn && !r.live.pllReady
      modifies `r, `trace
      ensures Valid() && Extended() && OnHsi() && Drifts(old(r).(pll := next), r) && r.pll == next && !r.pllOn && !r.live.pllReady
    {
      hide Envelope, LeavesLiveClocksAlone;
      Drift();
      WriteOnHsi(r.(pll := next));
    }

    method ProgramPll(c: Config)
      requires Valid() && OnHsi() && Validate(c).Value? && c.usePll && !r.pllOn && !r.live.pllReady
      modifies `r, `trace
      ensures Valid() && Extended() && OnHsi() && PllInstalled(r, c) && Drifts(old(r).(pll := r.pll), r)
      ensures InRange(r.pll.range, SourceHz(c) / c.m)
    {
      hide Envelope, LeavesLiveClocksAlone, OnHsi, InRange, ReferenceRange, Validate, Drifts;
      ghost var a := r;
      RangeCovers(c);
      WritePll(r.pll.(source := (if c.source == Hsi then FromHsi else FromHse), divM := c.m));
      ghost var b := r;
      WritePll(r.pll.(divN := c.n - 1, divP := c.p - 1, divQ := c.q - 1, divR := c.r - 1));
      PllDriftsCompose(a, b, r);
      b := r;
      WritePll(r.pll.(fracN := 0));
      PllDriftsCompose(a, b, r);
      b := r;
      WritePll(r.pll.(fracOn := false, range := ReferenceRange(SourceHz(c) / c.m)));
      PllDriftsCompose(a, b, r);
    }

    method ConfigurePll(c: Config) returns (s: Status)
      requires Valid() && OnHsi() && Validate(c).Value?
      modifies `r, `trace, `unready
      ensures Valid() && Extended() && OnHsi() && SameSetup(old(r), r) && (s == Ok || s == Timeout)
      ensures s == Timeout ==> !Settled(r) && unready == c.waitLimit
      ensures old(r.hseOn && r.live.hseReady) ==> r.hseOn && r.live.hseReady
      ensures s == Ok && c.usePll ==>
                PllInstalled(r, c) && r.pllOn && r.live.pllReady && InRange(r.pll.range, SourceHz(c) / c.m)
      ensures s == Ok && !c.usePll ==> !r.pllOn && !r.live.pllReady
      ensures r.hseBypass == old(r.hseBypass)
    {
      hide Envelope, LeavesLiveClocksAlone;
      Drift();
      WriteOnHsi(r.(pllOn := false));
      s := WaitFlag(PllReady, false, c.waitLimit);
      if s != Ok || !c.usePll { return; }
      ProgramPll(c);
      Drift();
      WriteOnHsi(r.(pllOn := true));
      s := WaitFlag(PllReady, true, c.waitLimit);
    }

    /** Everything the target needs is installed while HSI still drives the tree. */
    ghost predicate Prepared(c: Config)
      reads this
    {
      && OnHsi() && Validate(c).Value? && Told(c, hseHz)
      && r.div == DividerFields(c)
      && (c.usePll ==> PllInstalled(r, c) && r.pllOn && r.live.pllReady)
      && (c.source != Hsi ==> r.hseOn && r.live.hseReady)
      && FastClockReady(r)
    }

    /** Everything up to the switch. */
    method PrepareTarget(c: Config) returns (s: Status)
      requires Valid() && Validate(c).Value? && Told(c, hseHz) && c.waitLimit > 0
      modifies `r, `trace, `unready, `flash
      ensures Valid() && Extended() && s in {Ok, Timeout, Unsupported}
      ensures s == Ok ==> Prepared(c) && (c.source != Hsi ==> r.hseBypass == (c.source == HseBypass))
      ensures s == Ok ==> if c.usePll then InRange(r.pll.range, SourceHz(c) / c.m) else !r.pllOn
      ensures s == Timeout ==> !Settled(r) && unready == c.waitLimit
      ensures s == Unsupported ==>
                && OnHsi() && !FlashReady(r) && flash == old(flash) + [(4, 2)]
                && r.supply.latency == old(r.supply.latency) && r.supply.programDelay == old(r.supply.programDelay)
    {
      hide Envelope, LeavesLiveClocksAlone, Settled, InRange;
      s := SwitchToHsi(c.waitLimit);
      if s != Ok { return; }
      s := PrepareFastClock(c.waitLimit);
      if s != Ok { return; }
      ConfigureBusDividers(c);
      s := ConfigureSource(c);
      if s != Ok { return; }
      s := ConfigurePll(c);
    }

    method SwitchToTarget(c: Config) returns (s: Status)
      requires Valid() && Prepared(c)
      modifies `r, `trace, `unready
      ensures Valid() && Extended() && (s == Ok || s == Timeout)
      ensures s == Timeout ==> !Settled(r) && unready == c.waitLimit
      ensures s == Ok ==> r.sw == r.live.sws == Target(c) && GetFrequencies(r, c.sourceHz) == Validate(c)
      ensures r == old(r).(sw := r.sw, live := r.live) && FastClockReady(r)
    {
      hide Envelope, LeavesLiveClocksAlone, GetFrequencies;
      assert c.waitLimit > 0;
      hide Validate;
      Drift();
      SwitchingIsSafe(r, c, hseHz);
      Write(r.(sw := Target(c)));
      s := WaitSwitched(Target(c), c.waitLimit);
      if s == Ok {
        Drift();
        ReadbackEqualsPromise(r, c);
      }
    }

    /**
     Moves the system clock. Whatever the outcome, and from wherever an earlier call left the tree, every state
     on the way is inside the envelope; Ok means the readback equals what the configuration promised, and
     the closing comparison never fails on its own.
     */
    method Apply(c: Config) returns (s: Status)
      requires Valid() && Told(c, hseHz)
      modifies this
      ensures Valid() && Extended()
      ensures Validate(c).Failure? ==> s == Validate(c).status && unchanged(this)
      ensures Validate(c).Value? ==> s in {Ok, Timeout, Unsupported}
      ensures s == Timeout ==> !Settled(r) && unready == c.waitLimit
      ensures s == Ok ==> r.div == DividerFields(c) && FastClockReady(r)
      ensures s == Ok ==> if c.usePll then PllInstalled(r, c) else !r.pllOn
      ensures s == Ok ==> Validate(c).Value? && r.sw == r.live.sws == Target(c) && GetFrequencies(r, c.sourceHz) == Validate(c)
      ensures s == Ok && c.source != Hsi ==> r.hseOn && r.hseBypass == (c.source == HseBypass)
      ensures s == Ok && c.usePll ==> InRange(r.pll.range, SourceHz(c) / c.m)
      ensures Validate(c).Value? && s == Unsupported ==>
                OnHsi() && !FlashReady(r)
                && r.supply.latency == old(r.supply.latency) && r.supply.programDelay == old(r.supply.programDelay)
                && flash == old(flash) + [(4, 2)]
    {
      hide Envelope, LeavesLiveClocksAlone, Settled, InRange, Safe, GetFrequencies;
      var expected := Validate(c);
      if expected.Failure? {
        return expected.status;
      }
      assert c.waitLimit > 0;
      hide Validate;
      s := PrepareTarget(c);
      if s != Ok { return; }
      s := SwitchToTarget(c);
      if s != Ok { return; }

      var observed := GetFrequencies(r, c.sourceHz);
      if observed != expected {
        assert false;   // the driver's "readback differs" exit
      }
    }
  }
}
