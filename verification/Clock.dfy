/** The STM32H755 clock tree: what a configuration promises, and what the registers decode to. */
module Clock {
  import opened Results
  import opened Division

  const HSI_HZ := 64_000_000
  const CSI_HZ := 4_000_000
  const HSE_MIN_HZ := 4_000_000
  const HSE_MAX_HZ := 48_000_000
  const CM7_MAX_HZ := 400_000_000
  const AHB_MAX_HZ := 200_000_000
  const APB_MAX_HZ := 100_000_000
  const VCO_MIN_HZ := 192_000_000
  const VCO_MAX_HZ := 836_000_000
  const FRACTION := 8192

  type Half = h: int | 0 <= h < 0x10000

  datatype Source = Hsi | Hse | HseBypass

  datatype Config = Config(
    source: Source, sourceHz: Word, usePll: bool,
    m: Byte, n: Half, p: Byte, q: Byte, r: Byte,
    core: Half, ahb: Half, apb1: Byte, apb2: Byte, apb3: Byte, apb4: Byte,
    waitLimit: Word)

  datatype Frequencies = Frequencies(
    system: nat, cm7: nat, cm4: nat, ahb: nat, apb1: nat, apb2: nat, apb3: nat, apb4: nat)

  // ---------- Divider fields ----------

  function ApbBits(divider: int): Outcome<nat> {
    if divider == 1 then Value(0) else if divider == 2 then Value(4) else if divider == 4 then Value(5)
    else if divider == 8 then Value(6) else if divider == 16 then Value(7) else Failure(InvalidArgument)
  }

  function ApbDivider(bits: nat): nat {
    if bits % 8 < 4 then 1
    else if bits % 4 == 0 then 2 else if bits % 4 == 1 then 4 else if bits % 4 == 2 then 8 else 16
  }

  function CoreBits(divider: int): Outcome<nat> {
    if divider == 1 then Value(0) else if divider == 2 then Value(8) else if divider == 4 then Value(9)
    else if divider == 8 then Value(10) else if divider == 16 then Value(11) else if divider == 64 then Value(12)
    else if divider == 128 then Value(13) else if divider == 256 then Value(14) else if divider == 512 then Value(15)
    else Failure(InvalidArgument)
  }

  function CoreDivider(bits: nat): nat {
    var b := bits % 16;
    if b < 8 then 1 else if b == 8 then 2 else if b == 9 then 4 else if b == 10 then 8 else if b == 11 then 16
    else if b == 12 then 64 else if b == 13 then 128 else if b == 14 then 256 else 512
  }

  lemma DividersRoundTrip(divider: int, bits: nat)
    ensures CoreBits(divider).Value? ==> CoreBits(divider).value < 16 && CoreDivider(CoreBits(divider).value) == divider
    ensures ApbBits(divider).Value? ==> ApbBits(divider).value < 8 && ApbDivider(ApbBits(divider).value) == divider
    ensures CoreBits(CoreDivider(bits)).Value? && ApbBits(ApbDivider(bits)).Value?
  {
  }

  // ---------- What a configuration promises ----------

  function SourceHz(c: Config): nat {
    if c.source == Hsi then HSI_HZ else c.sourceHz
  }

  function DeriveSystem(c: Config): Outcome<nat> {
    if c.source != Hsi && (c.sourceHz < HSE_MIN_HZ || c.sourceHz > HSE_MAX_HZ) then Failure(InvalidArgument)
    else
      var source := SourceHz(c);
      if !c.usePll then Value(source)
      else if c.m == 0 || c.m > 63 || c.n < 4 || c.n > 512 || c.p == 0 || c.p > 128
              || c.q == 0 || c.q > 128 || c.r == 0 || c.r > 128 || source % c.m != 0 then Failure(InvalidArgument)
      else
        var reference := source / c.m;
        if reference < 1_000_000 || reference > 16_000_000 then Failure(InvalidArgument)
        else
          var vco := reference * c.n;
          if vco < VCO_MIN_HZ || vco > VCO_MAX_HZ then Failure(InvalidArgument)
          else Value(vco / c.p)
  }

  predicate DividersEncodable(c: Config) {
    CoreBits(c.core).Value? && CoreBits(c.ahb).Value?
    && ApbBits(c.apb1).Value? && ApbBits(c.apb2).Value? && ApbBits(c.apb3).Value? && ApbBits(c.apb4).Value?
  }

  function Split(system: nat, core: nat, ahb: nat, apb1: nat, apb2: nat, apb3: nat, apb4: nat): Frequencies
    requires core > 0 && ahb > 0 && apb1 > 0 && apb2 > 0 && apb3 > 0 && apb4 > 0
  {
    var cm7 := system / core;
    var bus := cm7 / ahb;
    Frequencies(system, cm7, bus, bus, bus / apb1, bus / apb2, bus / apb3, bus / apb4)
  }

  function Derive(c: Config): Outcome<Frequencies> {
    var system := DeriveSystem(c);
    if system.Failure? then Failure(system.status)
    else if !DividersEncodable(c) || system.value > TWO_32 - 1 then Failure(InvalidArgument)
    else Value(Split(system.value, c.core, c.ahb, c.apb1, c.apb2, c.apb3, c.apb4))
  }

  predicate WithinEnvelope(f: Frequencies) {
    f.cm7 <= CM7_MAX_HZ && f.ahb <= AHB_MAX_HZ
    && f.apb1 <= APB_MAX_HZ && f.apb2 <= APB_MAX_HZ && f.apb3 <= APB_MAX_HZ && f.apb4 <= APB_MAX_HZ
  }

  function Validate(c: Config): Outcome<Frequencies> {
    if c.waitLimit == 0 then Failure(InvalidArgument)
    else
      var f := Derive(c);
      if f.Value? && !WithinEnvelope(f.value) then Failure(Unsupported) else f
  }

  const WIDE_DIVIDERS := {1, 2, 4, 8, 16, 64, 128, 256, 512}
  const NARROW_DIVIDERS := {1, 2, 4, 8, 16}

  /** The ranges a configuration must keep, in plain numbers. */
  predicate SourceInRange(c: Config) {
    var source := if c.source == Hsi then 64_000_000 else c.sourceHz;
    && (c.source != Hsi ==> 4_000_000 <= source <= 48_000_000)
    && (c.usePll ==>
          && 1 <= c.m <= 63 && 4 <= c.n <= 512 && 1 <= c.p <= 128 && 1 <= c.q <= 128 && 1 <= c.r <= 128
          && source % c.m == 0 && 1_000_000 <= source / c.m <= 16_000_000
          && 192_000_000 <= source / c.m * c.n <= 836_000_000)
  }

  predicate DividersInRange(c: Config) {
    c.core in WIDE_DIVIDERS && c.ahb in WIDE_DIVIDERS
    && c.apb1 in NARROW_DIVIDERS && c.apb2 in NARROW_DIVIDERS && c.apb3 in NARROW_DIVIDERS && c.apb4 in NARROW_DIVIDERS
  }

  predicate InRanges(c: Config) { c.waitLimit > 0 && SourceInRange(c) && DividersInRange(c) }

  function AskedHz(c: Config): int {
    var source := if c.source == Hsi then 64_000_000 else c.sourceHz;
    if !c.usePll || c.m == 0 || c.p == 0 then source else source / c.m * c.n / c.p
  }

  /** At most 400 MHz for CM7, 200 MHz on AHB and 100 MHz on every APB. */
  predicate Affordable(f: Frequencies) {
    && f.cm7 <= 400_000_000 && f.ahb <= 200_000_000
    && f.apb1 <= 100_000_000 && f.apb2 <= 100_000_000 && f.apb3 <= 100_000_000 && f.apb4 <= 100_000_000
  }

  lemma EncodableExactly(c: Config)
    ensures DividersEncodable(c) <==> DividersInRange(c)
  {
  }

  lemma DerivedExactly(c: Config)
    ensures DeriveSystem(c) == if SourceInRange(c) then Value(AskedHz(c)) else Failure(InvalidArgument)
    ensures SourceInRange(c) ==> 0 <= AskedHz(c) < TWO_32
  {
    if SourceInRange(c) && c.usePll { QuotientAtMost(SourceHz(c) / c.m * c.n, c.p); }
  }

  function AskedRates(c: Config): Frequencies
    requires DividersInRange(c) && AskedHz(c) >= 0
  {
    Split(AskedHz(c), c.core, c.ahb, c.apb1, c.apb2, c.apb3, c.apb4)
  }

  /** Exactly the configurations in range are derived, and exactly those within the rates are accepted. */
  lemma AcceptedExactly(c: Config)
    ensures SourceInRange(c) ==> AskedHz(c) >= 0
    ensures Validate(c) ==
            if !InRanges(c) then Failure(InvalidArgument)
            else if Affordable(AskedRates(c)) then Value(AskedRates(c)) else Failure(Unsupported)
  {
    EncodableExactly(c);
    DerivedExactly(c);
    hide DividersEncodable, DividersInRange, SourceInRange, DeriveSystem, AskedHz, Split;
  }

  /** The profiles the board offers. */
  function Profile(hz: nat, waitLimit: Word): Outcome<Config> {
    var idle := Config(Hsi, 0, false, 1, 4, 2, 2, 2, 1, 1, 1, 1, 1, 1, waitLimit);
    var fast := idle.(usePll := true, m := 8, p := 2, q := 4, r := 2, apb1 := 2, apb2 := 2, apb3 := 2, apb4 := 2);
    if hz == 64_000_000 then Value(idle)
    else if hz == 200_000_000 then Value(fast.(n := 50, ahb := 1))
    else if hz == 300_000_000 then Value(fast.(n := 75, ahb := 2))
    else if hz == 400_000_000 then Value(fast.(n := 100, ahb := 2))
    else Failure(Unsupported)
  }

  /** Each is accepted and gives CM7 the rate it is named for. */
  lemma ProfilesKeepTheirRate(hz: nat, waitLimit: Word)
    requires waitLimit > 0 && Profile(hz, waitLimit).Value?
    ensures var f := Validate(Profile(hz, waitLimit).value); f.Value? && f.value.cm7 == hz
  {
    hide Validate;
    var c := Profile(hz, waitLimit).value;
    AcceptedExactly(c);
    assert SourceInRange(c) && AskedHz(c) == hz by {
      if hz == 200_000_000 { assert c.n == 50 && 8_000_000 * c.n / 2 == hz; }
      else if hz == 300_000_000 { assert c.n == 75 && 8_000_000 * c.n / 2 == hz; }
      else if hz == 400_000_000 { assert c.n == 100 && 8_000_000 * c.n / 2 == hz; }
    }
    hide AskedHz, SourceInRange;
  }

  // ---------- What the registers say ----------

  datatype Clk = HsiClk | CsiClk | HseClk | PllClk
  datatype PllSource = FromHsi | FromCsi | FromHse | NoSource

  datatype Pll = Pll(source: PllSource, divM: nat, divN: nat, divP: nat, divQ: nat, divR: nat,
                     fracN: nat, fracOn: bool, range: nat)
  datatype Dividers = Dividers(d1cpre: nat, hpre: nat, d1ppre: nat, d2ppre1: nat, d2ppre2: nat, d3ppre: nat)
  datatype Supply = Supply(vos: nat, latency: nat, programDelay: nat)

  /** The read-only fields, which the hardware drives. */
  datatype Live = Live(sws: Clk, hsiReady: bool, hseReady: bool, pllReady: bool, vosReady: bool)

  /** The RCC, PWR and FLASH fields the transition touches, each under its own name. */
  datatype Registers = Registers(
    hsiOn: bool, hsiDiv: nat, hseOn: bool, hseBypass: bool, pllOn: bool, sw: Clk,
    pll: Pll, div: Dividers, supply: Supply, live: Live)

  function HsiHz(r: Registers): nat {
    if r.hsiDiv == 2 then HSI_HZ / 2 else if r.hsiDiv == 4 then HSI_HZ / 4
    else if r.hsiDiv == 8 then HSI_HZ / 8 else HSI_HZ
  }

  function PllInput(r: Registers, hseHz: Word): Outcome<nat> {
    match r.pll.source
    case FromHsi => Value(HsiHz(r))
    case FromCsi => Value(CSI_HZ)
    case FromHse => if hseHz == 0 then Failure(Unsupported) else Value(hseHz)
    case NoSource => Failure(Unsupported)
  }

  /** The frequency clock c has, or would have, under the current register fields. */
  function ClockHz(r: Registers, c: Clk, hseHz: Word): Outcome<nat> {
    match c
    case HsiClk => Value(HsiHz(r))
    case CsiClk => Value(CSI_HZ)
    case HseClk => if hseHz == 0 then Failure(Unsupported) else Value(hseHz)
    case PllClk =>
      var source := PllInput(r, hseHz);
      if source.Failure? then source
      else if r.pll.divM == 0 then Failure(Unsupported)
      else
        var multiplier := (r.pll.divN + 1) * FRACTION + (if r.pll.fracOn then r.pll.fracN else 0);
        Quotient(source.value * multiplier, r.pll.divM * FRACTION * (r.pll.divP + 1))
  }

  function Quotient(numerator: nat, denominator: nat): Outcome<nat> {
    if denominator == 0 then Failure(Unsupported) else Value((numerator / denominator) % TWO_32)
  }

  function SplitByRegisters(system: nat, d: Dividers): Frequencies {
    Split(system, CoreDivider(d.d1cpre), CoreDivider(d.hpre),
          ApbDivider(d.d2ppre1), ApbDivider(d.d2ppre2), ApbDivider(d.d1ppre), ApbDivider(d.d3ppre))
  }

  /** Readback: the tree the registers select now. */
  function GetFrequencies(r: Registers, hseHz: Word): Outcome<Frequencies> {
    var system := ClockHz(r, r.live.sws, hseHz);
    if system.Failure? then Failure(system.status) else Value(SplitByRegisters(system.value, r.div))
  }

  // ---------- The transition's register writes ----------

  function Target(c: Config): Clk {
    if c.usePll then PllClk else if c.source == Hsi then HsiClk else HseClk
  }

  function ReferenceRange(referenceHz: nat): nat {
    if referenceHz < 2_000_000 then 0 else if referenceHz < 4_000_000 then 1
    else if referenceHz < 8_000_000 then 2 else 3
  }

  function DividerFields(c: Config): Dividers
    requires DividersEncodable(c)
  {
    Dividers(CoreBits(c.core).value, CoreBits(c.ahb).value, ApbBits(c.apb3).value,
             ApbBits(c.apb1).value, ApbBits(c.apb2).value, ApbBits(c.apb4).value)
  }

  ghost predicate PllInstalled(r: Registers, c: Config) {
    && r.pll.source == (if c.source == Hsi then FromHsi else FromHse)
    && r.pll.divM == c.m && r.pll.divN == c.n - 1 && r.pll.divP == c.p - 1 && r.pll.divQ == c.q - 1 && r.pll.divR == c.r - 1
    && r.pll.fracN == 0 && !r.pll.fracOn
  }

  /** Where the transition may take its clock from: HSI undivided, and the real HSE frequency told to it. */
  ghost predicate Told(c: Config, hseHz: Word) {
    c.source != Hsi ==> c.sourceHz == hseHz
  }

  /** Scaling both sides by 8192 and leaving m in the denominator computes (source / m) * n / p exactly. */
  lemma ScaledQuotient(source: nat, m: nat, n: nat, p: nat)
    requires m > 0 && p > 0 && source % m == 0
    ensures m * FRACTION * p > 0
    ensures (source * (n * FRACTION)) / (m * FRACTION * p) == (source / m * n) / p
  {
    var reference := source / m;
    QuotientBounds(source, m);
    var k := m * FRACTION;
    assert k > 0;
    assert source * (n * FRACTION) == k * (reference * n) by {
      assert source == m * reference;
      assert m * reference * (n * FRACTION) == m * FRACTION * (reference * n);
    }
    CommonFactorCancels(k, reference * n, p);
  }

  /** The readback of a PLL is the scaled quotient of its fields. */
  lemma PllReadback(r: Registers, c: Config, hseHz: Word, source: nat)
    requires PllInstalled(r, c) && PllInput(r, hseHz) == Value(source) && c.m > 0 && c.n > 0 && c.p > 0
    ensures ClockHz(r, PllClk, hseHz) == Quotient(source * (c.n * FRACTION), c.m * FRACTION * c.p)
  {
    hide Quotient, PllInput;
    assert r.pll.divN + 1 == c.n && r.pll.divP + 1 == c.p && r.pll.divM == c.m;
  }

  /** What a PLL configuration promises is a quotient of its fields, and fits a word. */
  lemma PllPromise(c: Config)
    requires DeriveSystem(c).Value? && c.usePll
    ensures c.m > 0 && c.n > 0 && c.p > 0 && SourceHz(c) % c.m == 0
    ensures DeriveSystem(c).value == SourceHz(c) / c.m * c.n / c.p < TWO_32
  {
    QuotientAtMost(SourceHz(c) / c.m * c.n, c.p);
  }

  /** The 64-bit readback of an installed PLL is the promised frequency. */
  lemma PllDecodesAsPromised(r: Registers, c: Config, hseHz: Word)
    requires DeriveSystem(c).Value? && c.usePll && PllInstalled(r, c) && r.hsiDiv == 1 && Told(c, hseHz)
    ensures ClockHz(r, PllClk, hseHz) == DeriveSystem(c)
  {
    var source := SourceHz(c);
    PllPromise(c);
    assert PllInput(r, hseHz) == Value(source) by { hide ClockHz; }
    hide ClockHz, DeriveSystem, PllInput, SourceHz;
    PllReadback(r, c, hseHz, source);
    ScaledQuotient(source, c.m, c.n, c.p);
  }

  lemma ClockDecodesAsPromised(r: Registers, c: Config, hseHz: Word)
    requires Validate(c).Value? && r.hsiDiv == 1 && Told(c, hseHz)
    requires c.usePll ==> PllInstalled(r, c)
    ensures ClockHz(r, Target(c), hseHz) == DeriveSystem(c)
  {
    if c.usePll { PllDecodesAsPromised(r, c, hseHz); }
  }

  /** Readback equals promise in all eight fields, so the comparison that ends the transition succeeds. */
  lemma ReadbackEqualsPromise(r: Registers, c: Config)
    requires Validate(c).Value? && r.hsiDiv == 1 && r.live.sws == Target(c)
    requires r.div == DividerFields(c) && (c.usePll ==> PllInstalled(r, c))
    ensures GetFrequencies(r, c.sourceHz) == Validate(c)
  {
    ClockDecodesAsPromised(r, c, c.sourceHz);
    DividersRoundTrip(c.core, 0);
    DividersRoundTrip(c.ahb, 0);
    DividersRoundTrip(c.apb1, 0);
    DividersRoundTrip(c.apb2, 0);
    DividersRoundTrip(c.apb3, 0);
    DividersRoundTrip(c.apb4, 0);
  }
}
