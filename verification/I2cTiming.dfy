/** The I2C timing register: a divider search, two rounded-up delays, and the rate read back from the result. */
module I2cTiming {
  import opened Results
  import opened Division

  const STANDARD: Word := 100_000
  const FAST: Word := 400_000
  const GIGA := 1_000_000_000
  const HOLD_NS := 100

  predicate BusRate(bus: Word) { bus == STANDARD || bus == FAST }

  function SetupNs(bus: Word): nat { if bus <= STANDARD then 500 else 125 }

  function CeilDiv(n: nat, d: nat): nat
    requires d > 0
  {
    (n + d - 1) / d
  }

  /** The driver's 64-bit division, cut to 32 bits. */
  function CeilDiv32(n: nat, d: nat): Word
    requires d > 0
  {
    CeilDiv(n, d) % TWO_32
  }

  lemma CeilDivAtMost(n: nat, d: nat, k: nat)
    requires d > 0
    ensures CeilDiv(n, d) <= k <==> n <= d * k
  {
    var q := CeilDiv(n, d);
    QuotientBounds(n + d - 1, d);
    if q <= k { MulMonotone(q, k, d); } else { MulMonotone(k + 1, q, d); }
  }

  lemma CeilDivFits(n: nat, d: nat)
    requires d > 0 && n <= d * (TWO_32 - 1)
    ensures CeilDiv32(n, d) == CeilDiv(n, d)
  {
    CeilDivAtMost(n, d, TWO_32 - 1);
  }

  // ---------- The prescaler search ----------

  predicate Workable(kernel: Word, bus: Word, candidate: nat)
    requires BusRate(bus) && candidate > 0
  {
    2 <= CeilDiv32(kernel, 2 * bus * candidate) <= 256
  }

  lemma WorkableExactly(kernel: Word, bus: Word, candidate: nat)
    requires BusRate(bus) && candidate > 0
    ensures Workable(kernel, bus, candidate) <==> 2 * bus * candidate < kernel <= 512 * bus * candidate
  {
    var d := 2 * bus * candidate;
    CeilDivFits(kernel, d);
    CeilDivAtMost(kernel, d, 1);
    CeilDivAtMost(kernel, d, 256);
  }

  /** The least divider that keeps a half period within 256 ticks. */
  function Least(kernel: Word, bus: Word): nat
    requires BusRate(bus)
  {
    CeilDiv(kernel, 512 * bus)
  }

  /** A search over 1 .. 16 succeeds exactly for these kernel clocks, and then finds `Least`. */
  lemma SearchSucceedsExactly(kernel: Word, bus: Word)
    requires BusRate(bus)
    ensures (exists c: nat :: 1 <= c <= 16 && Workable(kernel, bus, c)) <==> 2 * bus < kernel <= 8192 * bus
    ensures 2 * bus < kernel <= 8192 * bus ==>
              var p := Least(kernel, bus);
              1 <= p <= 16 && Workable(kernel, bus, p) && forall c: nat :: 1 <= c < p ==> !Workable(kernel, bus, c)
  {
    var p := Least(kernel, bus);
    forall c: nat | c >= 1 ensures Workable(kernel, bus, c) <==> 2 * bus * c < kernel <= 512 * bus * c {
      WorkableExactly(kernel, bus, c);
    }
    if 2 * bus < kernel <= 8192 * bus {
      CeilDivAtMost(kernel, 512 * bus, 16);
      CeilDivAtMost(kernel, 512 * bus, 0);
      CeilDivAtMost(kernel, 512 * bus, p);
      CeilDivAtMost(kernel, 512 * bus, p - 1);
      assert Workable(kernel, bus, p);
      forall c: nat | 1 <= c < p ensures !Workable(kernel, bus, c) {
        CeilDivAtMost(kernel, 512 * bus, c);
      }
    }
  }

  method FindPrescaler(kernel: Word, bus: Word) returns (divider: nat, half: nat)
    requires BusRate(bus)
    ensures divider == 0 <==> !(2 * bus < kernel <= 8192 * bus)
    ensures divider > 0 ==> divider == Least(kernel, bus) && divider <= 16
                            && half == CeilDiv(kernel, 2 * bus * divider) && 2 <= half <= 256
  {
    SearchSucceedsExactly(kernel, bus);
    divider, half := 0, 0;
    var candidate := 1;
    while candidate <= 16
      invariant 1 <= candidate <= 17
      invariant forall c: nat :: 1 <= c < candidate ==> !Workable(kernel, bus, c)
    {
      var ticks := CeilDiv32(kernel, 2 * bus * candidate);
      if 2 <= ticks <= 256 {
        assert Workable(kernel, bus, candidate);
        CeilDivFits(kernel, 2 * bus * candidate);
        return candidate, ticks;
      }
      candidate := candidate + 1;
    }
  }

  // ---------- TIMINGR ----------

  datatype Fields = Fields(presc: nat, scldel: nat, sdadel: nat, sclh: nat, scll: nat)

  predicate FieldsFit(f: Fields) { f.presc < 16 && f.scldel < 16 && f.sdadel < 16 && f.sclh < 256 && f.scll < 256 }

  /** The five fields shifted into place; they do not overlap, so the bitwise or is their sum. */
  function Pack(f: Fields): Word
    requires FieldsFit(f)
  {
    f.presc * 0x1000_0000 + f.scldel * 0x10_0000 + f.sdadel * 0x1_0000 + f.sclh * 0x100 + f.scll
  }

  function Unpack(t: Word): (f: Fields)
    ensures FieldsFit(f)
  {
    Fields(t / 0x1000_0000 % 16, t / 0x10_0000 % 16, t / 0x1_0000 % 16, t / 0x100 % 256, t % 256)
  }

  lemma UnpackGivesBack(f: Fields)
    requires FieldsFit(f)
    ensures Unpack(Pack(f)) == f
  {
    var t := Pack(f);
    assert t / 0x100 == f.presc * 0x10_0000 + f.scldel * 0x1000 + f.sdadel * 0x100 + f.sclh;
    assert t / 0x1_0000 == f.presc * 0x1000 + f.scldel * 0x10 + f.sdadel;
    assert t / 0x10_0000 == f.presc * 0x100 + f.scldel;
  }

  /** The setup and hold times asked for, in nanoseconds. */
  function AskedSetup(bus: Word): nat { if bus == 100_000 then 500 else 125 }
  const ASKED_HOLD := 100

  /** What the bus gets from these fields, without the driver's roundings: times as multiples of the kernel period. */
  ghost predicate Meets(kernel: Word, bus: Word, f: Fields)
    requires BusRate(bus)
  {
    var p, half := f.presc + 1, f.scll + 1;
    && FieldsFit(f) && f.sclh == f.scll && p == Least(kernel, bus)
    && 2 * bus * p * (half - 1) < kernel <= 2 * bus * p * half
    && 1_000_000_000 * p * f.scldel < kernel * AskedSetup(bus) <= 1_000_000_000 * p * (f.scldel + 1)
    && kernel * ASKED_HOLD <= 1_000_000_000 * p * f.sdadel && (f.sdadel > 0 ==> 1_000_000_000 * p * (f.sdadel - 1) < kernel * ASKED_HOLD)
  }

  /** The clocks and rates that fit the register. */
  predicate Supported(kernel: Word, bus: Word)
    requires BusRate(bus)
  {
    var p := Least(kernel, bus);
    2 * bus < kernel <= 8192 * bus && kernel * AskedSetup(bus) <= 1_000_000_000 * p * 16 && kernel * ASKED_HOLD <= 1_000_000_000 * p * 15
  }

  method CalculateTiming(kernel: Word, bus: Word) returns (r: Status, timing: Word)
    ensures r == InvalidArgument <==> kernel == 0 || (bus != 100_000 && bus != 400_000)
    ensures r == Unsupported <==> kernel > 0 && BusRate(bus) && !Supported(kernel, bus)
    ensures r == Ok <==> kernel > 0 && BusRate(bus) && Supported(kernel, bus)
    ensures r == Ok ==> Meets(kernel, bus, Unpack(timing))
  {
    hide Pack, Unpack, Least, CeilDiv, CeilDiv32;
    timing := 0;
    if kernel == 0 || (bus != STANDARD && bus != FAST) {
      return InvalidArgument, timing;
    }
    var divider, half := FindPrescaler(kernel, bus);
    if divider == 0 {
      return Unsupported, timing;
    }
    var setup := CeilDiv32(kernel * SetupNs(bus), GIGA * divider);
    var hold := CeilDiv32(kernel * HOLD_NS, GIGA * divider);
    DelaysAreExact(kernel * SetupNs(bus), divider);
    DelaysAreExact(kernel * HOLD_NS, divider);
    if setup == 0 {
      assert false;      // the driver's floor of one tick
    }
    if setup > 16 || hold > 15 {
      return Unsupported, timing;
    }
    var f := Fields(divider - 1, setup - 1, hold, half - 1, half - 1);
    CeilDivAtMost(kernel, 2 * bus * divider, half);
    CeilDivAtMost(kernel, 2 * bus * divider, half - 1);
    UnpackGivesBack(f);
    return Ok, Pack(f);
  }

  lemma DelaysAreExact(n: nat, divider: nat)
    requires n <= 500 * TWO_32 && divider > 0
    ensures var t := CeilDiv32(n, GIGA * divider);
      && n <= GIGA * divider * t && (t > 0 ==> GIGA * divider * (t - 1) < n) && (t == 0 <==> n == 0)
      && (t <= 16 <==> n <= GIGA * divider * 16) && (t <= 15 <==> n <= GIGA * divider * 15)
  {
    var d := GIGA * divider;
    CeilDivFits(n, d);
    var t := CeilDiv(n, d);
    CeilDivAtMost(n, d, t);
    if t > 0 { CeilDivAtMost(n, d, t - 1); }
    CeilDivAtMost(n, d, 0);
    CeilDivAtMost(n, d, 15);
    CeilDivAtMost(n, d, 16);
  }

  /** Every HSI frequency the driver can select works at both bus rates. */
  lemma HsiAlwaysSupported(kernel: Word, bus: Word)
    requires kernel in {64_000_000, 32_000_000, 16_000_000, 8_000_000} && BusRate(bus)
    ensures Supported(kernel, bus)
  {
  }

  // ---------- Reading the rate back ----------

  /** Kernel periods in one bus period. */
  function Ticks(f: Fields): (d: nat)
    requires FieldsFit(f)
    ensures 0 < d <= 16 * 512
  {
    MulMonotone(1, f.sclh + 1 + (f.scll + 1), f.presc + 1);
    MulMonotone(f.sclh + 1 + (f.scll + 1), 512, f.presc + 1);
    (f.presc + 1) * ((f.sclh + 1) + (f.scll + 1))
  }

  function ReportedRate(kernel: Word, timing: Word): int {
    kernel / Ticks(Unpack(timing))
  }

  /** The rate read back is never zero and never above the request, and a half period shorter by one tick would be. */
  lemma ReportedRateIsWithinRequest(kernel: Word, bus: Word, timing: Word)
    requires BusRate(bus) && Supported(kernel, bus) && Meets(kernel, bus, Unpack(timing))
    ensures 0 < ReportedRate(kernel, timing) <= bus
    ensures var f := Unpack(timing); bus * (2 * (f.presc + 1) * f.scll) < kernel
  {
    hide Unpack;
    var f := Unpack(timing);
    RateBounds(kernel, bus, f.presc + 1, f.scll + 1, Ticks(f));
  }

  lemma Regroup(b: int, p: int, h: int)
    ensures 2 * b * p * h == b * (2 * p * h) == b * (p * (h + h))
  {
    assert 2 * p * h == p * (h + h);
  }

  lemma RateBounds(kernel: Word, bus: Word, p: nat, half: nat, d: nat)
    requires BusRate(bus) && d == p * (half + half) && 0 < d <= 16 * 512 && 2 * bus < kernel
    requires 2 * bus * p * (half - 1) < kernel <= 2 * bus * p * half
    ensures 0 < kernel / d <= bus && bus * (2 * p * (half - 1)) < kernel
  {
    Regroup(bus, p, half);
    Regroup(bus, p, half - 1);
    QuotientInRange(kernel, bus, d);
  }

  lemma QuotientInRange(n: nat, b: nat, d: nat)
    requires 0 < d <= n <= b * d
    ensures 0 < n / d <= b
  {
    var q := n / d;
    QuotientBounds(n, d);
    if q > b { MulMonotone(b + 1, q, d); }
    if q <= 0 { MulMonotone(q, 0, d); }
  }
}
