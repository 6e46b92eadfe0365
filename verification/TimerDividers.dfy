/** Timer and PWM dividers: rounded divisions that must fit 16- and 32-bit registers, and be undone by reading back. */
module TimerDividers {
  import opened Results
  import opened Division

  const MAX_PERIOD := 65536

  /** Prescaler and reload registers hold one less than they divide by. */
  datatype Dividers = Dividers(prescaler: Word, autoreload: Word)

  /** x / d to the nearest integer, halves upwards, as the driver computes it. */
  function Rounded(x: nat, d: nat): int
    requires d > 0
  {
    (x + d / 2) / d
  }

  /** a lies within half of `step` of b. */
  predicate Near(a: int, b: int, step: int) { -step <= 2 * (a - b) <= step }

  lemma RoundedBounds(x: nat, d: nat)
    requires d > 0
    ensures var q := Rounded(x, d); q >= 0 && Near(d * q, x, d) && d * q <= x + d / 2 < d * q + d
  {
    QuotientBounds(x + d / 2, d);
    if Rounded(x, d) < 0 { MulMonotone(Rounded(x, d), -1, d); }
  }

  lemma RoundedAtMost(x: nat, d: nat, k: nat)
    requires d > 0
    ensures Rounded(x, d) <= k <==> x + d / 2 < d * (k + 1)
  {
    RoundedBounds(x, d);
    var q := Rounded(x, d);
    if q <= k { MulMonotone(q, k, d); } else { MulMonotone(k + 1, q, d); }
    assert d * (k + 1) == d * k + d;
  }

  lemma RoundedAtLeast(x: nat, d: nat, k: nat)
    requires d > 0
    ensures Rounded(x, d) >= k <==> x + d / 2 >= d * k
  {
    RoundedBounds(x, d);
    var q := Rounded(x, d);
    if q >= k { MulMonotone(k, q, d); } else { MulMonotone(q + 1, k, d); assert d * (q + 1) == d * q + d; }
  }

  // ---------- Choosing dividers ----------

  function PeriodicDividers(clock: Word, requested: Word): Outcome<Dividers> {
    if requested == 0 || requested > clock then Failure(InvalidArgument)
    else
      var period := Rounded(clock, requested);
      if period == 0 || !(0 < period <= TWO_32) then Failure(Unsupported)
      else Value(Dividers(0, period - 1))
  }

  /** ceil(total / 65536) */
  function PrescalerFor(total: nat): int {
    (total + MAX_PERIOD - 1) / MAX_PERIOD
  }

  function PwmDividers(clock: Word, requested: Word): Outcome<Dividers> {
    if requested == 0 || requested > clock then Failure(InvalidArgument)
    else
      var total := Rounded(clock, requested);
      if total <= 0 then Failure(Unsupported)
      else
        var divider := if PrescalerFor(total) == 0 then 1 else PrescalerFor(total);
        if divider > MAX_PERIOD then Failure(Unsupported)
        else PeriodFor(clock, requested, divider)
  }

  function PeriodFor(clock: Word, requested: Word, divider: nat): Outcome<Dividers>
    requires requested > 0 && divider <= MAX_PERIOD
  {
    if divider == 0 then Failure(Unsupported)
    else
      var denominator := requested * divider;
      MulMonotone(1, divider, requested);
      var period := if Rounded(clock, denominator) == 0 then 1 else Rounded(clock, denominator);
      if period > MAX_PERIOD || period < 0 then Failure(Unsupported)
      else Value(Dividers(divider - 1, period - 1))
  }

  /** A periodic rate is always available, and the period is the nearest one. */
  lemma PeriodicDividersAreTight(clock: Word, requested: Word)
    ensures PeriodicDividers(clock, requested) == Failure(InvalidArgument) <==> requested == 0 || requested > clock
    ensures 1 <= requested <= clock ==>
              && PeriodicDividers(clock, requested).Value?
              && var d := PeriodicDividers(clock, requested).value;
                 d.prescaler == 0 && Near((d.autoreload + 1) * requested, clock, requested)
  {
    if 1 <= requested <= clock {
      RoundedBounds(clock, requested);
      RoundedAtLeast(clock, requested, 1);
      RoundedAtMost(clock, requested, TWO_32);
      MulMonotone(1, requested, TWO_32 + 1);
    }
  }
  /** The least prescaler for this many counts, and the counts it stands for. */
  lemma PrescalerCovers(total: nat)
    requires 1 <= total <= TWO_32
    ensures var p := PrescalerFor(total);
      1 <= p <= MAX_PERIOD && MAX_PERIOD * (p - 1) < total <= MAX_PERIOD * p
  {
  }

  /** With the prescaler chosen for the total, the rounded period fits 16 bits and uses at least half of them. */
  lemma PeriodFits(clock: Word, requested: Word, total: nat, divider: nat)
    requires 1 <= requested && divider >= 1 && total == Rounded(clock, requested) >= 1
    requires MAX_PERIOD * (divider - 1) < total <= MAX_PERIOD * divider
    ensures requested * divider > 0 && 1 <= Rounded(clock, requested * divider) <= MAX_PERIOD
    ensures divider > 1 ==> Rounded(clock, requested * divider) >= MAX_PERIOD / 2
  {
    hide Rounded;
    var d := requested * divider;
    MulMonotone(1, divider, requested);
    RoundedBounds(clock, requested);
    MulMonotone(total, MAX_PERIOD * divider, requested);
    assert requested * (MAX_PERIOD * divider) == MAX_PERIOD * d;
    RoundedAtMost(clock, d, MAX_PERIOD);
    RoundedAtLeast(clock, d, 1);
    if divider > 1 {
      MulMonotone(MAX_PERIOD / 2 * divider + 1, total, requested);
      assert requested * (MAX_PERIOD / 2 * divider + 1) == MAX_PERIOD / 2 * d + requested;
      RoundedAtLeast(clock, d, MAX_PERIOD / 2);
    }
  }

  /** A PWM rate is always available: both registers fit 16 bits and the period is the nearest for its prescaler. */
  lemma PwmDividersAreTight(clock: Word, requested: Word)
    ensures PwmDividers(clock, requested) == Failure(InvalidArgument) <==> requested == 0 || requested > clock
    ensures 1 <= requested <= clock ==>
              && PwmDividers(clock, requested).Value?
              && var p, n := PwmDividers(clock, requested).value.prescaler + 1, PwmDividers(clock, requested).value.autoreload + 1;
                 && 1 <= p <= MAX_PERIOD && 1 <= n <= MAX_PERIOD && (p > 1 ==> n >= MAX_PERIOD / 2)
                 && Near(requested * p * n, clock, requested * p)
  {
    if 1 <= requested <= clock {
      var total := Rounded(clock, requested);
      RoundedAtLeast(clock, requested, 1);
      RoundedAtMost(clock, requested, TWO_32 - 1);
      PrescalerCovers(total);
      var divider := PrescalerFor(total);
      PeriodFits(clock, requested, total, divider);
      RoundedBounds(clock, requested * divider);
    }
  }

  // ---------- Reading rates back ----------

  function ReportedHz(clock: Word, d: Dividers): int {
    MulMonotone(1, d.autoreload + 1, d.prescaler + 1);
    Rounded(clock, (d.prescaler + 1) * (d.autoreload + 1)) % TWO_32
  }

  /** A rate below the number of counts in its period is read back exactly. */
  lemma RateReadsBack(clock: Word, requested: Word, d: Dividers)
    requires Near(requested * (d.prescaler + 1) * (d.autoreload + 1), clock, requested * (d.prescaler + 1))
    requires requested < d.autoreload + 1
    ensures ReportedHz(clock, d) == requested
  {
    hide Rounded;
    var p, n := d.prescaler + 1, d.autoreload + 1;
    var x, step := p * n, p * requested;
    assert step + p <= x by { MulStrict(requested, n, p); }
    assert step >= 0 by { MulMonotone(0, requested, p); }
    assert Near(x * requested, clock, step) by { Regroup(requested, p, n); }
    RoundedIsNearest(clock, x, requested);
  }

  lemma Regroup(a: int, b: int, c: int)
    ensures a * b * c == b * c * a && a * b == b * a
  {
  }

  /** Whatever is nearer than half a step is what rounding gives. */
  lemma RoundedIsNearest(x: nat, d: nat, q: nat)
    requires d > 0 && 2 * (d * q - x) < d && 2 * (x - d * q) < d
    ensures Rounded(x, d) == q
  {
    QuotientUnique(x + d / 2, d, q);
  }

  // ---------- Duty ----------

  /** Compare value for a duty in per mille, clamped to 16 bits. */
  function Compare(period: nat, duty: nat): nat {
    var compare := (period * duty + 500) / 1000;
    if compare > 0xffff then 0xffff else compare
  }

  function ReadDuty(period: nat, compare: nat): int
    requires period > 0
  {
    var duty := (compare * 1000 + period / 2) / period;
    if duty > 1000 then 1000 else duty
  }

  /** More duty never means a shorter pulse, and the pulse never exceeds the period. */
  lemma CompareIsMonotoneAndBounded(period: nat, low: nat, high: nat)
    requires low <= high <= 1000
    ensures Compare(period, low) <= Compare(period, high) <= period
    ensures period <= 0xffff ==> Compare(period, 1000) == period
  {
    MulMonotone(low, high, period);
    MulMonotone(high, 1000, period);
  }

  /** Up to the 16-bit clamp, the pulse is the nearest to the duty asked for, and the duty read the nearest to the pulse. */
  lemma DutyIsNearest(period: nat, duty: nat, compare: nat)
    requires 0 < period <= MAX_PERIOD && duty <= 1000 && compare <= period
    ensures Near(1000 * Compare(period, duty), period * duty, 1000) || Compare(period, duty) == 0xffff
    ensures Near(period * ReadDuty(period, compare), 1000 * compare, period)
  {
    RoundedBounds(period * duty, 1000);
    RoundedBounds(1000 * compare, period);
    if (compare * 1000 + period / 2) / period > 1000 {
      MulMonotone(1001, (compare * 1000 + period / 2) / period, period);
    }
  }

  /** From 1000 counts on, every duty comes back as it was set, also through the 16-bit clamp. */
  lemma DutyRoundTrips(period: nat, duty: nat)
    requires 1000 <= period <= MAX_PERIOD && duty <= 1000
    ensures ReadDuty(period, Compare(period, duty)) == duty
  {
    var x := period * duty;
    var compare := (x + 500) / 1000;
    MulMonotone(duty, 1000, period);
    if compare > 0xffff {
      assert duty == 1000 by { if duty < 1000 { MulMonotone(duty, 999, period); } }
      QuotientUnique(0xffff * 1000 + period / 2, period, 1000);
    } else {
      QuotientUnique(compare * 1000 + period / 2, period, duty);
    }
  }

  /** Duties that all come back have distinct compare values, so there are at least as many counts as steps. */
  lemma {:induction false} DistinctDutiesNeedCounts(period: nat, upTo: nat)
    requires 0 < period && upTo <= 1000
    requires forall d: nat :: d <= 1000 ==> ReadDuty(period, Compare(period, d)) == d
    ensures Compare(period, upTo) >= upTo
  {
    if upTo > 0 {
      DistinctDutiesNeedCounts(period, upTo - 1);
      CompareIsMonotoneAndBounded(period, upTo - 1, upTo);
      assert ReadDuty(period, Compare(period, upTo - 1)) == upTo - 1;
    }
  }

  /** The round trip holds for every duty exactly from 1000 counts on. */
  lemma DutyRoundTripsExactly(period: nat)
    requires 0 < period <= MAX_PERIOD
    ensures (forall d: nat :: d <= 1000 ==> ReadDuty(period, Compare(period, d)) == d) <==> period >= 1000
  {
    if period >= 1000 {
      forall d: nat | d <= 1000 ensures ReadDuty(period, Compare(period, d)) == d { DutyRoundTrips(period, d); }
    } else if forall d: nat :: d <= 1000 ==> ReadDuty(period, Compare(period, d)) == d {
      DistinctDutiesNeedCounts(period, 1000);
      CompareIsMonotoneAndBounded(period, 1000, 1000);
    }
  }

  /** TIM1 channel 4. */
  class Pwm {
    var psc: Word
    var arr: Word
    var ccr4: Word
    var running: bool
    var latched: bool          // the preloaded values have been transferred by an update event

    constructor ()
      ensures !running
    {
      psc, arr, ccr4, running, latched := 0, 0xffff, 0, false, false;
    }

    ghost predicate Valid()
      reads this
    {
      psc < MAX_PERIOD && arr < MAX_PERIOD && ccr4 <= 0xffff
    }

    /** `clock` is the timer kernel clock, if the clock tree has one to offer. */
    method Init(valid: bool, clock: Outcome<Word>, requested: Word, duty: nat) returns (r: Status)
      modifies this
      ensures !valid || requested == 0 || duty > 1000 ==> r == InvalidArgument
      ensures valid && requested > 0 && duty <= 1000 ==>
                r == match clock
                     case Failure(status) => status
                     case Value(hz) => if requested > hz then InvalidArgument else Ok
      ensures r == Ok && clock.Value? ==>
                && Valid() && !running && latched && ccr4 == Compare(arr + 1, duty)
                && Near(requested * (psc + 1) * (arr + 1), clock.value, requested * (psc + 1))
                && (psc > 0 ==> arr + 1 >= MAX_PERIOD / 2)
      ensures r != Ok ==> unchanged(this)
    {
      if !valid || requested == 0 || duty > 1000 {
        return InvalidArgument;
      }
      if clock.Failure? {
        return clock.status;
      }
      PwmDividersAreTight(clock.value, requested);
      var dividers := PwmDividers(clock.value, requested);
      if dividers.Failure? {
        return dividers.status;
      }
      running := false;
      psc, arr := dividers.value.prescaler, dividers.value.autoreload;
      ccr4 := Compare(arr + 1, duty);
      latched := true;
      return Ok;
    }

    /** While stopped, the new duty is latched at once; while running, at the end of the period. */
    method SetDuty(valid: bool, duty: nat) returns (r: Status)
      requires Valid()
      modifies this
      ensures r == if !valid || duty > 1000 then InvalidArgument else Ok
      ensures r == Ok ==> Valid() && psc == old(psc) && arr == old(arr) && running == old(running)
                          && ccr4 == Compare(arr + 1, duty) && latched == !running
                          && (arr + 1 >= 1000 ==> ReadDuty(arr + 1, ccr4) == duty)
      ensures r != Ok ==> unchanged(this)
    {
      if !valid || duty > 1000 {
        return InvalidArgument;
      }
      var period := arr + 1;
      CompareIsMonotoneAndBounded(period, duty, duty);
      ccr4 := Compare(period, duty);
      if arr + 1 >= 1000 { DutyRoundTrips(period, duty); }
      latched := !running;
      return Ok;
    }

    method GetDuty(valid: bool) returns (r: Status, duty: int)
      requires Valid()
      ensures r == if valid then Ok else InvalidArgument
      ensures r == Ok ==> duty == ReadDuty(arr + 1, ccr4) <= 1000
    {
      if !valid {
        return InvalidArgument, 0;
      }
      return Ok, ReadDuty(arr + 1, ccr4);
    }
  }
}
