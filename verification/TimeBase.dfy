/**
 Intervals, deadlines and delays over a 32-bit millisecond source that wraps, proved against a clock that
 does not: `now` is the true time, the source shows its low 32 bits.
 */
module TimeBase {
  import opened Results

  const MAX_INTERVAL := 0x7fff_ffff
  const HALF := 0x8000_0000

  /** Unsigned 32-bit subtraction. */
  function Since(reading: Word, start: Word): Word { (reading - start) % TWO_32 }

  function Reading(now: nat): Word { now % TWO_32 }

  predicate ReachedAt(reading: Word, deadline: Word) { Since(reading, deadline) <= MAX_INTERVAL }

  /** The wrapped difference is the true difference up to whole turns of the source. */
  lemma SinceIsElapsed(begin: nat, now: nat)
    ensures Since(Reading(now), Reading(begin)) == (now - begin) % TWO_32
  {
    var p, q := now / TWO_32, begin / TWO_32;
    assert now - begin == (now % TWO_32 - begin % TWO_32) + TWO_32 * (p - q);
  }

  /** An interval never ends early, and ends on time unless the source was not looked at for a whole window. */
  lemma IntervalIsExact(begin: nat, now: nat, interval: nat)
    requires begin <= now && interval <= MAX_INTERVAL
    ensures var over := Since(Reading(now), Reading(begin)) >= interval;
      && (over ==> now - begin >= interval)
      && (now - begin >= interval ==> (over <==> (now - begin) % TWO_32 >= interval))
      && (interval <= now - begin < interval + HALF + 1 ==> over)
  {
    SinceIsElapsed(begin, now);
  }

  /**
   A deadline is unreached until its true time; from then on it shows as reached for 2^31 ms, as unreached for
   the next 2^31, and so on.
   */
  lemma DeadlineIsExact(begin: nat, delay: nat, now: nat)
    requires begin <= now && delay <= MAX_INTERVAL
    ensures var reached := ReachedAt(Reading(now), (Reading(begin) + delay) % TWO_32);
      && (now < begin + delay ==> !reached)
      && (begin + delay <= now ==> (reached <==> (now - begin - delay) % TWO_32 < HALF))
      && (begin + delay <= now < begin + delay + HALF ==> reached)
      && (begin + delay + HALF <= now < begin + delay + TWO_32 ==> !reached)
    ensures 2 * HALF == TWO_32 && MAX_INTERVAL == HALF - 1
  {
    assert (Reading(begin) + delay) % TWO_32 == Reading(begin + delay) by { SumWraps(begin, delay); }
    SinceIsElapsed(begin + delay, now);
    if now < begin + delay {
      assert (now - begin - delay) % TWO_32 == now - begin - delay + TWO_32;
    }
  }

  lemma SumWraps(a: nat, b: nat)
    ensures (a % TWO_32 + b) % TWO_32 == (a + b) % TWO_32
  {
    var p := a / TWO_32;
    assert a + b == (a % TWO_32 + b) + TWO_32 * p;
  }

  /** The installed source. `steady` sources advance by 1 .. 2^31 ms between two readings; others as they like. */
  class TimeSource {
    const steady: bool
    var installed: bool
    var now: nat

    constructor (steady: bool)
      ensures this.steady == steady && !installed
    {
      this.steady := steady;
      installed, now := false, 0;
    }

    method SetSource(present: bool) returns (r: Status)
      modifies `installed
      ensures r == (if present then Ok else InvalidArgument) && installed == (old(installed) || present)
    {
      if !present { return InvalidArgument; }
      installed := true;
      return Ok;
    }

    ghost predicate Advanced(from: nat, to: nat) {
      from <= to && (steady ==> from + 1 <= to <= from + HALF)
    }

    method NowMs() returns (reading: Word)
      modifies `now
      ensures installed ==> reading == Reading(now) && Advanced(old(now), now)
      ensures !installed ==> reading == 0 && now == old(now)
    {
      if !installed { return 0; }
      var any: int := *;
      var tick := if steady then 1 + any % HALF else if any < 0 then 0 else any;
      now := now + tick;
      reading := now % TWO_32;
    }

    /** `begin` is the true time of the reading `start`. */
    method ElapsedMs(start: Word, ghost begin: nat) returns (elapsed: Word)
      requires begin <= now && start == Reading(begin)
      modifies `now
      ensures now >= old(now) && elapsed == (if installed then (now - begin) % TWO_32 else 0)
    {
      if !installed { return 0; }
      var t := NowMs();
      SinceIsElapsed(begin, now);
      elapsed := Since(t, start);
    }

    method IntervalElapsed(start: Word, interval: Word, ghost begin: nat) returns (over: bool)
      requires begin <= now && start == Reading(begin)
      modifies `now
      ensures now >= old(now) && (installed && interval <= MAX_INTERVAL ==> Advanced(old(now), now))
      ensures over <==> installed && interval <= MAX_INTERVAL && (now - begin) % TWO_32 >= interval
      ensures over ==> now - begin >= interval
    {
      if !installed || interval > MAX_INTERVAL { return false; }
      var t := NowMs();
      SinceIsElapsed(begin, now);
      over := Since(t, start) >= interval;
    }

    method DeadlineAfter(delay: Word) returns (r: Status, deadline: Word)
      modifies `now
      ensures now >= old(now)
      ensures r == if delay > MAX_INTERVAL then InvalidArgument else if !installed then NotReady else Ok
      ensures r == Ok ==> deadline == Reading(now + delay)
    {
      deadline := 0;
      if delay > MAX_INTERVAL { return InvalidArgument, deadline; }
      if !installed { return NotReady, deadline; }
      var t := NowMs();
      SumWraps(now, delay);
      return Ok, (t + delay) % TWO_32;
    }

    /** `due` is the true time the deadline was set for, `delay` ms after `due - delay`. */
    method DeadlineReached(deadline: Word, ghost due: nat, ghost delay: nat) returns (reached: bool)
      requires deadline == Reading(due) && delay <= MAX_INTERVAL && delay <= due <= now + delay
      modifies `now
      ensures now >= old(now)
      ensures !installed ==> !reached
      ensures now < due ==> !reached
      ensures installed && due <= now < due + HALF ==> reached
    {
      if !installed { return false; }
      var t := NowMs();
      SumWraps(due - delay, delay);
      DeadlineIsExact(due - delay, delay, now);
      reached := ReachedAt(t, deadline);
    }

    /** A delay lasts at least its duration, and ends with the first reading past it. */
    method Delay(duration: Word) returns (r: Status)
      requires steady
      modifies `now
      ensures r == if duration > MAX_INTERVAL then InvalidArgument
                   else if duration == 0 then Ok else if !installed then NotReady else Ok
      ensures r == Ok && duration > 0 ==> duration <= now - old(now) < duration + 2 * HALF
      ensures r != Ok || duration == 0 ==> now == old(now)
    {
      if duration > MAX_INTERVAL { return InvalidArgument; }
      if duration == 0 { return Ok; }
      if !installed { return NotReady; }
      var start := NowMs();
      ghost var begin := now;
      var t := NowMs();
      IntervalIsExact(begin, now, duration);
      while Since(t, start) < duration
        invariant installed && begin <= now < begin + duration + HALF && t == Reading(now)
        invariant Since(t, start) < duration <==> now < begin + duration
        decreases begin + duration - now
      {
        t := NowMs();
        IntervalIsExact(begin, now, duration);
      }
      return Ok;
    }
  }

  // ---------- Operation-wide waits ----------

  const FOREVER: Word := 0xffff_ffff

  /** One deadline for a whole transfer. */
  datatype Wait = Wait(finite: bool, start: Word, timeout: Word)

  /** The end of a polled call, or a call that is still polling when its last observed poll is over. */
  datatype Call = Returned(status: Status) | Polling

  ghost predicate Began(w: Wait, clock: TimeSource, begin: nat)
    reads clock
  {
    begin <= clock.now && (w.finite ==> clock.installed && w.timeout <= MAX_INTERVAL && w.start == Reading(begin))
  }

  /** After this many polls of a finite wait on a steady clock, the time left covers the polls not yet made. */
  ghost predicate InTime(w: Wait, clock: TimeSource, begin: nat, polls: nat)
    reads clock
  {
    w.finite && clock.steady ==> polls <= clock.now - begin && (clock.now == begin || clock.now - begin < w.timeout)
  }

  method PrepareWait(clock: TimeSource, timeout: Word) returns (r: Status, w: Wait, ghost begin: nat)
    modifies clock`now
    ensures clock.now >= old(clock.now) && r in {Ok, InvalidArgument, NotReady}
    ensures r == InvalidArgument <==> timeout != FOREVER && timeout > MAX_INTERVAL
    ensures r == NotReady <==> timeout <= MAX_INTERVAL && !clock.installed
    ensures r == Ok ==> Began(w, clock, begin) && begin == clock.now && (w.finite <==> timeout != FOREVER)
                        && (w.finite ==> w.timeout == timeout) && InTime(w, clock, begin, 0)
  {
    w, begin := Wait(false, 0, 0), clock.now;
    if timeout == FOREVER { return Ok, w, begin; }
    if timeout > MAX_INTERVAL { return InvalidArgument, w, begin; }
    if !clock.installed { return NotReady, w, begin; }
    var start := clock.NowMs();
    return Ok, Wait(true, start, timeout), clock.now;
  }

  /** One poll of the wait: it ends no sooner than its timeout, and on a steady clock within as many polls. */
  method Expired(clock: TimeSource, w: Wait, ghost begin: nat, ghost polls: nat) returns (expired: bool)
    requires Began(w, clock, begin) && InTime(w, clock, begin, polls)
    modifies clock`now
    ensures Began(w, clock, begin) && clock.now >= old(clock.now)
    ensures expired ==> w.finite && clock.now - begin >= w.timeout
    ensures !expired ==> InTime(w, clock, begin, polls + 1)
  {
    if !w.finite { return false; }
    expired := clock.IntervalElapsed(w.start, w.timeout, begin);
    IntervalIsExact(begin, clock.now, w.timeout);
  }
}
