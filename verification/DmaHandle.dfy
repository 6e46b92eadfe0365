/** DMA handles: three bits of stream index under a 29-bit allocation generation. */
module DmaHandle {
  import opened Results
  import opened Division

  const STREAMS := 8
  const GENERATION_LIMIT := 0x1fff_ffff
  const INVALID: Word := 0xffff_ffff
  const PERIOD := 536_870_910     // generations in use: 1 .. GENERATION_LIMIT - 1

  function Index(h: Word): nat { h % STREAMS }
  function Generation(h: Word): nat { h / STREAMS }

  function NextGeneration(previous: Word): Word {
    if previous >= GENERATION_LIMIT - 1 then 1 else previous + 1
  }

  /** (generation << 3) | index in 32 bits; the shift leaves the low bits free. */
  function MakeHandle(index: nat, generation: Word): Word
    requires index < STREAMS
  {
    (generation * STREAMS) % TWO_32 + index
  }

  predicate Matches(h: Word, activeGeneration: Word, claimed: bool) {
    var token := Generation(h);
    claimed && h != INVALID && token != 0 && token < GENERATION_LIMIT && token == activeGeneration
  }

  /** The generation word of a stream that has been allocated n times. */
  function GenerationAfter(n: nat): Word {
    if n == 0 then 0 else 1 + (n - 1) % PERIOD
  }

  lemma GenerationAdvances(n: nat)
    ensures NextGeneration(GenerationAfter(n)) == GenerationAfter(n + 1)
    ensures 1 <= GenerationAfter(n + 1) < GENERATION_LIMIT
  {
    if n > 0 {
      assert n % PERIOD == if (n - 1) % PERIOD == PERIOD - 1 then 0 else (n - 1) % PERIOD + 1;
    }
  }

  /** Every issued handle decodes to its parts and is never the invalid handle. */
  lemma IssuedHandleDecodes(index: nat, generation: Word)
    requires index < STREAMS && 1 <= generation < GENERATION_LIMIT
    ensures var h := MakeHandle(index, generation);
      && Index(h) == index && Generation(h) == generation && h != INVALID
      && Matches(h, generation, true) && !Matches(h, generation, false)
  {
    var g := generation;
    assert (8 * g + index) / 8 == g && (8 * g + index) % 8 == index;
  }

  lemma SameResidue(a: nat, b: nat, d: nat)
    requires d > 0
    ensures (b - a) % d == 0 <==> a % d == b % d
  {
    var p, q := a / d, b / d;
    QuotientBounds(a, d);
    QuotientBounds(b, d);
    QuotientBounds(b - a, d);
    if a % d == b % d {
      assert b - a == d * q - d * p == d * (q - p);
      QuotientUnique(b - a, d, q - p);
    }
    if (b - a) % d == 0 {
      var gap := (b - a) / d;
      assert d * (p + gap) == d * p + d * gap;
      QuotientUnique(b, d, p + gap);
    }
  }

  /** The handle of allocation k fits allocation n of the same stream exactly when n is a whole number of periods later. */
  lemma MatchesOwnGenerationOnly(index: nat, k: nat, n: nat, claimed: bool)
    requires index < STREAMS && 1 <= k <= n
    ensures Matches(MakeHandle(index, GenerationAfter(k)), GenerationAfter(n), claimed)
            <==> claimed && (n - k) % PERIOD == 0
  {
    GenerationAdvances(k - 1);
    GenerationAdvances(n - 1);
    IssuedHandleDecodes(index, GenerationAfter(k));
    SameResidue(k - 1, n - 1, PERIOD);
  }
}
