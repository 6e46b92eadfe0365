/**
 Stream allocation under interleaving. Tasks and interrupts interleave at will; only the two PRIMASK
 sections are atomic, so every run is a sequence of those sections.
 */
module DmaAllocator {
  import opened Results
  import opened DmaHandle

  /** The shared bookkeeping, with what it does not store: allocations and ends of each stream so far. */
  datatype Book = Book(claimed: seq<bool>, generation: seq<Word>, allocs: seq<nat>, ends: seq<nat>)

  datatype Section = AcquireSection | ReleaseSection(h: Word)
  datatype Reply = Granted(h: Word) | Ended(stream: nat) | Refused

  ghost predicate Shape(b: Book) {
    |b.claimed| == |b.generation| == |b.allocs| == |b.ends| == STREAMS
  }

  ghost predicate BookOk(b: Book) {
    && Shape(b)
    && forall i :: 0 <= i < STREAMS ==>
         b.generation[i] == GenerationAfter(b.allocs[i]) && b.allocs[i] == b.ends[i] + (if b.claimed[i] then 1 else 0)
  }

  /** The check every entry point starts with. */
  predicate Accepts(b: Book, h: Word)
    requires Shape(b)
  {
    Matches(h, b.generation[Index(h)], b.claimed[Index(h)])
  }

  function FirstFree(claimed: seq<bool>, from: nat): (i: nat)
    requires from <= |claimed|
    ensures from <= i <= |claimed|
    ensures i < |claimed| ==> !claimed[i]
    ensures forall j :: from <= j < i ==> claimed[j]
    decreases |claimed| - from
  {
    if from == |claimed| || !claimed[from] then from else FirstFree(claimed, from + 1)
  }

  function Claim(b: Book, i: nat): Book
    requires Shape(b) && i < STREAMS
  {
    Book(b.claimed[i := true], b.generation[i := NextGeneration(b.generation[i])], b.allocs[i := b.allocs[i] + 1], b.ends)
  }

  function Step(b: Book, s: Section): (Book, Reply)
    requires Shape(b)
  {
    match s
    case AcquireSection =>
      var i := FirstFree(b.claimed, 0);
      if i < STREAMS then (Claim(b, i), Granted(MakeHandle(i, NextGeneration(b.generation[i])))) else (b, Refused)
    case ReleaseSection(h) =>
      var i := Index(h);
      if Accepts(b, h) then (b.(claimed := b.claimed[i := false], ends := b.ends[i := b.ends[i] + 1]), Ended(i))
      else (b, Refused)
  }

  function Zeros<T>(x: T): (r: seq<T>)
    ensures |r| == STREAMS && forall i :: 0 <= i < STREAMS ==> r[i] == x
  {
    [x, x, x, x, x, x, x, x]
  }

  const START := Book(Zeros(false), Zeros(0), Zeros(0), Zeros(0))

  /** The bookkeeping after a run from startup. */
  function Run(history: seq<Section>): (b: Book)
    ensures Shape(b)
  {
    if |history| == 0 then START
    else Step(Run(history[..|history| - 1]), history[|history| - 1]).0
  }

  function ReplyAt(history: seq<Section>, t: nat): Reply
    requires t < |history|
  {
    Step(Run(history[..t]), history[t]).1
  }

  // ---------- One section ----------

  lemma StepKeepsBook(b: Book, s: Section)
    requires BookOk(b)
    ensures BookOk(Step(b, s).0)
  {
    if s.AcquireSection? {
      var i := FirstFree(b.claimed, 0);
      if i < STREAMS { GenerationAdvances(b.allocs[i]); }
    }
  }

  /** An acquire is refused exactly when all eight streams are claimed; otherwise it hands out an unclaimed one. */
  lemma AcquireOutcome(b: Book)
    requires BookOk(b)
    ensures var (c, reply) := Step(b, AcquireSection);
      && (reply == Refused <==> forall i :: 0 <= i < STREAMS ==> b.claimed[i])
      && (reply == Refused ==> c == b)
      && (reply != Refused ==>
            reply.Granted? && reply.h != INVALID
            && var i := Index(reply.h); !b.claimed[i] && c == Claim(b, i) && Accepts(c, reply.h))
  {
    var i := FirstFree(b.claimed, 0);
    if i < STREAMS {
      GenerationAdvances(b.allocs[i]);
      IssuedHandleDecodes(i, NextGeneration(b.generation[i]));
    }
  }

  // ---------- Whole runs ----------

  lemma {:induction false} RunKeepsBook(history: seq<Section>)
    ensures BookOk(Run(history))
  {
    if |history| > 0 {
      RunKeepsBook(history[..|history| - 1]);
      StepKeepsBook(Run(history[..|history| - 1]), history[|history| - 1]);
    }
  }

  lemma RunExtends(history: seq<Section>, t: nat)
    requires t < |history|
    ensures Run(history[..t + 1]) == Step(Run(history[..t]), history[t]).0
  {
    assert history[..t + 1][..t] == history[..t];
  }

  lemma StepOnlyCounts(b: Book, s: Section, i: nat)
    requires Shape(b) && i < STREAMS
    ensures b.allocs[i] <= Step(b, s).0.allocs[i] && b.ends[i] <= Step(b, s).0.ends[i]
  {
  }

  /** Allocation and end counts never go back. */
  lemma {:induction false} CountsGrow(history: seq<Section>, s: nat, t: nat, i: nat)
    requires s <= t <= |history| && i < STREAMS
    ensures Run(history[..s]).allocs[i] <= Run(history[..t]).allocs[i]
    ensures Run(history[..s]).ends[i] <= Run(history[..t]).ends[i]
    decreases t - s
  {
    hide Step, Run;
    if s < t {
      CountsGrow(history, s, t - 1, i);
      RunExtends(history, t - 1);
      StepOnlyCounts(Run(history[..t - 1]), history[t - 1], i);
    }
  }

  function CountTrue(s: seq<bool>): nat {
    if s == [] then 0 else (if s[0] then 1 else 0) + CountTrue(s[1..])
  }

  function Grants(history: seq<Section>): nat {
    if history == [] then 0
    else Grants(history[..|history| - 1]) + (if ReplyAt(history, |history| - 1).Granted? then 1 else 0)
  }

  function Endings(history: seq<Section>): nat {
    if history == [] then 0
    else Endings(history[..|history| - 1]) + (if ReplyAt(history, |history| - 1).Ended? then 1 else 0)
  }

  lemma {:induction false} CountAfterUpdate(s: seq<bool>, i: nat, v: bool)
    requires i < |s|
    ensures CountTrue(s[i := v]) == CountTrue(s) - (if s[i] then 1 else 0) + (if v then 1 else 0)
  {
    if i == 0 {
      assert s[i := v][1..] == s[1..];
    } else {
      assert s[i := v][1..] == s[1..][i - 1 := v];
      CountAfterUpdate(s[1..], i - 1, v);
    }
  }

  /** Claimed streams are the successful acquires minus the successful releases, in every run. */
  lemma {:induction false} Conservation(history: seq<Section>)
    ensures CountTrue(Run(history).claimed) == Grants(history) - Endings(history)
  {
    if history != [] {
      var before, last := history[..|history| - 1], history[|history| - 1];
      Conservation(before);
      RunKeepsBook(before);
      var b := Run(before);
      match last
      case AcquireSection =>
        var i := FirstFree(b.claimed, 0);
        if i < STREAMS { CountAfterUpdate(b.claimed, i, true); }
      case ReleaseSection(h) =>
        if Accepts(b, h) { CountAfterUpdate(b.claimed, Index(h), false); }
    }
  }

  /** Section a of the run granted handle h: allocation k of stream i. */
  ghost predicate Issued(history: seq<Section>, a: nat, h: Word, i: nat, k: nat) {
    a < |history| && ReplyAt(history, a) == Granted(h) && i == Index(h) && k == Run(history[..a + 1]).allocs[i]
  }

  lemma IssuedFacts(history: seq<Section>, a: nat, h: Word, i: nat, k: nat)
    requires Issued(history, a, h, i, k)
    ensures h == MakeHandle(i, GenerationAfter(k)) && h != INVALID && k >= 1
    ensures k == Run(history[..a]).allocs[i] + 1 == Run(history[..a]).ends[i] + 1 == Run(history[..a + 1]).ends[i] + 1
  {
    RunKeepsBook(history[..a]);
    AcquireOutcome(Run(history[..a]));
    RunExtends(history, a);
    RunKeepsBook(history[..a + 1]);
    GenerationAdvances(Run(history[..a]).allocs[i]);
  }

  /** At any later moment the handle is accepted exactly when the stream is claimed by an allocation whole periods later. */
  lemma HandleAcceptedExactly(history: seq<Section>, a: nat, t: nat, h: Word, i: nat, k: nat)
    requires Issued(history, a, h, i, k) && a < t <= |history|
    ensures var b := Run(history[..t]);
      k <= b.allocs[i] && (Accepts(b, h) <==> b.claimed[i] && (b.allocs[i] - k) % PERIOD == 0)
  {
    hide Matches, MakeHandle, GenerationAfter, Run, Step;
    IssuedFacts(history, a, h, i, k);
    CountsGrow(history, a + 1, t, i);
    RunKeepsBook(history[..t]);
    MatchesOwnGenerationOnly(i, k, Run(history[..t]).allocs[i], Run(history[..t]).claimed[i]);
  }

  /**
   Through 536870909 further acquisitions of its stream, a handle is accepted exactly while its own
   allocation has not been ended: valid from acquire to release, and never again.
   */
  lemma HandleLivesExactlyAsLongAsItsAllocation(history: seq<Section>, a: nat, t: nat, h: Word, i: nat, k: nat)
    requires Issued(history, a, h, i, k) && a < t <= |history|
    requires Run(history[..t]).allocs[i] - k < PERIOD
    ensures Accepts(Run(history[..t]), h) <==> Run(history[..t]).ends[i] < k
  {
    hide Matches, MakeHandle, GenerationAfter, Run, Step;
    HandleAcceptedExactly(history, a, t, h, i, k);
    RunKeepsBook(history[..t]);
  }

  /** One acquisition further the generation has come round, and a stale handle is accepted again. */
  lemma StaleHandleReturnsAfterPeriod(history: seq<Section>, a: nat, t: nat, h: Word, i: nat, k: nat)
    requires Issued(history, a, h, i, k) && a < t <= |history|
    requires Run(history[..t]).allocs[i] == k + PERIOD && Run(history[..t]).claimed[i]
    ensures Run(history[..t]).ends[i] >= k && Accepts(Run(history[..t]), h)
  {
    hide Matches, MakeHandle, GenerationAfter, Run, Step;
    HandleAcceptedExactly(history, a, t, h, i, k);
    RunKeepsBook(history[..t]);
  }

  /** Racing releases: two that both succeed on a stream end different allocations, each of which was claimed. */
  lemma EachAllocationEndsOnce(history: seq<Section>, s: nat, t: nat, i: nat)
    requires s < t < |history| && i < STREAMS
    requires ReplyAt(history, s) == Ended(i) && ReplyAt(history, t) == Ended(i)
    ensures Run(history[..s]).claimed[i] && Run(history[..t]).claimed[i]
    ensures Run(history[..s]).allocs[i] < Run(history[..t]).allocs[i]
  {
    RunKeepsBook(history[..s]);
    RunKeepsBook(history[..t]);
    RunExtends(history, s);
    RunKeepsBook(history[..s + 1]);
    CountsGrow(history, s + 1, t, i);
  }

  /** While allocation k of a stream has not ended, the stream is not granted again. */
  lemma NoGrantBeforeEnd(history: seq<Section>, a: nat, b: nat, g: Word, h: Word, i: nat, k: nat, l: nat)
    requires Issued(history, a, g, i, k) && Issued(history, b, h, i, l) && a < b
    ensures Run(history).ends[i] >= k
  {
    assert history[..|history|] == history;
    IssuedFacts(history, a, g, i, k);
    IssuedFacts(history, b, h, i, l);
    CountsGrow(history, a + 1, b, i);
    CountsGrow(history, b, |history|, i);
  }

  /** Handles whose allocations have not ended name distinct streams. */
  lemma UnreleasedHandlesAreDistinct(history: seq<Section>, a: nat, b: nat, g: Word, h: Word, i: nat, j: nat, k: nat, l: nat)
    requires Issued(history, a, g, i, k) && Issued(history, b, h, j, l) && a < b
    requires Run(history).ends[i] < k && Run(history).ends[j] < l
    ensures i != j
  {
    if i == j { NoGrantBeforeEnd(history, a, b, g, h, i, k, l); }
  }

  lemma RunOne(history: seq<Section>, s: Section)
    ensures Run(history + [s]) == Step(Run(history), s).0
    ensures ReplyAt(history + [s], |history|) == Step(Run(history), s).1
  {
    assert (history + [s])[..|history|] == history;
  }

  // ---------- The shared arrays ----------

  /** The driver's static arrays, with the critical sections that update them. */
  class Bookkeeping {
    const claimed: array<bool>
    const generation: array<Word>
    ghost var history: seq<Section>     // every section executed so far, by any task
    ghost var mine: seq<nat>            // positions of the sections executed by the calls, not by other tasks
    ghost var refusals: nat             // times a stream did not stop

    ghost predicate Valid()
      reads this, claimed, generation
    {
      && claimed.Length == generation.Length == STREAMS
      && claimed[..] == Run(history).claimed && generation[..] == Run(history).generation
    }

    constructor ()
      ensures Valid() && history == [] && fresh(claimed) && fresh(generation)
    {
      claimed := new bool[STREAMS](_ => false);
      generation := new Word[STREAMS](_ => 0);
      history, mine, refusals := [], [], 0;
      new;
      assert claimed[..] == START.claimed && generation[..] == START.generation;
    }

    method HandleIndex(h: Word) returns (matches: bool)
      requires Valid()
      ensures matches == Accepts(Run(history), h)
    {
      var index := Index(h);
      matches := Matches(h, generation[index], claimed[index]);
    }

    /** The acquire section: first free stream, next generation. */
    method AcquireCritical() returns (reply: Reply)
      requires Valid()
      modifies this, claimed, generation
      ensures Valid() && history == old(history) + [AcquireSection]
      ensures reply == ReplyAt(history, |old(history)|) && mine == old(mine) + [|old(history)|]
      ensures (reply.Granted? || reply == Refused) && refusals == old(refusals)
    {
      ghost var b := Run(history);
      RunOne(history, AcquireSection);
      hide Run, ReplyAt, MakeHandle, NextGeneration;
      mine := mine + [|history|];
      history := history + [AcquireSection];
      var index := 0;
      while index < STREAMS
        invariant 0 <= index <= STREAMS
        invariant claimed[..] == b.claimed && generation[..] == b.generation
        invariant FirstFree(b.claimed, 0) == FirstFree(b.claimed, index)
      {
        if !claimed[index] {
          claimed[index] := true;
          generation[index] := NextGeneration(generation[index]);
          return Granted(MakeHandle(index, generation[index]));
        }
        index := index + 1;
      }
      return Refused;
    }

    /** The release section: the handle is checked again before the stream is given up. */
    method ReleaseCritical(h: Word) returns (reply: Reply)
      requires Valid()
      modifies this, claimed, generation
      ensures Valid() && history == old(history) + [ReleaseSection(h)]
      ensures reply == ReplyAt(history, |old(history)|) && mine == old(mine) + [|old(history)|]
      ensures reply == if Accepts(Run(old(history)), h) then Ended(Index(h)) else Refused
      ensures refusals == old(refusals)
    {
      RunOne(history, ReleaseSection(h));
      hide Run, ReplyAt, Matches;
      mine := mine + [|history|];
      history := history + [ReleaseSection(h)];
      var index := Index(h);
      if !Matches(h, generation[index], claimed[index]) {
        return Refused;
      }
      claimed[index] := false;
      return Ended(index);
    }

    /** Any number of sections of other tasks and interrupts. */
    method OtherTasks()
      requires Valid()
      modifies this, claimed, generation
      ensures Valid() && old(history) <= history && mine == old(mine) && refusals == old(refusals)
    {
      var n: nat := *;
      ghost var calls := mine;
      while n > 0
        invariant Valid() && old(history) <= history && mine == calls && refusals == old(refusals)
      {
        var acquire: bool, h: Word := *, *;
        var reply;
        if acquire { reply := AcquireCritical(); } else { reply := ReleaseCritical(h); }
        mine := calls;
        n := n - 1;
      }
    }

    /** `at` is the moment the call took effect among everybody's sections. */
    method Acquire() returns (r: Status, h: Word, ghost at: nat)
      requires Valid()
      modifies this, claimed, generation
      ensures Valid() && |old(history)| <= at < |history| && old(history) <= history && history[at] == AcquireSection
      ensures mine == old(mine) + [at]
      ensures r == Ok ==> ReplyAt(history, at) == Granted(h)
      ensures r != Ok ==> r == NotReady && h == INVALID && ReplyAt(history, at) == Refused
    {
      hide Step, Run;
      h := INVALID;
      OtherTasks();
      at := |history|;
      var reply := AcquireCritical();
      ghost var mine := history;
      OtherTasks();
      assert history[..at] == mine[..at] && history[at] == mine[at];
      if reply.Granted? {
        return Ok, reply.h, at;
      }
      return NotReady, h, at;
    }

    /** stop_stream touches stream registers, not the bookkeeping. */
    method StopStream() returns (stopped: bool)
      modifies `refusals
      ensures refusals == old(refusals) + (if stopped then 0 else 1)
    {
      stopped := *;
      if !stopped { refusals := refusals + 1; }
    }

    /**
     A release that times out executes no section; a refused one changes nothing, and the handle was not valid at a
     moment inside the call; a successful one ends one allocation.
     */
    method Release(h: Word) returns (r: Status, ghost at: nat)
      requires Valid()
      modifies this, claimed, generation
      ensures Valid() && old(history) <= history && r in {Ok, InvalidArgument, Timeout}
      ensures |old(history)| <= at <= |history|
      ensures refusals == old(refusals) + (if r == Timeout then 1 else 0)
      ensures r == Ok ==> at < |history| && history[at] == ReleaseSection(h)
                          && ReplyAt(history, at) == Ended(Index(h)) && mine == old(mine) + [at]
      ensures r == Timeout ==> mine == old(mine) && Accepts(Run(history[..at]), h)
      ensures r == InvalidArgument ==>
                && !Accepts(Run(history[..at]), h)
                && (mine == old(mine) || (at < |history| && mine == old(mine) + [at] && ReplyAt(history, at) == Refused))
    {
      hide Step, Run, Matches;
      OtherTasks();
      at := |history|;
      assert history[..at] == history;
      var matches := HandleIndex(h);
      if !matches { return InvalidArgument, at; }
      ghost var seen := history;
      OtherTasks();
      assert history[..at] == seen;
      var stopped := StopStream();
      if !stopped { return Timeout, at; }
      OtherTasks();
      at := |history|;
      seen := history;
      var reply := ReleaseCritical(h);
      ghost var after := history;
      OtherTasks();
      assert history[..at] == after[..at] == seen && history[at] == after[at];
      if reply == Refused { return InvalidArgument, at; }
      return Ok, at;
    }
  }
}
