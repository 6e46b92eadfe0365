/**
 The Cortex-M7 data cache as the drivers see it: the line cover computed for a byte range,
 and the behaviour of one write-back line that DMA can reach behind the cache's back.
 */
module Cache {
  import opened Results

  const LINE_SIZE := 32
  const ADDRESS_MAX := TWO_32 - 1
  const SPAN_MAX := 0x7fff_ffff

  datatype Range = Range(first: Word, span: Word)

  /** The line-aligned range handed to the cache maintenance primitives. Address 0 is the null pointer. */
  function CacheRange(address: Word, size: Word): Outcome<Range> {
    if size == 0 then Value(Range(0, 0))
    else if address == 0 then Failure(InvalidArgument)
    else if size > ADDRESS_MAX - address then Failure(InvalidArgument)
    else
      var end := address + size;
      var mask := LINE_SIZE - 1;
      var first := address - address % LINE_SIZE;
      if end > ADDRESS_MAX - mask then Failure(InvalidArgument)
      else
        var last := (end + mask) - (end + mask) % LINE_SIZE;
        if last - first > SPAN_MAX then Failure(InvalidArgument)
        else Value(Range(first, last - first))
  }

  ghost predicate Aligned(address: int) {
    address % LINE_SIZE == 0
  }

  /** [first, last) is a union of whole lines that contains [address, address + size). */
  ghost predicate Covers(first: int, last: int, address: int, size: int) {
    Aligned(first) && Aligned(last) && first <= address && address + size <= last
  }

  lemma AlignedGap(low: int, high: int)
    requires Aligned(low) && Aligned(high) && low < high
    ensures low + LINE_SIZE <= high
  {
    assert low == LINE_SIZE * (low / LINE_SIZE) && high == LINE_SIZE * (high / LINE_SIZE);
  }

  /** The computed range covers the bytes, and every other cover contains it. */
  lemma RangeIsSmallestCover(address: Word, size: Word, first: int, last: int)
    requires size > 0 && CacheRange(address, size).Value?
    requires Covers(first, last, address, size)
    ensures var r := CacheRange(address, size).value;
      && Covers(r.first, r.first + r.span, address, size)
      && first <= r.first && r.first + r.span <= last
      && r.span > 0
  {
    var r := CacheRange(address, size).value;
    if r.first < first {
      AlignedGap(r.first, first);
    }
    if last < r.first + r.span {
      AlignedGap(last, r.first + r.span);
    }
  }

  /** A range that has a cover the primitives can take is accepted. */
  lemma CoveredRangeIsAccepted(address: Word, size: Word, first: int, last: int)
    requires size > 0 && address != 0 && Covers(first, last, address, size)
    requires 0 <= first && last <= TWO_32 - LINE_SIZE && last - first <= SPAN_MAX
    ensures CacheRange(address, size).Value?
  {
    var low := address - address % LINE_SIZE;
    var high := (address + size + 31) - (address + size + 31) % LINE_SIZE;
    if low < first { AlignedGap(low, first); }
    if last < high { AlignedGap(last, high); }
  }

  /** The range asks for something the primitives can do: a non-null address whose cover fits. */
  ghost predicate Coverable(address: Word, size: Word) {
    address != 0 &&
    exists first, last :: Covers(first, last, address, size)
                          && 0 <= first && last <= TWO_32 - LINE_SIZE && last - first <= SPAN_MAX
  }

  /** A range is refused exactly when it is null, wraps, or its smallest cover does not fit the primitives. */
  lemma RangeRefusedExactly(address: Word, size: Word)
    requires size > 0
    ensures CacheRange(address, size).Value? <==> Coverable(address, size)
  {
    if CacheRange(address, size).Value? {
      var r := CacheRange(address, size).value;
      assert Covers(r.first, r.first + r.span, address, size);
    }
    if Coverable(address, size) {
      var first, last :| Covers(first, last, address, size)
                         && 0 <= first && last <= TWO_32 - LINE_SIZE && last - first <= SPAN_MAX;
      CoveredRangeIsAccepted(address, size, first, last);
    }
  }

  /** The lines of a line-aligned array that a maintenance call on its first `size` bytes touches. */
  function LinesOf(size: nat): nat {
    (size + LINE_SIZE - 1) / LINE_SIZE
  }

  /** On a line-isolated array the cover is exactly its own first lines: no neighbour shares one. */
  lemma RangeOfAlignedArray(base: Word, size: Word)
    requires base > 0 && Aligned(base) && size > 0 && base + size <= ADDRESS_MAX - LINE_SIZE && size <= 0x10000
    ensures CacheRange(base, size) == Value(Range(base, LINE_SIZE * LinesOf(size)))
    ensures size <= LINE_SIZE * LinesOf(size) < size + LINE_SIZE
  {
    var end := base + size;
    assert (end + 31) % LINE_SIZE == (size + 31) % LINE_SIZE by {
      assert end + 31 == LINE_SIZE * (base / LINE_SIZE) + (size + 31);
    }
  }

  datatype Copy<T> = Absent | Present(val: T, dirty: bool)

  /** One cache line: its content in memory, and the cache's own copy of it. */
  datatype Line<T> = Line(mem: T, copy: Copy<T>) {
    /** What the CPU reads. */
    function View(): T {
      if copy.Present? then copy.val else mem
    }

    predicate Dirty() {
      copy.Present? && copy.dirty
    }

    /** A clean copy that agrees with memory: evicting or refetching it changes nothing the CPU sees. */
    ghost predicate Coherent() {
      copy.Present? && !copy.dirty ==> copy.val == mem
    }

    function Fetch(): Line<T> {
      if copy.Absent? then Line(mem, Present(mem, false)) else this
    }

    function Evict(): Line<T> {
      Line(if Dirty() then copy.val else mem, Absent)
    }

    function Clean(): Line<T> {
      if Dirty() then Line(copy.val, Present(copy.val, false)) else this
    }

    function Invalidate(): Line<T> {
      Line(mem, Absent)
    }

    /** A CPU store that leaves the line reading v; a miss either allocates the line or writes through. */
    function Store(v: T, allocate: bool): Line<T> {
      if copy.Present? || allocate then Line(mem, Present(v, true)) else Line(v, Absent)
    }

    /** A DMA store reaches memory only. */
    function DmaStore(v: T): Line<T> {
      Line(v, copy)
    }
  }

  /**
   With the cache switched off every line stays Absent, and there the maintenance operations do nothing:
   skipping them, as the API does then, and issuing them are the same.
   */
  lemma AbsentLineNeedsNoMaintenance<T>(l: Line<T>)
    requires l.copy.Absent?
    ensures l.Clean() == l && l.Invalidate() == l && l.Evict() == l
  {
  }
}
