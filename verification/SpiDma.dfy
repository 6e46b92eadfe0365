/**
 SPI transfers by two DMA streams. Each chunk acquires a pair of streams and owes them back on every way out.
 */
module SpiDma {
  import opened Results
  import opened TimeBase
  import opened DmaHandle
  import opened DmaAllocator
  import opened DmaFlags
  import opened DmaController
  import SpiPolled

  const RX_REQUEST: Word := 37
  const TX_REQUEST: Word := 38
  const RXDR: Word := 0x4001_3030
  const TXDR: Word := 0x4001_3020

  const RX_CONFIG := Config(PeripheralToMemory, 1, 1, false, true)
  const TX_CONFIG := Config(MemoryToPeripheral, 1, 1, true, false)

  /** The pair names two different streams that were free before; nothing else was claimed. */
  ghost predicate Paired(b: Book, c: Book, rx: Word, tx: Word) {
    && Shape(b) && Shape(c) && Index(rx) != Index(tx)
    && !b.claimed[Index(rx)] && !b.claimed[Index(tx)]
    && c == Claim(Claim(b, Index(rx)), Index(tx)) && Accepts(c, rx) && Accepts(c, tx)
  }

  /** A pair can be had. */
  ghost predicate TwoFree(claimed: seq<bool>) {
    exists i, j :: 0 <= i < j < |claimed| && !claimed[i] && !claimed[j]
  }

  function Released(b: Book, h: Word): Book
    requires Shape(b)
  {
    Step(b, ReleaseSection(h)).0
  }

  /** Giving back both streams, in either order, restores the claims. */
  lemma PairGivesBack(b: Book, c: Book, rx: Word, tx: Word)
    requires Paired(b, c, rx, tx)
    ensures Released(Released(c, rx), tx).claimed == b.claimed == Released(Released(c, tx), rx).claimed
    ensures Accepts(c, rx) && Accepts(Released(c, rx), tx) && Accepts(Released(c, tx), rx)
  {
  }

  lemma ClaimThenRelease(b: Book, c: Book, h: Word)
    requires Shape(b) && c == Claim(b, Index(h)) && !b.claimed[Index(h)] && Accepts(c, h)
    ensures Released(c, h).claimed == b.claimed
  {
  }

  lemma SecondClaimKeepsFirst(b: Book, c: Book, d: Book, rx: Word, tx: Word)
    requires Shape(b) && Shape(c) && Shape(d) && Accepts(c, rx) && c == Claim(b, Index(rx)) && !b.claimed[Index(rx)]
    requires d == Claim(c, Index(tx)) && !c.claimed[Index(tx)] && Accepts(d, tx)
    ensures Paired(b, d, rx, tx)
  {
  }

  /** A configured stream holds its configuration in its registers, whatever the hardware does. */
  ghost predicate Fitted(ch: Channel, c: Config) {
    ch.configured && ch.config == c && ch.stream.control == Controller.ControlFor(c)
  }

  /** What one completed chunk did, from the registers at its end. */
  datatype Chunk = Chunk(size: nat, rx: Flow, tx: Flow, rxLoaded: nat, txLoaded: nat, rxFlags: Bits, txFlags: Bits, eot: bool)

  /** A chunk of `count` bytes at `offset` moved in both directions, and all three parties said it was done. */
  ghost predicate Carried(k: Chunk, txBuffer: nat, rxBuffer: nat, offset: nat, count: nat) {
    && k.size == k.rxLoaded == k.txLoaded == count && 1 <= count <= SpiPolled.MAX_TRANSFER
    && txBuffer + offset < TWO_32 && rxBuffer + offset < TWO_32
    && k.rx == Flow(RXDR, rxBuffer + offset, false, true, 1, 1) && k.tx == Flow(txBuffer + offset, TXDR, true, false, 1, 1)
    && TRANSFER_COMPLETE in k.rxFlags && TRANSFER_ERROR !in k.rxFlags
    && TRANSFER_COMPLETE in k.txFlags && TRANSFER_ERROR !in k.txFlags && k.eot
  }

  /** The chunks cover [0, size) of both buffers, in order, each byte once. */
  ghost predicate Partition(chunks: seq<Chunk>, txBuffer: nat, rxBuffer: nat, size: nat) {
    if chunks == [] then size == 0
    else
      var k := chunks[|chunks| - 1];
      k.size <= size && Carried(k, txBuffer, rxBuffer, size - k.size, k.size)
      && Partition(chunks[..|chunks| - 1], txBuffer, rxBuffer, size - k.size)
  }

  lemma NothingToPartition(txBuffer: nat, rxBuffer: nat)
    ensures Partition([], txBuffer, rxBuffer, 0)
  {
  }

  lemma PartitionGrows(chunks: seq<Chunk>, k: Chunk, txBuffer: nat, rxBuffer: nat, size: nat, count: nat)
    requires Partition(chunks, txBuffer, rxBuffer, size) && Carried(k, txBuffer, rxBuffer, size, count)
    ensures Partition(chunks + [k], txBuffer, rxBuffer, size + count)
  {
    assert (chunks + [k])[..|chunks|] == chunks;
  }

  /** Every byte of the buffers lies in exactly one chunk, and in the same place of the flow in both directions. */
  lemma {:induction false} PartitionCoversEachByteOnce(chunks: seq<Chunk>, txBuffer: nat, rxBuffer: nat, size: nat, i: nat)
    requires Partition(chunks, txBuffer, rxBuffer, size) && i < size
    ensures exists n: nat :: n < |chunks| && Holds(chunks[n], txBuffer, rxBuffer, i)
    ensures forall m: nat, n: nat :: m < n < |chunks| ==>
              !(Holds(chunks[m], txBuffer, rxBuffer, i) && Holds(chunks[n], txBuffer, rxBuffer, i))
  {
    var last := |chunks| - 1;
    var k, before := chunks[last], chunks[..last];
    PartitionBounds(before, txBuffer, rxBuffer, size - k.size);
    assert forall n: nat :: n < last ==> chunks[n] == before[n];
    if i < size - k.size {
      PartitionCoversEachByteOnce(before, txBuffer, rxBuffer, size - k.size, i);
      var n: nat :| n < |before| && Holds(before[n], txBuffer, rxBuffer, i);
      assert Holds(chunks[n], txBuffer, rxBuffer, i);
    } else {
      assert Holds(chunks[last], txBuffer, rxBuffer, i);
    }
  }

  /** Byte i of both buffers is moved by this chunk. */
  ghost predicate Holds(k: Chunk, txBuffer: nat, rxBuffer: nat, i: nat) {
    && k.rx.destination <= rxBuffer + i < k.rx.destination + k.size
    && k.tx.source <= txBuffer + i < k.tx.source + k.size
  }

  lemma {:induction false} PartitionBounds(chunks: seq<Chunk>, txBuffer: nat, rxBuffer: nat, size: nat)
    requires Partition(chunks, txBuffer, rxBuffer, size)
    ensures forall n: nat :: n < |chunks| ==>
              rxBuffer <= chunks[n].rx.destination && chunks[n].rx.destination + chunks[n].size <= rxBuffer + size
  {
    if chunks != [] {
      var last := |chunks| - 1;
      PartitionBounds(chunks[..last], txBuffer, rxBuffer, size - chunks[last].size);
      assert forall n: nat :: n < last ==> chunks[n] == chunks[..last][n];
    }
  }

  class SpiDma {
    const dma: Controller
    const clock: TimeSource
    var enabled: bool
    var rxGate: bool
    var txGate: bool
    var size: nat                  // TSIZE
    var budget: nat
    ghost var log: seq<Chunk>
    ghost var faults: nat          // looks that showed an overrun or mode fault in SR, or a stream in error
    ghost var polls: nat           // looks at the pair and the controller
    ghost var shown: bool          // the last of the chunk showed all three done

    constructor (dma: Controller, clock: TimeSource)
      ensures this.dma == dma && this.clock == clock && !enabled && !rxGate && !txGate && log == []
    {
      this.dma, this.clock := dma, clock;
      enabled, rxGate, txGate, size, budget, log, faults, polls, shown := false, false, false, 0, 0, [], 0, 0, false;
    }

    /** SR as the bus and the hardware make it. */
    method ReadStatus() returns (error: bool, eot: bool)
    {
      error, eot := *, *;
    }

    method CloseGates()
      modifies `enabled, `rxGate, `txGate
      ensures !enabled && !rxGate && !txGate
    {
      enabled := false;
      rxGate, txGate := false, false;
    }

    /** A gate opens only towards a stream that has been started. */
    method OpenRxGate(rx: Word)
      requires |dma.started| == STREAMS && dma.started[Index(rx)]
      modifies `rxGate
      ensures rxGate
    {
      rxGate := true;
    }

    method OpenTxGate(tx: Word)
      requires |dma.started| == STREAMS && dma.started[Index(tx)]
      modifies `txGate
      ensures txGate
    {
      txGate := true;
    }

    /** Aborts and releases a stream, ignoring both results. */
    method GiveBack(h: Word)
      requires dma.Valid() && Accepts(dma.book, h)
      modifies dma
      ensures dma.Valid() && old(dma.stuck) <= dma.stuck
      ensures dma.book == old(dma.book) || dma.book == Released(old(dma.book), h)
      ensures dma.stuck == old(dma.stuck) ==> dma.book == Released(old(dma.book), h)
    {
      hide Step, BookOk, Matches, StreamFlags;
      var ignored := dma.Abort(h);
      ignored := dma.Release(h);
    }

    /** The way out of every chunk that got its pair. */
    method Cleanup(rx: Word, tx: Word, ghost b: Book)
      requires dma.Valid() && Paired(b, dma.book, rx, tx)
      modifies `enabled, `rxGate, `txGate, dma
      ensures dma.Valid() && !enabled && !rxGate && !txGate && old(dma.stuck) <= dma.stuck
      ensures dma.stuck == old(dma.stuck) ==> dma.book.claimed == b.claimed
    {
      hide Step, BookOk, Matches, StreamFlags, Paired, Released;
      CloseGates();
      PairGivesBack(b, dma.book, rx, tx);
      var valid := dma.IsValid(rx);
      if valid { GiveBack(rx); }
      valid := dma.IsValid(tx);
      if valid { GiveBack(tx); }
    }

    method AcquirePair() returns (r: Status, rx: Word, tx: Word)
      requires dma.Valid()
      modifies dma
      ensures dma.Valid() && old(dma.stuck) <= dma.stuck && r in {Ok, NotReady}
      ensures r == Ok <==> TwoFree(old(dma.book.claimed))
      ensures r == Ok ==> Paired(old(dma.book), dma.book, rx, tx)
                          && !dma.StreamEnabled(Index(rx)) && !dma.StreamEnabled(Index(tx))
      ensures r != Ok && dma.stuck == old(dma.stuck) ==> dma.book.claimed == old(dma.book.claimed)
    {
      hide Step, BookOk, Matches, StreamFlags;
      ghost var b := dma.book;
      tx := INVALID;
      r, rx := dma.Acquire();
      if r != Ok { return; }
      ghost var c := dma.book;
      r, tx := dma.Acquire();
      if r != Ok {
        assert forall j :: 0 <= j < STREAMS && j != Index(rx) ==> c.claimed[j] == b.claimed[j];
        var ignored := dma.Release(rx);
        ClaimThenRelease(b, c, rx);
        return;
      }
      assert !b.claimed[Index(rx)] && !b.claimed[Index(tx)];
      SecondClaimKeepsFirst(b, c, dma.book, rx, tx);
    }

    /** Both streams hold their configuration and request line, stopped and idle. */
    ghost predicate PairReady(rx: Word, tx: Word)
      reads dma
      requires Full(dma.Now())
    {
      var p, q := dma.channels[Index(rx)], dma.channels[Index(tx)];
      && Fitted(p, RX_CONFIG) && p.stream.request == RX_REQUEST && !p.active && !p.stream.enabled
      && Fitted(q, TX_CONFIG) && q.stream.request == TX_REQUEST && !q.active && !q.stream.enabled
    }

    method ConfigurePair(rx: Word, tx: Word, ghost b: Book) returns (r: Status)
      requires dma.Valid() && Paired(b, dma.book, rx, tx)
      requires !dma.StreamEnabled(Index(rx)) && !dma.StreamEnabled(Index(tx))
      modifies dma
      ensures dma.Valid() && dma.book == old(dma.book) && dma.stuck == old(dma.stuck)
      ensures r == Ok && PairReady(rx, tx)
      ensures dma.channels[Index(rx)].stream.request == 37 && dma.channels[Index(tx)].stream.request == 38
    {
      hide Step, BookOk, Matches, StreamFlags, Released, Claim;
      r := dma.Configure(rx, RX_CONFIG);
      if r == Ok { r := dma.Configure(tx, TX_CONFIG); }
      if r == Ok { r := dma.SetRequest(rx, RX_REQUEST); }
      if r == Ok { r := dma.SetRequest(tx, TX_REQUEST); }
    }

    /** Both streams run with the buffers' addresses. */
    ghost predicate PairRunning(rx: Word, tx: Word, txBuffer: nat, rxBuffer: nat, offset: nat)
      reads dma
      requires Full(dma.Now()) && txBuffer + offset < TWO_32 && rxBuffer + offset < TWO_32
    {
      && dma.started[Index(rx)] && dma.started[Index(tx)]
      && FlowOf(dma.channels[Index(rx)].stream) == Flow(RXDR, rxBuffer + offset, false, true, 1, 1)
      && FlowOf(dma.channels[Index(tx)].stream) == Flow(txBuffer + offset, TXDR, true, false, 1, 1)
    }

    /** Arms the streams one after the other, then lets the controller ask for data. */
    method ArmPair(rx: Word, tx: Word, txBuffer: Word, rxBuffer: Word, offset: nat, count: nat, ghost b: Book)
      returns (r: Status, ghost rxLoaded: nat, ghost txLoaded: nat)
      requires dma.Valid() && Paired(b, dma.book, rx, tx) && PairReady(rx, tx)
      requires 0 < txBuffer && txBuffer + offset < TWO_32 && 0 < rxBuffer && rxBuffer + offset < TWO_32
      requires 1 <= count <= SpiPolled.MAX_TRANSFER
      modifies `enabled, `rxGate, `txGate, `size, dma
      ensures dma.Valid() && dma.book == old(dma.book) && dma.stuck == old(dma.stuck) && r == Ok
      ensures PairRunning(rx, tx, txBuffer, rxBuffer, offset) && rxLoaded == txLoaded == size == count
      ensures enabled && rxGate && txGate
    {
      hide Step, BookOk, Matches, StreamFlags, Released, Claim;
      rxLoaded, txLoaded := 0, 0;
      CloseGates();
      r := dma.Start(rx, RXDR, rxBuffer + offset, count);
      if r != Ok {
        assert false;      // the driver's cleanup and exit
      }
      rxLoaded := dma.channels[Index(rx)].stream.count;
      OpenRxGate(rx);
      r := dma.Start(tx, txBuffer + offset, TXDR, count);
      if r != Ok {
        assert false;      // the driver's cleanup and exit
      }
      txLoaded := dma.channels[Index(tx)].stream.count;
      size := count;
      OpenTxGate(tx);
      enabled := true;
    }

    /** Asks both streams; a complete report comes with the flags that justify it. */
    method PollStates(rx: Word, tx: Word, txBuffer: Word, rxBuffer: Word, offset: nat, ghost b: Book)
      returns (rxState: State, txState: State, ghost rxFlags: Bits, ghost txFlags: Bits)
      requires dma.Valid() && Paired(b, dma.book, rx, tx)
      requires txBuffer + offset < TWO_32 && rxBuffer + offset < TWO_32 && PairRunning(rx, tx, txBuffer, rxBuffer, offset)
      modifies dma
      ensures dma.Valid() && dma.book == old(dma.book) && dma.stuck == old(dma.stuck)
      ensures PairRunning(rx, tx, txBuffer, rxBuffer, offset)
      ensures rxState == Complete ==> TRANSFER_COMPLETE in rxFlags && TRANSFER_ERROR !in rxFlags
      ensures txState == Complete ==> TRANSFER_COMPLETE in txFlags && TRANSFER_ERROR !in txFlags
      ensures rxState == Error ==> TRANSFER_ERROR in dma.since[Index(rx)]
      ensures txState == Error ==> TRANSFER_ERROR in dma.since[Index(tx)]
    {
      hide Step, BookOk, Matches, StreamFlags, Released, Claim;
      var r;
      r, rxState := dma.GetState(rx);
      rxFlags := dma.since[Index(rx)];
      txState := Idle;
      if r == Ok { r, txState := dma.GetState(tx); }
      txFlags := dma.since[Index(tx)];
      if r != Ok {
        assert false;      // the driver's cleanup and exit
      }
    }

    ghost function Record(rx: Word, tx: Word, rxLoaded: nat, txLoaded: nat, rxFlags: Bits, txFlags: Bits, eot: bool): Chunk
      reads this, dma
      requires Full(dma.Now())
    {
      Chunk(size, FlowOf(dma.channels[Index(rx)].stream), FlowOf(dma.channels[Index(tx)].stream),
            rxLoaded, txLoaded, rxFlags, txFlags, eot)
    }

    lemma RunningPairCarries(rx: Word, tx: Word, txBuffer: nat, rxBuffer: nat, offset: nat, k: Chunk)
      requires Full(dma.Now()) && txBuffer + offset < TWO_32 && rxBuffer + offset < TWO_32
      requires PairRunning(rx, tx, txBuffer, rxBuffer, offset)
      requires k == Record(rx, tx, k.rxLoaded, k.txLoaded, k.rxFlags, k.txFlags, true) && k.rxLoaded == k.txLoaded == size
      requires 1 <= size <= SpiPolled.MAX_TRANSFER
      requires TRANSFER_COMPLETE in k.rxFlags && TRANSFER_ERROR !in k.rxFlags
      requires TRANSFER_COMPLETE in k.txFlags && TRANSFER_ERROR !in k.txFlags
      ensures Carried(k, txBuffer, rxBuffer, offset, size)
    {
    }

    /** One look at both streams and the controller. */
    method LookAtAll(rx: Word, tx: Word, txBuffer: Word, rxBuffer: Word, offset: nat, ghost b: Book)
      returns (rxState: State, txState: State, error: bool, eot: bool, ghost rxFlags: Bits, ghost txFlags: Bits)
      requires dma.Valid() && Paired(b, dma.book, rx, tx)
      requires txBuffer + offset < TWO_32 && rxBuffer + offset < TWO_32 && PairRunning(rx, tx, txBuffer, rxBuffer, offset)
      modifies `faults, `polls, `shown, dma
      ensures dma.Valid() && dma.book == old(dma.book) && dma.stuck == old(dma.stuck)
      ensures PairRunning(rx, tx, txBuffer, rxBuffer, offset)
      ensures rxState == Complete ==> TRANSFER_COMPLETE in rxFlags && TRANSFER_ERROR !in rxFlags
      ensures txState == Complete ==> TRANSFER_COMPLETE in txFlags && TRANSFER_ERROR !in txFlags
      ensures polls == old(polls) + 1
      ensures var failed := rxState == Error || txState == Error || error;
        && faults == old(faults) + (if failed then 1 else 0)
        && shown == (!failed && rxState == Complete && txState == Complete && eot)
    {
      hide Step, BookOk, Matches, StreamFlags, Released, Claim, Paired, PairRunning;
      rxState, txState, rxFlags, txFlags := PollStates(rx, tx, txBuffer, rxBuffer, offset, b);
      error, eot := ReadStatus();
      ghost var failed := rxState == Error || txState == Error || error;
      polls, faults := polls + 1, faults + (if failed then 1 else 0);
      shown := !failed && rxState == Complete && txState == Complete && eot;
    }

    /** Polls both streams and the controller until all three are done or one has failed. */
    method PollPair(rx: Word, tx: Word, txBuffer: Word, rxBuffer: Word, offset: nat, count: nat, ghost rxLoaded: nat,
                    ghost txLoaded: nat, w: Wait, ghost begin: nat, ghost total: nat, ghost b: Book)
      returns (c: Call, ghost k: Chunk)
      requires dma.Valid() && Paired(b, dma.book, rx, tx)
      requires txBuffer + offset < TWO_32 && rxBuffer + offset < TWO_32
      requires PairRunning(rx, tx, txBuffer, rxBuffer, offset)
      requires rxLoaded == txLoaded == size == count && 1 <= count <= SpiPolled.MAX_TRANSFER
      requires budget <= total && Began(w, clock, begin) && InTime(w, clock, begin, total - budget)
      modifies `budget, `faults, `polls, `shown, dma, clock`now
      ensures dma.Valid() && dma.book == old(dma.book) && dma.stuck == old(dma.stuck) && clock.now >= old(clock.now)
      ensures budget <= total && Began(w, clock, begin)
      ensures c == Polling ==> budget == 0 && InTime(w, clock, begin, total)
      ensures c == Returned(Ok) ==> Carried(k, txBuffer, rxBuffer, offset, count) && InTime(w, clock, begin, total - budget)
      ensures c == Returned(Timeout) ==> w.finite && clock.now - begin >= w.timeout
      ensures c == Returned(IoError) ==> faults > old(faults)
      ensures (c == Returned(Ok) <==> shown) && (c.Returned? ==> polls > old(polls))
      ensures polls + budget >= old(polls + budget) && faults >= old(faults)
      ensures c.Returned? ==> c.status in {Ok, IoError, Timeout}
    {
      hide Step, BookOk, Matches, StreamFlags, Released, Claim, Began, InTime, PairRunning, Carried, Paired, FlowOf;
      k := Chunk(size, Flow(0, 0, false, false, 0, 0), Flow(0, 0, false, false, 0, 0), 0, 0, {}, {}, false);
      shown := false;
      while true
        invariant !shown && polls >= old(polls) && polls + budget >= old(polls + budget)
        invariant dma.Valid() && dma.book == old(dma.book) && dma.stuck == old(dma.stuck) && clock.now >= old(clock.now)
        invariant PairRunning(rx, tx, txBuffer, rxBuffer, offset) && size == count && faults >= old(faults)
        invariant budget <= total && Began(w, clock, begin) && InTime(w, clock, begin, total - budget)
        decreases budget
      {
        if budget == 0 { return Polling, k; }
        var rxState, txState, error, eot;
        ghost var rxFlags, txFlags;
        rxState, txState, error, eot, rxFlags, txFlags := LookAtAll(rx, tx, txBuffer, rxBuffer, offset, b);
        if rxState == Error || txState == Error || error {
          return Returned(IoError), k;
        }
        if rxState == Complete && txState == Complete && eot {
          k := Record(rx, tx, rxLoaded, txLoaded, rxFlags, txFlags, eot);
          RunningPairCarries(rx, tx, txBuffer, rxBuffer, offset, k);
          return Returned(Ok), k;
        }
        var expired := Expired(clock, w, begin, total - budget);
        if expired { return Returned(Timeout), k; }
        budget := budget - 1;
      }
    }

    /** What a chunk does with its pair, up to the cleanup. */
    method DrivePair(rx: Word, tx: Word, txBuffer: Word, rxBuffer: Word, offset: nat, count: nat, w: Wait,
                     ghost begin: nat, ghost total: nat, ghost b: Book)
      returns (c: Call, ghost k: Chunk)
      requires dma.Valid() && Paired(b, dma.book, rx, tx) && 1 <= count <= SpiPolled.MAX_TRANSFER
      requires !dma.StreamEnabled(Index(rx)) && !dma.StreamEnabled(Index(tx))
      requires 0 < txBuffer && txBuffer + offset < TWO_32 && 0 < rxBuffer && rxBuffer + offset < TWO_32
      requires budget <= total && Began(w, clock, begin) && InTime(w, clock, begin, total - budget)
      modifies `enabled, `rxGate, `txGate, `size, `budget, `faults, `polls, `shown, dma, clock`now
      ensures dma.Valid() && dma.book == old(dma.book) && dma.stuck == old(dma.stuck) && clock.now >= old(clock.now)
      ensures budget <= total && Began(w, clock, begin)
      ensures c == Polling ==> budget == 0 && InTime(w, clock, begin, total)
      ensures c == Returned(Ok) ==> Carried(k, txBuffer, rxBuffer, offset, count) && InTime(w, clock, begin, total - budget)
      ensures c == Returned(Timeout) ==> w.finite && clock.now - begin >= w.timeout
      ensures c == Returned(IoError) ==> faults > old(faults)
      ensures (c == Returned(Ok) <==> shown) && (c.Returned? ==> c.status in {Ok, IoError, Timeout} && polls > old(polls))
      ensures polls >= old(polls) && polls + budget >= old(polls + budget) && faults >= old(faults)
    {
      hide Step, BookOk, Matches, StreamFlags, Released, Claim, Began, InTime, Paired, PairReady, PairRunning, Carried;
      var r := ConfigurePair(rx, tx, b);
      if r != Ok {
        assert false;      // the driver's cleanup and exit
      }
      ghost var rxLoaded, txLoaded;
      r, rxLoaded, txLoaded := ArmPair(rx, tx, txBuffer, rxBuffer, offset, count, b);
      c, k := PollPair(rx, tx, txBuffer, rxBuffer, offset, count, rxLoaded, txLoaded, w, begin, total, b);
    }

    /**
     One chunk. Unless a stream will not stop, the claimed streams are on every exit what they were before, and
     gates that were closed are closed again.
     */
    method TransferChunk(txBuffer: Word, rxBuffer: Word, offset: nat, count: nat, w: Wait, ghost begin: nat, ghost total: nat)
      returns (c: Call)
      requires dma.Valid() && 1 <= count <= SpiPolled.MAX_TRANSFER
      requires 0 < txBuffer && txBuffer + offset < TWO_32 && 0 < rxBuffer && rxBuffer + offset < TWO_32
      requires budget <= total && Began(w, clock, begin) && InTime(w, clock, begin, total - budget)
      modifies this, dma, clock`now
      ensures dma.Valid() && old(dma.stuck) <= dma.stuck && clock.now >= old(clock.now)
      ensures c.Returned? && dma.stuck == old(dma.stuck) ==> dma.book.claimed == old(dma.book.claimed)
      ensures c.Returned? && old(!rxGate && !txGate) ==> !rxGate && !txGate
      ensures c == Returned(Ok) ==>
                && |log| == |old(log)| + 1 && log[..|old(log)|] == old(log)
                && Carried(log[|old(log)|], txBuffer, rxBuffer, offset, count)
                && budget <= total && InTime(w, clock, begin, total - budget) && Began(w, clock, begin)
      ensures c != Returned(Ok) ==> log == old(log)
      ensures c == Returned(Timeout) ==> w.finite && clock.now - begin >= w.timeout
      ensures c == Polling ==> budget == 0 && InTime(w, clock, begin, total)
      ensures c.Returned? ==> c.status in {Ok, NotReady, IoError, Timeout}
      ensures c == Returned(NotReady) <==> !TwoFree(old(dma.book.claimed))
      ensures c == Returned(IoError) ==> faults > old(faults)
      ensures c != Returned(NotReady) ==> (c == Returned(Ok) <==> shown) && (c.Returned? ==> polls > old(polls))
      ensures polls + budget >= old(polls + budget) && polls >= old(polls) && faults >= old(faults)
    {
      hide Step, BookOk, Matches, StreamFlags, Released, Claim, TwoFree, Began, InTime, Paired, PairReady, PairRunning, Carried;
      ghost var b := dma.book;
      var r, rx, tx := AcquirePair();
      if r != Ok {
        return Returned(r);
      }
      ghost var k;
      c, k := DrivePair(rx, tx, txBuffer, rxBuffer, offset, count, w, begin, total, b);
      if c == Polling { return; }
      Cleanup(rx, tx, b);
      if c == Returned(Ok) { log := log + [k]; }
    }

    method TransferChunks(txBuffer: Word, rxBuffer: Word, length: nat, w: Wait, ghost begin: nat)
      returns (c: Call, ghost chunks: seq<Chunk>, ghost done: nat)
      requires dma.Valid() && 0 < txBuffer && txBuffer + length <= TWO_32 && 0 < rxBuffer && rxBuffer + length <= TWO_32
      requires Began(w, clock, begin) && InTime(w, clock, begin, 0)
      modifies this, dma, clock`now
      ensures dma.Valid() && clock.now >= old(clock.now)
      ensures c.Returned? ==> c.status in {Ok, NotReady, IoError, Timeout}
      ensures c.Returned? && dma.stuck == old(dma.stuck) ==> dma.book.claimed == old(dma.book.claimed)
      ensures c.Returned? && old(!rxGate && !txGate) ==> !rxGate && !txGate
      ensures log == old(log) + chunks && Partition(chunks, txBuffer, rxBuffer, done) && done <= length
      ensures c == Returned(Ok) ==> done == length
      ensures c == Returned(Timeout) ==> w.finite && clock.now - begin >= w.timeout
      ensures c == Polling ==> budget == 0 && InTime(w, clock, begin, old(budget))
      ensures length > 0 && !TwoFree(old(dma.book.claimed)) ==> c == Returned(NotReady)
      ensures c == Returned(NotReady) ==> !TwoFree(old(dma.book.claimed)) || dma.stuck > old(dma.stuck)
      ensures c == Returned(IoError) ==> faults > old(faults)
      ensures c == Returned(Timeout) || c == Polling ==> !shown
      ensures length > 0 && c.Returned? && c != Returned(NotReady) ==> polls > old(polls)
      ensures polls + budget >= old(polls + budget)
    {
      hide Step, BookOk, Matches, StreamFlags, Began, InTime, Carried, Partition, TwoFree;
      ghost var total := budget;
      var offset := 0;
      chunks := [];
      NothingToPartition(txBuffer, rxBuffer);
      while offset < length
        invariant offset <= length && dma.Valid() && clock.now >= old(clock.now) && old(dma.stuck) <= dma.stuck
        invariant dma.stuck == old(dma.stuck) ==> dma.book.claimed == old(dma.book.claimed)
        invariant old(!rxGate && !txGate) ==> !rxGate && !txGate
        invariant polls + budget >= old(polls + budget) && polls >= old(polls) && faults >= old(faults)
        invariant offset == 0 ==> dma.book == old(dma.book) && dma.stuck == old(dma.stuck)
        invariant offset > 0 ==> TwoFree(old(dma.book.claimed)) && polls > old(polls)
        invariant log == old(log) + chunks && Partition(chunks, txBuffer, rxBuffer, offset)
        invariant budget <= total && Began(w, clock, begin) && InTime(w, clock, begin, total - budget)
        decreases length - offset
      {
        var remaining := length - offset;
        var count := if remaining > SpiPolled.MAX_TRANSFER then SpiPolled.MAX_TRANSFER else remaining;
        ghost var before := log;
        c := TransferChunk(txBuffer, rxBuffer, offset, count, w, begin, total);
        if c != Returned(Ok) {
          return c, chunks, offset;
        }
        PartitionGrows(chunks, log[|before|], txBuffer, rxBuffer, offset, count);
        chunks := chunks + [log[|before|]];
        assert log == old(log) + chunks;
        offset := offset + count;
      }
      return Returned(Ok), chunks, offset;
    }

    /** A null buffer is address 0. */
    method Transfer(valid: bool, txBuffer: Word, rxBuffer: Word, length: nat, timeout: Word)
      returns (c: Call, ghost chunks: seq<Chunk>, ghost done: nat)
      requires dma.Valid() && txBuffer + length <= TWO_32 && rxBuffer + length <= TWO_32
      modifies this, dma, clock`now
      ensures dma.Valid()
      ensures c == Returned(InvalidArgument) <==>
                !valid || (length != 0 && (txBuffer == 0 || rxBuffer == 0 || (timeout != FOREVER && timeout > MAX_INTERVAL)))
      ensures c.Returned? ==> c.status in {Ok, InvalidArgument, NotReady, IoError, Timeout}
      ensures valid && length == 0 ==> c == Returned(Ok)
      ensures var begins := valid && length > 0 && txBuffer != 0 && rxBuffer != 0;
        var noTime := timeout <= MAX_INTERVAL && !old(clock.installed);
        && (begins && (timeout == FOREVER || timeout <= MAX_INTERVAL) && (noTime || !TwoFree(old(dma.book.claimed))) ==>
              c == Returned(NotReady))
        && (c == Returned(NotReady) ==>
              begins && (noTime || !TwoFree(old(dma.book.claimed)) || dma.stuck > old(dma.stuck)))
      ensures c == Returned(IoError) ==> faults > old(faults)
      ensures c == Returned(Timeout) ==> !shown && polls > old(polls)
      ensures c == Polling ==> !shown && budget == 0
      ensures polls + budget >= old(polls + budget)
      ensures c.Returned? && dma.stuck == old(dma.stuck) ==> dma.book.claimed == old(dma.book.claimed)
      ensures c.Returned? && old(!rxGate && !txGate) ==> !rxGate && !txGate
      ensures log == old(log) + chunks && Partition(chunks, txBuffer, rxBuffer, done) && done <= length
      ensures c == Returned(Ok) ==> done == length
      ensures c == Returned(Timeout) ==> timeout <= MAX_INTERVAL && clock.now - old(clock.now) >= timeout
      ensures c == Polling ==> timeout == FOREVER || !clock.steady || old(budget) < timeout || old(budget) == 0
    {
      hide Step, BookOk, Matches, StreamFlags, Partition, TwoFree;
      chunks, done := [], 0;
      NothingToPartition(txBuffer, rxBuffer);
      if !valid || (length != 0 && (txBuffer == 0 || rxBuffer == 0)) {
        return Returned(InvalidArgument), chunks, done;
      }
      if length == 0 {
        return Returned(Ok), chunks, done;
      }
      var r, w, begin := PrepareWait(clock, timeout);
      if r != Ok {
        return Returned(r), chunks, done;
      }
      c, chunks, done := TransferChunks(txBuffer, rxBuffer, length, w, begin);
    }
  }
}
