/** Polled full-duplex SPI transfers, for any schedule of status flags and any point at which the bus moves on. */
module SpiPolled {
  import opened Results
  import opened TimeBase

  const MAX_TRANSFER := 0xffff
  const FILL: Byte := 0xff

  /**
   The controller and its bus. A byte comes in exactly when one goes out; once an incoming byte is lost to an
   overrun, every later one is. `mosi` and `miso` are all bytes that have crossed the wires, `errors` counts overruns and mode
   faults.
   */
  datatype Link = Link(enabled: bool, running: bool, size: nat, exchanged: nat, txFifo: seq<Byte>, rxFifo: seq<Byte>,
                       overrun: bool, fault: bool, errors: nat, mosi: seq<Byte>, miso: seq<Byte>)

  datatype Event = Exchange(incoming: Byte, dropped: bool) | ModeFault

  /** SR as one read shows it. */
  datatype Flags = Flags(error: bool, txp: bool, rxp: bool, eot: bool)

  function Happen(l: Link, e: Event): Link {
    match e
    case Exchange(b, dropped) =>
      if !l.enabled || !l.running || l.txFifo == [] || l.exchanged >= l.size then l
      else
        var lost := l.overrun || dropped;
        l.(exchanged := l.exchanged + 1, txFifo := l.txFifo[1..], rxFifo := if lost then l.rxFifo else l.rxFifo + [b],
           overrun := lost, errors := l.errors + (if dropped then 1 else 0), mosi := l.mosi + [l.txFifo[0]], miso := l.miso + [b])
    case ModeFault => l.(fault := true, errors := l.errors + 1)
  }

  /** SPE off, which empties both FIFOs, and the flags cleared. */
  function Aborted(l: Link): Link {
    l.(enabled := false, running := false, txFifo := [], rxFifo := [], overrun := false, fault := false)
  }

  /** One chunk's account: the wires when it began, the bytes written and the bytes read since. */
  datatype Ledger = Ledger(mosi: seq<Byte>, miso: seq<Byte>, errors: nat, out: seq<Byte>, got: seq<Byte>)

  /** The account was opened with these wires. */
  ghost predicate Opened(a: Link, g: Ledger) {
    g.mosi == a.mosi && g.miso == a.miso && g.errors == a.errors && |a.mosi| == |a.miso|
  }

  ghost predicate Linked(l: Link, g: Ledger) {
    && |g.mosi| <= |l.mosi| && l.mosi + l.txFifo == g.mosi + g.out
    && |l.mosi| - |g.mosi| == |l.miso| - |g.miso| == l.exchanged <= l.size
    && g.miso + g.got + l.rxFifo <= l.miso
    && (!l.overrun ==> g.miso + g.got + l.rxFifo == l.miso)
    && g.errors <= l.errors && (l.overrun || l.fault ==> g.errors < l.errors)
  }

  lemma HappenKeepsLinked(l: Link, e: Event, g: Ledger)
    requires Linked(l, g)
    ensures Linked(Happen(l, e), g)
    ensures Happen(l, e).enabled == l.enabled && Happen(l, e).running == l.running && Happen(l, e).size == l.size
  {
    if e.Exchange? && Happen(l, e) != l {
      assert l.mosi + l.txFifo == l.mosi + [l.txFifo[0]] + l.txFifo[1..];
      assert g.miso + g.got + (l.rxFifo + [e.incoming]) == g.miso + g.got + l.rxFifo + [e.incoming];
    }
  }

  /** A byte waiting to be read answers a byte already written: reading never overtakes writing. */
  lemma ReadingTrailsWriting(l: Link, g: Ledger)
    requires Linked(l, g) && l.rxFifo != []
    ensures |g.got| < |g.out|
  {
    assert |l.mosi + l.txFifo| == |g.mosi + g.out|;
  }

  lemma WriteKeepsLinked(l: Link, g: Ledger, value: Byte)
    requires Linked(l, g)
    ensures Linked(l.(txFifo := l.txFifo + [value]), g.(out := g.out + [value]))
  {
    assert l.mosi + (l.txFifo + [value]) == l.mosi + l.txFifo + [value];
    assert g.mosi + (g.out + [value]) == g.mosi + g.out + [value];
  }

  lemma ReadKeepsLinked(l: Link, g: Ledger)
    requires Linked(l, g) && l.rxFifo != []
    ensures Linked(l.(rxFifo := l.rxFifo[1..]), g.(got := g.got + [l.rxFifo[0]]))
  {
    assert g.miso + g.got + l.rxFifo == g.miso + (g.got + [l.rxFifo[0]]) + l.rxFifo[1..];
  }

  /** What went over the wires between two moments: no more than `data` out, and `got` as the first bytes in. */
  ghost predicate Exchanged(a: Link, b: Link, data: seq<Byte>, got: seq<Byte>) {
    && a.mosi <= b.mosi <= a.mosi + data
    && |b.mosi| - |a.mosi| == |b.miso| - |a.miso|
    && a.miso + got <= b.miso && a.errors <= b.errors
  }

  ghost predicate Complete(a: Link, b: Link, data: seq<Byte>, got: seq<Byte>) {
    |got| == |data| && b.mosi == a.mosi + data && b.miso == a.miso + got && a.errors <= b.errors
  }

  lemma LinkedMeansExchanged(a: Link, l: Link, g: Ledger, data: seq<Byte>)
    requires Linked(l, g) && Opened(a, g) && g.out <= data
    ensures Exchanged(a, l, data, g.got) && Exchanged(a, Aborted(l), data, g.got)
    ensures |g.got| == l.size == |data| ==> Complete(a, l, data, g.got) && Complete(a, Aborted(l), data, g.got)
  {
    assert l.mosi <= l.mosi + l.txFifo == a.mosi + g.out <= a.mosi + data;
    assert a.mosi <= l.mosi by {
      forall i | 0 <= i < |a.mosi| ensures a.mosi[i] == l.mosi[i] {
        assert (l.mosi + l.txFifo)[i] == (a.mosi + g.out)[i];
      }
    }
    assert a.miso + g.got <= a.miso + g.got + l.rxFifo <= l.miso;
    if |g.got| == l.size == |data| {
      assert |l.miso| == |a.miso + g.got|;
      assert |l.mosi| == |a.mosi + data|;
    }
  }

  lemma ExchangesChain(a: Link, b: Link, c: Link, d1: seq<Byte>, g1: seq<Byte>, d2: seq<Byte>, g2: seq<Byte>)
    requires Complete(a, b, d1, g1) && Exchanged(b, c, d2, g2)
    ensures Exchanged(a, c, d1 + d2, g1 + g2)
    ensures Complete(b, c, d2, g2) ==> Complete(a, c, d1 + d2, g1 + g2)
  {
    assert a.mosi + (d1 + d2) == b.mosi + d2;
    assert a.miso + (g1 + g2) == b.miso + g2;
  }

  lemma CompleteIsLevel(a: Link, b: Link, data: seq<Byte>, got: seq<Byte>)
    requires |a.mosi| == |a.miso| && Complete(a, b, data, got)
    ensures |b.mosi| == |b.miso| && |got| == |data| && Exchanged(a, b, data, got)
  {
  }

  lemma NothingExchanged(a: Link, data: seq<Byte>)
    requires |a.mosi| == |a.miso|
    ensures Exchanged(a, a, data, []) && Complete(a, a, [], [])
  {
    assert a.miso + [] == a.miso && a.mosi + [] == a.mosi;
  }

  // ---------- Buffers ----------

  /** `before` with `bytes` laid over it from `offset` on. */
  function Overlay(before: seq<Byte>, offset: nat, bytes: seq<Byte>): (after: seq<Byte>)
    requires offset + |bytes| <= |before|
    ensures |after| == |before|
  {
    before[..offset] + bytes + before[offset + |bytes|..]
  }

  lemma OverlayAt(before: seq<Byte>, offset: nat, bytes: seq<Byte>)
    requires offset + |bytes| <= |before|
    ensures forall i :: 0 <= i < |before| ==>
              Overlay(before, offset, bytes)[i] == if offset <= i < offset + |bytes| then bytes[i - offset] else before[i]
  {
  }

  lemma OverlayGrows(before: seq<Byte>, offset: nat, bytes: seq<Byte>, value: Byte)
    requires offset + |bytes| < |before|
    ensures Overlay(before, offset, bytes)[offset + |bytes| := value] == Overlay(before, offset, bytes + [value])
  {
  }

  lemma OverlaysMeet(before: seq<Byte>, at: nat, first: seq<Byte>, second: seq<Byte>)
    requires at + |first| + |second| <= |before|
    ensures Overlay(Overlay(before, at, first), at + |first|, second) == Overlay(before, at, first + second)
  {
  }

  function Contents(a: array?<Byte>): seq<Byte>
    reads a
  {
    if a == null then [] else a[..]
  }

  /** A pointer of the caller: a place in a block of memory, or null. */
  datatype Pointer = Pointer(block: array?<Byte>, at: nat)

  predicate Holds(p: Pointer, size: nat) { p.block != null ==> p.at + size <= p.block.Length }

  function Outgoing(tx: seq<Byte>, present: bool, at: nat, count: nat): (data: seq<Byte>)
    requires present ==> at + count <= |tx|
    ensures |data| == count
    ensures forall i :: 0 <= i < count ==> data[i] == if present then tx[at + i] else FILL
  {
    if present then tx[at..at + count] else seq(count, _ => FILL)
  }

  /** Which buffers the caller passed, whether in one block, and where in theirs they begin. */
  datatype Given = Given(tx: bool, rx: bool, same: bool, txAt: nat, rxAt: nat)

  function Passed(tx: Pointer, rx: Pointer): Given {
    Given(tx.block != null, rx.block != null, tx.block == rx.block, tx.at, rx.at)
  }

  /** `rx` begins inside `tx`, behind its first byte: what comes in is laid over bytes that are still to be sent. */
  predicate Lapped(v: Given, size: nat) { v.tx && v.same && v.txAt < v.rxAt < v.txAt + size }

  /** The caller's blocks, `tx0` and `rx0` at first, after `got` has come in at `at`. */
  ghost predicate Laid(v: Given, tx: seq<Byte>, rx: seq<Byte>, tx0: seq<Byte>, rx0: seq<Byte>, at: nat, got: seq<Byte>) {
    && (v.rx ==> at + |got| <= |rx0| && rx == Overlay(rx0, at, got))
    && (v.tx && !v.same ==> tx == tx0)
    && (v.tx && v.same ==> v.rx && tx == rx && tx0 == rx0)
  }

  ghost predicate Buffers(tx: Pointer, rx: Pointer, tx0: seq<Byte>, rx0: seq<Byte>, offset: nat, got: seq<Byte>)
    reads tx.block, rx.block
  {
    Laid(Passed(tx, rx), Contents(tx.block), Contents(rx.block), tx0, rx0, rx.at + offset, got)
  }

  lemma LaidAtStart(v: Given, tx: seq<Byte>, rx: seq<Byte>, at: nat)
    requires (v.rx ==> at <= |rx|) && (v.tx && v.same ==> v.rx && tx == rx)
    ensures Laid(v, tx, rx, tx, rx, at, [])
  {
  }

  lemma LaidGrows(v: Given, tx: seq<Byte>, rx: seq<Byte>, tx0: seq<Byte>, rx0: seq<Byte>, at: nat, got: seq<Byte>, value: Byte)
    requires Laid(v, tx, rx, tx0, rx0, at, got) && (v.rx ==> at + |got| < |rx|)
    ensures var after := if v.rx then rx[at + |got| := value] else rx;
      Laid(v, if v.same then after else tx, after, tx0, rx0, at, got + [value])
  {
    if v.rx { OverlayGrows(rx0, at, got, value); }
  }

  lemma LaidMeet(v: Given, tx: seq<Byte>, rx: seq<Byte>, txMid: seq<Byte>, rxMid: seq<Byte>, tx0: seq<Byte>, rx0: seq<Byte>,
                 first: seq<Byte>, second: seq<Byte>)
    requires Laid(v, txMid, rxMid, tx0, rx0, v.rxAt, first) && Laid(v, tx, rx, txMid, rxMid, v.rxAt + |first|, second)
    ensures Laid(v, tx, rx, tx0, rx0, v.rxAt, first + second)
  {
    if v.rx { OverlaysMeet(rx0, v.rxAt, first, second); }
  }

  /** Within one block, byte `i` of `tx` lies where one of the bytes received so far was stored. */
  predicate Echoes(v: Given, got: seq<Byte>, i: nat, value: Byte) {
    v.tx && v.same && v.txAt < v.rxAt <= v.txAt + i < v.rxAt + |got| && value == got[v.txAt + i - v.rxAt]
  }

  /** The bytes sent so far are the caller's, save where a byte received earlier was laid over one of them. */
  ghost predicate SentFrom(v: Given, original: seq<Byte>, got: seq<Byte>, sent: seq<Byte>) {
    && |sent| <= |original|
    && forall i :: 0 <= i < |sent| ==> sent[i] == original[i] || Echoes(v, got, i, sent[i])
  }

  /** In place, over separate buffers, or with `rx` before `tx`, what is sent is what the caller's buffer held. */
  lemma SentIsOriginal(v: Given, original: seq<Byte>, got: seq<Byte>, sent: seq<Byte>)
    requires SentFrom(v, original, got, sent) && !Lapped(v, |original|)
    ensures sent <= original
  {
  }

  lemma NothingSent(v: Given, original: seq<Byte>)
    ensures SentFrom(v, original, [], []) && [] <= original
  {
  }

  lemma SentStays(v: Given, original: seq<Byte>, got: seq<Byte>, sent: seq<Byte>, more: seq<Byte>)
    requires SentFrom(v, original, got, sent)
    ensures SentFrom(v, original, got + more, sent)
  {
  }

  /** The byte in the caller's buffer is the original, or one that came in: fewer have come in than gone out. */
  lemma NextIsSentFrom(tx: Pointer, rx: Pointer, tx0: seq<Byte>, rx0: seq<Byte>, offset: nat, count: nat,
                       got: seq<Byte>, sent: seq<Byte>)
    requires Buffers(tx, rx, tx0, rx0, offset, got) && |got| <= |sent| < count
    requires Holds(tx, offset + count) && (tx.block != null ==> tx.block.Length == |tx0|)
    requires SentFrom(Passed(tx, rx), Outgoing(tx0, tx.block != null, tx.at + offset, count), got, sent)
    ensures SentFrom(Passed(tx, rx), Outgoing(tx0, tx.block != null, tx.at + offset, count), got,
                     sent + [if tx.block != null then tx.block[tx.at + offset + |sent|] else FILL])
  {
    var at := tx.at + offset + |sent|;
    if tx.block != null {
      assert tx.block[at] == tx.block[..][at];
      if tx.block == rx.block { OverlayAt(rx0, rx.at + offset, got); }
    }
  }

  /** So over several chunks: what a later one finds in the buffer is the original, or came in during an earlier one. */
  lemma SentJoins(v: Given, txMid: seq<Byte>, rxMid: seq<Byte>, tx0: seq<Byte>, rx0: seq<Byte>, size: nat, count: nat,
                  got: seq<Byte>, sent: seq<Byte>, more: seq<Byte>, moreSent: seq<Byte>)
    requires Laid(v, txMid, rxMid, tx0, rx0, v.rxAt, got) && |got| == |sent| && |sent| + count <= size
    requires v.tx ==> v.txAt + size <= |tx0| == |txMid|
    requires SentFrom(v, Outgoing(tx0, v.tx, v.txAt, size), got, sent)
    requires SentFrom(v, Outgoing(txMid, v.tx, v.txAt + |sent|, count), more, moreSent)
    ensures SentFrom(v, Outgoing(tx0, v.tx, v.txAt, size), got + more, sent + moreSent)
  {
    if v.tx && v.same { OverlayAt(rx0, v.rxAt, got); }
    var original := Outgoing(tx0, v.tx, v.txAt, size);
    forall j | 0 <= j < |sent + moreSent|
      ensures (sent + moreSent)[j] == original[j] || Echoes(v, got + more, j, (sent + moreSent)[j])
    {
      if j < |sent| {
        assert sent[j] == original[j] || Echoes(v, got, j, sent[j]);
      } else {
        var i := j - |sent|;
        assert moreSent[i] == Outgoing(txMid, v.tx, v.txAt + |sent|, count)[i] || Echoes(v, more, i, moreSent[i]);
      }
    }
  }

  // ---------- Overlapping buffers ----------

  /** One byte written, exchanged and read, of a transfer within one block. */
  function Round(l: Link, incoming: Byte): Link
    requires l.txFifo != []
  {
    var exchanged := Happen(l, Exchange(incoming, false));
    if exchanged.rxFifo == [] then exchanged else exchanged.(rxFifo := exchanged.rxFifo[1..])
  }

  /** A schedule that reads each byte before it writes the next. */
  function InStep(l: Link, block: seq<Byte>, txAt: nat, rxAt: nat, incoming: seq<Byte>): Link
    requires txAt + |incoming| <= |block| && rxAt + |incoming| <= |block|
    decreases |incoming|
  {
    if incoming == [] then l
    else
      var next := Round(l.(txFifo := l.txFifo + [block[txAt]]), incoming[0]);
      InStep(next, block[rxAt := incoming[0]], txAt + 1, rxAt + 1, incoming[1..])
  }

  predicate Flowing(l: Link, size: nat) {
    l.enabled && l.running && !l.overrun && l.txFifo == [] && l.rxFifo == [] && l.exchanged + size <= l.size
  }

  /** What that schedule sends: behind the start of `rx`, the bytes just received. */
  function Echoed(block: seq<Byte>, txAt: nat, rxAt: nat, incoming: seq<Byte>): (sent: seq<Byte>)
    requires txAt + |incoming| <= |block|
  {
    seq(|incoming|, i requires 0 <= i < |incoming| =>
          if txAt < rxAt <= txAt + i then incoming[txAt + i - rxAt] else block[txAt + i])
  }

  lemma {:induction false} InStepSendsEchoes(l: Link, block: seq<Byte>, txAt: nat, rxAt: nat, incoming: seq<Byte>)
    requires txAt + |incoming| <= |block| && rxAt + |incoming| <= |block| && Flowing(l, |incoming|)
    ensures InStep(l, block, txAt, rxAt, incoming).mosi == l.mosi + Echoed(block, txAt, rxAt, incoming)
    decreases |incoming|
  {
    if incoming != [] {
      var next := Round(l.(txFifo := l.txFifo + [block[txAt]]), incoming[0]);
      assert next.mosi == l.mosi + [block[txAt]] && Flowing(next, |incoming| - 1);
      var after := block[rxAt := incoming[0]];
      InStepSendsEchoes(next, after, txAt + 1, rxAt + 1, incoming[1..]);
      assert Echoed(block, txAt, rxAt, incoming) == [block[txAt]] + Echoed(after, txAt + 1, rxAt + 1, incoming[1..]);
    }
  }

  /** Whatever the block held and whatever comes in, that schedule sends the original exactly when `rx` does not lap `tx`. */
  lemma OriginalExactlyUnlessLapped(l: Link, txAt: nat, rxAt: nat, size: nat, length: nat)
    requires Flowing(l, size) && txAt + size <= length && rxAt + size <= length
    ensures (forall block: seq<Byte>, incoming: seq<Byte> | |block| == length && |incoming| == size ::
               InStep(l, block, txAt, rxAt, incoming).mosi == l.mosi + block[txAt..txAt + size])
            <==> !Lapped(Given(true, true, true, txAt, rxAt), size)
  {
    if !Lapped(Given(true, true, true, txAt, rxAt), size) {
      forall block: seq<Byte>, incoming: seq<Byte> | |block| == length && |incoming| == size
        ensures InStep(l, block, txAt, rxAt, incoming).mosi == l.mosi + block[txAt..txAt + size]
      {
        InStepSendsEchoes(l, block, txAt, rxAt, incoming);
        assert Echoed(block, txAt, rxAt, incoming) == block[txAt..txAt + size];
      }
    } else {
      var block: seq<Byte>, incoming: seq<Byte> := seq(length, _ => 0), seq(size, _ => 1);
      InStepSendsEchoes(l, block, txAt, rxAt, incoming);
      var at := |l.mosi| + rxAt - txAt;
      assert InStep(l, block, txAt, rxAt, incoming).mosi[at] == 1 && (l.mosi + block[txAt..txAt + size])[at] == 0;
    }
  }

  function Min(a: nat, b: nat): nat { if a < b then a else b }

  class Spi {
    const clock: TimeSource
    var link: Link
    var budget: nat           // polls of the current call still observed
    ghost var ended: bool     // SR has shown EOT since the chunk began
    ghost var looks: nat      // reads of SR so far, and how many there were at the last without an error
    ghost var clean: nat
    ghost var polls: nat      // looks for space or for the end of a transfer so far
    ghost var spaces: nat     // looks since the chunk began that showed space without an error
    ghost var comes: nat      // looks since the chunk began that showed a byte come in
    ghost var unpaired: int   // looks for space without an error since the chunk began, less looks for data
    ghost var endSeen: bool   // the last look for the end of the chunk showed it

    constructor (clock: TimeSource)
      ensures this.clock == clock && !link.enabled && |link.mosi| == |link.miso|
    {
      this.clock := clock;
      link := Link(false, false, 0, 0, [], [], false, false, 0, [], []);
      budget, ended, looks, clean, polls, spaces, comes, unpaired, endSeen := 0, false, 0, 0, 0, 0, 0, 0, false;
    }

    /** The bus moves on by any number of events. */
    method Interfere(ghost g: Ledger)
      requires Linked(link, g)
      modifies `link
      ensures Linked(link, g)
      ensures link.enabled == old(link.enabled) && link.running == old(link.running) && link.size == old(link.size)
    {
      var n: nat := *;
      while n > 0
        invariant Linked(link, g)
        invariant link.enabled == old(link.enabled) && link.running == old(link.running) && link.size == old(link.size)
      {
        var e: Event := *;
        HappenKeepsLinked(link, e, g);
        link := Happen(link, e);
        n := n - 1;
      }
    }

    /** One read of SR. Space and data flags may lag behind the FIFOs, but never promise what is not there. */
    method ReadStatus(ghost g: Ledger) returns (sr: Flags)
      requires Linked(link, g)
      modifies `link, `ended, `looks, `clean
      ensures ended == (old(ended) || sr.eot) && looks == old(looks) + 1 && clean == (if sr.error then old(clean) else looks)
      ensures Linked(link, g) && sr.error == (link.overrun || link.fault) && (sr.error ==> g.errors < link.errors)
      ensures link.enabled == old(link.enabled) && link.running == old(link.running) && link.size == old(link.size)
      ensures (sr.rxp ==> link.rxFifo != []) && (sr.eot ==> link.exchanged == link.size)
    {
      Interfere(g);
      var space: bool, data: bool, end: bool := *, *, *;
      sr := Flags(link.overrun || link.fault, space, data && link.rxFifo != [], end && link.exchanged == link.size);
      ended, looks := ended || sr.eot, looks + 1;
      if !sr.error { clean := looks; }
    }

    method LookForSpace(ghost g: Ledger) returns (sr: Flags)
      requires Linked(link, g)
      modifies `link, `ended, `looks, `clean, `polls, `spaces, `unpaired
      ensures unpaired == old(unpaired) + (if sr.error then 0 else 1)
      ensures polls == old(polls) + 1 && spaces == old(spaces) + (if sr.txp && !sr.error then 1 else 0)
      ensures ended == (old(ended) || sr.eot) && looks == old(looks) + 1 && clean == (if sr.error then old(clean) else looks)
      ensures Linked(link, g) && sr.error == (link.overrun || link.fault) && (sr.error ==> g.errors < link.errors)
      ensures link.enabled == old(link.enabled) && link.running == old(link.running) && link.size == old(link.size)
    {
      sr := ReadStatus(g);
      polls, spaces := polls + 1, spaces + (if sr.txp && !sr.error then 1 else 0);
      unpaired := unpaired + (if sr.error then 0 else 1);
    }

    method LookForData(ghost g: Ledger) returns (come: bool)
      requires Linked(link, g)
      modifies `link, `ended, `looks, `clean, `comes, `unpaired
      ensures unpaired == old(unpaired) - 1
      ensures comes == old(comes) + (if come then 1 else 0) && (come ==> link.rxFifo != [])
      ensures looks == old(looks) + 1 && clean in {old(clean), looks} && Linked(link, g)
      ensures link.enabled == old(link.enabled) && link.running == old(link.running) && link.size == old(link.size)
    {
      var sr := ReadStatus(g);
      come := sr.rxp;
      comes, unpaired := comes + (if come then 1 else 0), unpaired - 1;
    }

    method LookForEnd(ghost g: Ledger) returns (end: bool)
      requires Linked(link, g)
      modifies `link, `ended, `looks, `clean, `polls, `endSeen
      ensures polls == old(polls) + 1 && endSeen == end && (end ==> ended && link.exchanged == link.size)
      ensures looks == old(looks) + 1 && clean in {old(clean), looks} && Linked(link, g)
      ensures link.enabled == old(link.enabled) && link.running == old(link.running) && link.size == old(link.size)
    {
      var sr := ReadStatus(g);
      end := sr.eot;
      polls, endSeen := polls + 1, end;
    }

    method AbortTransfer()
      modifies `link
      ensures link == Aborted(old(link))
    {
      link := link.(enabled := false, running := false, txFifo := [], rxFifo := []);
      link := link.(overrun := false, fault := false);
    }

    method BeginChunk(count: nat) returns (ghost g: Ledger)
      requires |link.mosi| == |link.miso|
      modifies `link, `ended, `clean, `spaces, `comes, `unpaired, `endSeen
      ensures spaces == comes == unpaired == 0 && !endSeen
      ensures clean == looks && !ended && Linked(link, g) && Opened(old(link), g) && g.out == [] && g.got == []
      ensures link.enabled && link.running && link.size == count
    {
      AbortTransfer();
      ended, clean, spaces, comes, unpaired, endSeen := false, looks, 0, 0, 0, false;
      link := link.(size := count, exchanged := 0);
      g := Ledger(link.mosi, link.miso, link.errors, [], []);
      Interfere(g);
      link := link.(enabled := true);
      Interfere(g);
      link := link.(running := true);
    }

    /** What every exit of a chunk owes its caller, given the account at that moment. */
    ghost predicate ChunkEnd(c: Call, a: Link, data: seq<Byte>, got: seq<Byte>, w: Wait, begin: nat, total: nat)
      reads this, clock
    {
      && Exchanged(a, link, data, got) && |got| <= |data| && budget <= total && Began(w, clock, begin)
      && (c == Polling ==> budget == 0 && InTime(w, clock, begin, total))
      && (c.Returned? ==> c.status in {Ok, IoError, Timeout} && !link.enabled)
      && (c != Returned(IoError) ==> looks <= clean + 2)
      && (c == Returned(Ok) ==> ended && Complete(a, link, data, got) && InTime(w, clock, begin, total - budget))
      && (c == Returned(IoError) ==> a.errors < link.errors)
      && (c == Returned(Timeout) ==> w.finite && clock.now - begin >= w.timeout)
      && (c == Returned(Ok) <==> endSeen)
    }

    /** Gives up on a chunk. */
    method Fail(status: Status, ghost a: Link, ghost g: Ledger, w: Wait, ghost begin: nat, ghost total: nat)
      returns (c: Call)
      requires Linked(link, g) && Opened(a, g)
      requires |g.got| <= |g.out| && budget <= total && Began(w, clock, begin) && !endSeen
      requires || (status == IoError && a.errors < link.errors)
               || (status == Timeout && w.finite && clock.now - begin >= w.timeout && looks <= clean + 2)
      modifies `link
      ensures c == Returned(status) && ChunkEnd(c, a, g.out, g.got, w, begin, total)
    {
      LinkedMeansExchanged(a, link, g, g.out);
      AbortTransfer();
      return Returned(status);
    }

    lemma OutOfPolls(a: Link, g: Ledger, w: Wait, begin: nat, total: nat)
      requires Linked(link, g) && Opened(a, g)
      requires |g.got| <= |g.out| && budget == 0 && Began(w, clock, begin) && InTime(w, clock, begin, total)
      requires looks <= clean + 2 && !endSeen
      ensures ChunkEnd(Polling, a, g.out, g.got, w, begin, total)
    {
      LinkedMeansExchanged(a, link, g, g.out);
    }

    /** Polls until the hardware reports the end of the transfer. */
    method AwaitEnd(ghost a: Link, ghost g: Ledger, w: Wait, ghost begin: nat, ghost total: nat)
      returns (c: Call)
      requires Linked(link, g) && Opened(a, g)
      requires |g.got| == |g.out| == link.size && looks <= clean + 1 && !endSeen
      requires budget <= total && Began(w, clock, begin) && InTime(w, clock, begin, total - budget)
      modifies `link, `budget, `ended, `looks, `clean, `polls, `endSeen, clock`now
      ensures ChunkEnd(c, a, g.out, g.got, w, begin, total) && clock.now >= old(clock.now)
      ensures polls + budget >= old(polls + budget) && polls > old(polls)
    {
      hide Linked, Exchanged, Complete;
      var end := LookForEnd(g);
      while !end
        invariant Linked(link, g) && link.size == |g.out| && endSeen == end && (end ==> ended) && looks <= clean + 2
        invariant polls + budget >= old(polls + budget) && polls > old(polls)
        invariant budget <= total && Began(w, clock, begin) && InTime(w, clock, begin, total - budget)
        invariant clock.now >= old(clock.now)
        decreases budget
      {
        if budget == 0 {
          OutOfPolls(a, g, w, begin, total);
          return Polling;
        }
        var sr := ReadStatus(g);
        if sr.error {
          c := Fail(IoError, a, g, w, begin, total);
          return;
        }
        var expired := Expired(clock, w, begin, total - budget);
        if expired {
          c := Fail(Timeout, a, g, w, begin, total);
          return;
        }
        budget := budget - 1;
        end := LookForEnd(g);
      }
      LinkedMeansExchanged(a, link, g, g.out);
      AbortTransfer();
      return Returned(Ok);
    }

    /** TXDR takes the caller's next byte, or the fill byte. */
    method WriteNext(tx: Pointer, at: nat, ghost g: Ledger) returns (ghost h: Ledger)
      requires Linked(link, g) && (tx.block != null ==> at < tx.block.Length)
      modifies `link
      ensures Linked(link, h) && h == g.(out := g.out + [if tx.block != null then tx.block[at] else FILL])
      ensures link.enabled == old(link.enabled) && link.size == old(link.size)
    {
      var value := if tx.block != null then tx.block[at] else FILL;
      WriteKeepsLinked(link, g, value);
      link := link.(txFifo := link.txFifo + [value]);
      h := g.(out := g.out + [value]);
    }

    /** RXDR gives up its oldest byte, which goes to the caller's buffer if there is one. */
    method ReadNext(rx: Pointer, at: nat, ghost g: Ledger) returns (ghost h: Ledger)
      requires Linked(link, g) && link.rxFifo != [] && (rx.block != null ==> at < rx.block.Length)
      modifies `link, rx.block
      ensures Linked(link, h) && h == g.(got := g.got + [old(link.rxFifo[0])])
      ensures rx.block != null ==> rx.block[..] == old(rx.block[..])[at := old(link.rxFifo[0])]
      ensures link.enabled == old(link.enabled) && link.size == old(link.size)
    {
      ReadKeepsLinked(link, g);
      var value := link.rxFifo[0];
      link := link.(rxFifo := link.rxFifo[1..]);
      h := g.(got := g.got + [value]);
      if rx.block != null {
        rx.block[at] := value;
      }
    }

    /** The writing half of one poll. */
    method WriteIfSpace(tx: Pointer, rx: Pointer, offset: nat, count: nat, txIndex: nat, txp: bool,
                        ghost g: Ledger, ghost tx0: seq<Byte>, ghost rx0: seq<Byte>)
      returns (next: nat, ghost h: Ledger)
      requires Holds(tx, offset + count) && (tx.block != null ==> tx.block.Length == |tx0|)
      requires |g.got| <= txIndex == |g.out| <= count && Linked(link, g) && Buffers(tx, rx, tx0, rx0, offset, g.got)
      requires SentFrom(Passed(tx, rx), Outgoing(tx0, tx.block != null, tx.at + offset, count), g.got, g.out)
      modifies `link
      ensures next == |h.out| <= count && Linked(link, h) && h == g.(out := h.out)
      ensures h.out == if txIndex < count && txp
                       then g.out + [if tx.block != null then tx.block[tx.at + offset + txIndex] else FILL] else g.out
      ensures SentFrom(Passed(tx, rx), Outgoing(tx0, tx.block != null, tx.at + offset, count), h.got, h.out)
      ensures link.enabled == old(link.enabled) && link.size == old(link.size)
    {
      hide Linked, Overlay, Outgoing, Laid, SentFrom;
      next, h := txIndex, g;
      if next < count && txp {
        NextIsSentFrom(tx, rx, tx0, rx0, offset, count, g.got, g.out);
        h := WriteNext(tx, tx.at + offset + next, h);
        next := next + 1;
      }
    }

    /** The reading half. */
    method ReadIfCome(tx: Pointer, rx: Pointer, offset: nat, count: nat, rxIndex: nat,
                      ghost g: Ledger, ghost tx0: seq<Byte>, ghost rx0: seq<Byte>)
      returns (next: nat, ghost h: Ledger)
      requires Holds(rx, offset + count) && (rx.block != null ==> rx.block.Length == |rx0|) && rxIndex <= count && looks == clean
      requires Linked(link, g) && |g.got| == rxIndex <= |g.out| && Buffers(tx, rx, tx0, rx0, offset, g.got)
      modifies `link, `ended, `looks, `clean, `comes, `unpaired, rx.block
      ensures looks <= clean + 1 && next <= count && next <= |g.out| && g.got <= h.got
      ensures next - rxIndex == comes - old(comes) && unpaired == old(unpaired) - (if rxIndex < count then 1 else 0)
      ensures Linked(link, h) && |h.got| == next && h == g.(got := h.got) && Buffers(tx, rx, tx0, rx0, offset, h.got)
      ensures link.enabled == old(link.enabled) && link.size == old(link.size)
    {
      hide Linked, Overlay, Laid;
      next, h := rxIndex, g;
      if next < count {
        var come := LookForData(h);
        if come {
          ReadingTrailsWriting(link, h);
          LaidGrows(Passed(tx, rx), Contents(tx.block), Contents(rx.block), tx0, rx0, rx.at + offset, h.got, link.rxFifo[0]);
          h := ReadNext(rx, rx.at + offset + next, h);
          next := next + 1;
        }
      }
    }

    /** The account of a chunk between two polls. */
    ghost predicate Between(tx: Pointer, rx: Pointer, offset: nat, count: nat, g: Ledger, tx0: seq<Byte>, rx0: seq<Byte>)
      requires tx.block != null ==> tx.at + offset + count <= |tx0|
      reads this, tx.block, rx.block
    {
      && Linked(link, g) && link.size == count && looks <= clean + 1
      && |g.got| == comes <= |g.out| == Min(spaces, count) && unpaired == 0
      && Buffers(tx, rx, tx0, rx0, offset, g.got)
      && SentFrom(Passed(tx, rx), Outgoing(tx0, tx.block != null, tx.at + offset, count), g.got, g.out)
    }

    /** One poll: SR first for errors and space, then again for data. */
    method PollData(tx: Pointer, rx: Pointer, offset: nat, count: nat, txIndex: nat, rxIndex: nat,
                    ghost g: Ledger, ghost tx0: seq<Byte>, ghost rx0: seq<Byte>)
      returns (error: bool, nextTx: nat, nextRx: nat, ghost h: Ledger)
      requires Holds(tx, offset + count) && (tx.block != null ==> tx.block.Length == |tx0|)
      requires Holds(rx, offset + count) && (rx.block != null ==> rx.block.Length == |rx0|)
      requires Between(tx, rx, offset, count, g, tx0, rx0) && txIndex == |g.out| && rxIndex == |g.got| < count
      modifies `link, `ended, `looks, `clean, `polls, `spaces, `comes, `unpaired, rx.block
      ensures polls == old(polls) + 1 && h == g.(out := h.out, got := h.got) && nextTx == |h.out| && nextRx == |h.got|
      ensures error ==> g.errors < link.errors && Linked(link, g) && h == g && spaces == old(spaces) && comes == old(comes)
                        && unpaired == 0
                        && Buffers(tx, rx, tx0, rx0, offset, g.got)
      ensures !error ==> Between(tx, rx, offset, count, h, tx0, rx0)
    {
      hide Linked, Overlay, Outgoing, Laid, SentFrom;
      nextTx, nextRx, h := txIndex, rxIndex, g;
      var sr := LookForSpace(g);
      error := sr.error;
      if !error {
        nextTx, h := WriteIfSpace(tx, rx, offset, count, txIndex, sr.txp, h, tx0, rx0);
        ghost var before := h;
        nextRx, h := ReadIfCome(tx, rx, offset, count, rxIndex, h, tx0, rx0);
        SentStays(Passed(tx, rx), Outgoing(tx0, tx.block != null, tx.at + offset, count), before.got, before.out,
                  h.got[|before.got|..]);
        assert before.got + h.got[|before.got|..] == h.got;
      }
    }

    /** Polls until every byte of the chunk has been written and read. */
    method DataPhase(tx: Pointer, rx: Pointer, offset: nat, count: nat, w: Wait, ghost begin: nat, ghost total: nat,
                     ghost a: Link, ghost start: Ledger, ghost tx0: seq<Byte>, ghost rx0: seq<Byte>)
      returns (c: Call, ghost g: Ledger)
      requires Holds(tx, offset + count) && (tx.block != null ==> tx.block.Length == |tx0|)
      requires Holds(rx, offset + count) && (rx.block != null ==> rx.block.Length == |rx0|)
      requires Between(tx, rx, offset, count, start, tx0, rx0) && Opened(a, start) && start.out == [] && !endSeen
      requires looks == clean && spaces == comes == unpaired == 0
      requires budget <= total && Began(w, clock, begin) && InTime(w, clock, begin, total - budget)
      modifies `link, `budget, `ended, `looks, `clean, `polls, `spaces, `comes, `unpaired, clock`now, rx.block
      ensures Buffers(tx, rx, tx0, rx0, offset, g.got) && clock.now >= old(clock.now)
      ensures SentFrom(Passed(tx, rx), Outgoing(tx0, tx.block != null, tx.at + offset, count), g.got, g.out)
      ensures |g.out| == Min(spaces, count) && |g.got| == comes && unpaired == 0
      ensures c == Returned(Ok) ==>
                && Linked(link, g) && Opened(a, g) && |g.out| == |g.got| == link.size == count && looks <= clean + 1
                && budget <= total && Began(w, clock, begin) && InTime(w, clock, begin, total - budget)
      ensures c != Returned(Ok) ==> ChunkEnd(c, a, g.out, g.got, w, begin, total)
      ensures polls >= old(polls) && polls + budget >= old(polls + budget)
      ensures c == Returned(IoError) || c == Returned(Timeout) ==> polls > old(polls)
    {
      hide Linked, Exchanged, Complete, Overlay, Outgoing, Laid, Began, InTime, ChunkEnd, Contents, SentFrom, Buffers, Passed;
      g := start;
      var txIndex, rxIndex := 0, 0;
      while txIndex < count || rxIndex < count
        invariant Between(tx, rx, offset, count, g, tx0, rx0) && Opened(a, g) && txIndex == |g.out| && rxIndex == |g.got|
        invariant budget <= total && Began(w, clock, begin) && InTime(w, clock, begin, total - budget)
        invariant polls >= old(polls) && polls + budget >= old(polls + budget) && clock.now >= old(clock.now)
        decreases budget
      {
        if budget == 0 {
          OutOfPolls(a, g, w, begin, total);
          return Polling, g;
        }
        var error;
        error, txIndex, rxIndex, g := PollData(tx, rx, offset, count, txIndex, rxIndex, g, tx0, rx0);
        if error {
          c := Fail(IoError, a, g, w, begin, total);
          return;
        }
        var expired := Expired(clock, w, begin, total - budget);
        if expired {
          c := Fail(Timeout, a, g, w, begin, total);
          return;
        }
        budget := budget - 1;
      }
      return Returned(Ok), g;
    }

    method TransferChunk(tx: Pointer, rx: Pointer, offset: nat, count: nat, w: Wait, ghost begin: nat, ghost total: nat)
      returns (c: Call, ghost got: seq<Byte>, ghost sent: seq<Byte>)
      requires Holds(tx, offset + count) && Holds(rx, offset + count)
      requires |link.mosi| == |link.miso|
      requires budget <= total && Began(w, clock, begin) && InTime(w, clock, begin, total - budget)
      modifies this, clock`now, rx.block
      ensures ChunkEnd(c, old(link), sent, got, w, begin, total) && (c == Returned(Ok) ==> |sent| == count)
      ensures |sent| == Min(spaces, count) && |got| == comes && unpaired == 0 && polls >= old(polls) && polls + budget >= old(polls + budget)
      ensures c.Returned? ==> polls > old(polls)
      ensures SentFrom(Passed(tx, rx), old(Outgoing(Contents(tx.block), tx.block != null, tx.at + offset, count)), got, sent)
      ensures Buffers(tx, rx, old(Contents(tx.block)), old(Contents(rx.block)), offset, got)
      ensures clock.now >= old(clock.now)
    {
      hide Linked, Exchanged, Complete, Overlay, Outgoing, Laid, Began, InTime, SentFrom;
      ghost var a, tx0, rx0 := link, Contents(tx.block), Contents(rx.block);
      NothingSent(Passed(tx, rx), Outgoing(tx0, tx.block != null, tx.at + offset, count));
      LaidAtStart(Passed(tx, rx), tx0, rx0, rx.at + offset);
      ghost var g := BeginChunk(count);
      c, g := DataPhase(tx, rx, offset, count, w, begin, total, a, g, tx0, rx0);
      got, sent := g.got, g.out;
      if c == Returned(Ok) {
        c := AwaitEnd(a, g, w, begin, total);
      }
    }

    /** Adds one chunk to a transfer that has gone well so far. */
    method NextChunk(tx: Pointer, rx: Pointer, size: nat, offset: nat, w: Wait, ghost begin: nat, ghost total: nat,
                     ghost a: Link, ghost got: seq<Byte>, ghost sent: seq<Byte>, ghost tx0: seq<Byte>, ghost rx0: seq<Byte>)
      returns (c: Call, next: nat, ghost all: seq<Byte>, ghost allSent: seq<Byte>)
      requires |sent| == offset
      requires Holds(tx, size) && (tx.block != null ==> tx.block.Length == |tx0|)
      requires Holds(rx, size) && (rx.block != null ==> rx.block.Length == |rx0|)
      requires |a.mosi| == |a.miso| && offset == |got| < size
      requires Complete(a, link, sent, got) && Buffers(tx, rx, tx0, rx0, 0, got)
      requires SentFrom(Passed(tx, rx), Outgoing(tx0, tx.block != null, tx.at, size), got, sent)
      requires budget <= total && Began(w, clock, begin) && InTime(w, clock, begin, total - budget)
      modifies this, clock`now, rx.block
      ensures c != Returned(Ok) ==> ChunkEnd(c, a, allSent, all, w, begin, total)
      ensures c == Returned(Ok) ==>
                && offset < next == |all| <= size && !link.enabled && ended && looks <= clean + 2
                && budget <= total && Began(w, clock, begin) && InTime(w, clock, begin, total - budget)
                && Complete(a, link, allSent, all)
      ensures |all| <= size && Buffers(tx, rx, tx0, rx0, 0, all) && clock.now >= old(clock.now)
      ensures SentFrom(Passed(tx, rx), Outgoing(tx0, tx.block != null, tx.at, size), all, allSent)
      ensures |allSent| == offset + Min(spaces, Min(MAX_TRANSFER, size - offset)) && |all| == offset + comes && unpaired == 0
      ensures endSeen <==> c == Returned(Ok)
      ensures polls >= old(polls) && polls + budget >= old(polls + budget) && (c.Returned? ==> polls > old(polls))
      ensures c == Returned(Ok) ==> next == offset + Min(MAX_TRANSFER, size - offset) && |allSent| == next
    {
      hide Exchanged, Complete, Overlay, Outgoing, InTime, Began, Laid, SentFrom;
      var remaining := size - offset;
      var count := if remaining > MAX_TRANSFER then MAX_TRANSFER else remaining;
      ghost var mid, txMid, rxMid := link, Contents(tx.block), Contents(rx.block);
      CompleteIsLevel(a, mid, sent, got);
      ghost var more, moreSent;
      c, more, moreSent := TransferChunk(tx, rx, offset, count, w, begin, total);
      SentJoins(Passed(tx, rx), txMid, rxMid, tx0, rx0, size, count, got, sent, more, moreSent);
      LaidMeet(Passed(tx, rx), Contents(tx.block), Contents(rx.block), txMid, rxMid, tx0, rx0, got, more);
      ExchangesChain(a, mid, link, sent, got, moreSent, more);
      all, allSent, next := got + more, sent + moreSent, offset + count;
    }

    lemma StillPolling(w: Wait, begin: nat, polls: nat)
      requires InTime(w, clock, begin, polls)
      ensures w.finite && clock.steady ==> polls < w.timeout || polls == 0
    {
    }

    /**
     How far a transfer got: the chunks before `last` are done, and since then a byte was written at every look that
     showed space, while any was left, and one was read at every look that showed one, each look of the one kind being
     followed by one of the other.
     */
    ghost predicate Progress(size: nat, last: nat, got: seq<Byte>, sent: seq<Byte>)
      reads this
    {
      && last < size && last % 0xffff == 0
      && |sent| == last + Min(spaces, Min(0xffff, size - last)) && |got| == last + comes && unpaired == 0
    }

    method TransferChunks(tx: Pointer, rx: Pointer, size: nat, w: Wait, ghost begin: nat)
      returns (c: Call, ghost got: seq<Byte>, ghost sent: seq<Byte>, ghost last: nat)
      requires Holds(tx, size) && Holds(rx, size) && size > 0
      requires |link.mosi| == |link.miso| && Began(w, clock, begin) && InTime(w, clock, begin, 0)
      modifies this, clock`now, rx.block
      ensures ChunkEnd(c, old(link), sent, got, w, begin, old(budget)) && (c == Returned(Ok) ==> |sent| == size) && |got| <= size
      ensures SentFrom(Passed(tx, rx), old(Outgoing(Contents(tx.block), tx.block != null, tx.at, size)), got, sent)
      ensures Buffers(tx, rx, old(Contents(tx.block)), old(Contents(rx.block)), 0, got)
      ensures clock.now >= old(clock.now) && Progress(size, last, got, sent) && polls + budget >= old(polls + budget)
      ensures c.Returned? ==> polls > old(polls)
      ensures !Lapped(Passed(tx, rx), size) ==> sent <= old(Outgoing(Contents(tx.block), tx.block != null, tx.at, size))
      ensures c == Polling && w.finite && clock.steady ==> old(budget) < w.timeout || old(budget) == 0
    {
      hide Exchanged, Complete, Overlay, Outgoing, InTime, Began, Laid;
      ghost var a, tx0, rx0, total := link, Contents(tx.block), Contents(rx.block), budget;
      ghost var data := Outgoing(tx0, tx.block != null, tx.at, size);
      LaidAtStart(Passed(tx, rx), tx0, rx0, rx.at);
      NothingExchanged(a, []);
      c, got, sent, last := Returned(Ok), [], [], 0;
      var offset := 0;
      while offset < size
        invariant offset == |got| == |sent| <= size && (offset > 0 ==> !link.enabled && ended && looks <= clean + 2)
        invariant offset < size ==> offset % MAX_TRANSFER == 0
        invariant offset > 0 ==> endSeen && Progress(size, last, got, sent) && polls > old(polls)
        invariant polls + budget >= old(polls + budget)
        invariant Complete(a, link, sent, got) && Buffers(tx, rx, tx0, rx0, 0, got)
        invariant SentFrom(Passed(tx, rx), Outgoing(tx0, tx.block != null, tx.at, size), got, sent)
        invariant budget <= total && Began(w, clock, begin) && InTime(w, clock, begin, total - budget)
        invariant clock.now >= old(clock.now)
        decreases size - offset
      {
        hide SentFrom;
        last := offset;
        c, offset, got, sent := NextChunk(tx, rx, size, offset, w, begin, total, a, got, sent, tx0, rx0);
        if c != Returned(Ok) {
          if c == Polling { StillPolling(w, begin, total); }
          if !Lapped(Passed(tx, rx), size) { SentIsOriginal(Passed(tx, rx), data, got, sent); }
          return;
        }
      }
      CompleteIsLevel(a, link, sent, got);
      if !Lapped(Passed(tx, rx), size) { SentIsOriginal(Passed(tx, rx), data, got, sent); }
      return Returned(Ok), got, sent, last;
    }

    /**
     A whole transfer, wherever `tx` and `rx` point. When it succeeds the wires have carried exactly `sent` and `rx`
     holds exactly what came back; when it fails, or while it is still polling, `rx` has changed only in the bytes
     received so far. What is sent is the caller's bytes (or the fill byte), unless `rx` begins inside `tx`: then
     bytes just received take the place of bytes still to be sent.
     */
    method Transfer(valid: bool, tx: Pointer, rx: Pointer, size: nat, timeout: Word)
      returns (c: Call, ghost got: seq<Byte>, ghost sent: seq<Byte>, ghost last: nat)
      requires Holds(tx, size) && Holds(rx, size) && |link.mosi| == |link.miso|
      modifies this, clock`now, rx.block
      ensures c == Returned(InvalidArgument) <==>
                || !valid
                || (size != 0 && tx.block == null && rx.block == null)
                || (size != 0 && timeout != FOREVER && timeout > MAX_INTERVAL)
      ensures c == Returned(NotReady) <==>
                && valid && size != 0 && (tx.block != null || rx.block != null) && timeout <= MAX_INTERVAL
                && !old(clock.installed)
      ensures size == 0 || c in {Returned(InvalidArgument), Returned(NotReady)} ==> link == old(link)
      ensures c.Returned? ==> c.status in {Ok, InvalidArgument, NotReady, IoError, Timeout}
      ensures valid && size == 0 ==> c == Returned(Ok)
      ensures size > 0 && c !in {Returned(InvalidArgument), Returned(NotReady)} ==>
                Progress(size, last, got, sent) && (endSeen <==> c == Returned(Ok)) && (c.Returned? ==> polls > old(polls))
      ensures polls + budget >= old(polls + budget) && (c == Polling ==> budget == 0)
      ensures |got| <= size && (rx.block != null ==> rx.block[..] == Overlay(old(Contents(rx.block)), rx.at, got))
      ensures Exchanged(old(link), link, sent, got)
      ensures c == Returned(Ok) ==> |sent| == size && Complete(old(link), link, sent, got)
      ensures SentFrom(Passed(tx, rx), old(Outgoing(Contents(tx.block), tx.block != null, tx.at, size)), got, sent)
      ensures !Lapped(Passed(tx, rx), size) ==> sent <= old(Outgoing(Contents(tx.block), tx.block != null, tx.at, size))
      ensures c.Returned? && c.status in {IoError, Timeout} ==> !link.enabled
      ensures c == Returned(Ok) && size > 0 ==> !link.enabled && ended
      ensures size > 0 && c in {Returned(Ok), Returned(Timeout)} ==> looks <= clean + 2
      ensures c == Returned(IoError) ==> old(link).errors < link.errors
      ensures c == Returned(Timeout) ==> timeout <= MAX_INTERVAL && clock.now - old(clock.now) >= timeout
      ensures c == Polling ==> timeout == FOREVER || !clock.steady || old(budget) < timeout || old(budget) == 0
    {
      hide Exchanged, Complete, SentFrom, Outgoing, Progress, Began, InTime;
      got, sent, last := [], [], 0;
      NothingExchanged(link, []);
      NothingSent(Passed(tx, rx), Outgoing(Contents(tx.block), tx.block != null, tx.at, size));
      assert rx.block != null ==> rx.block[..] == Overlay(rx.block[..], rx.at, []);
      hide Overlay;
      if !valid || (size != 0 && tx.block == null && rx.block == null) {
        return Returned(InvalidArgument), got, sent, last;
      }
      if size == 0 {
        return Returned(Ok), got, sent, last;
      }
      var r, w, begin := PrepareWait(clock, timeout);
      if r != Ok {
        return Returned(r), got, sent, last;
      }
      c, got, sent, last := TransferChunks(tx, rx, size, w, begin);
    }
  }
}
