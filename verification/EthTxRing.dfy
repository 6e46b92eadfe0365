/**
 The transmit ring as memory shared by the driver, the data cache and the Ethernet DMA.
 A bus fault lets the DMA give a descriptor back without putting its frame on the wire.
 */
module EthTxRing {
  import opened Results
  import opened Cache
  import opened EthDescriptors

  datatype TxRing = TxRing(
    descBase: Word, bufBase: Word,
    desc: seq<DescriptorLine>,
    buf: seq<Buffer>,
    pos: nat,                   // descriptor the DMA works on
    active: bool,               // DMA started since its last reset
    wire: seq<seq<Byte>>        // frames sent since the last reset, oldest first
  )

  datatype TxEvent =
    | FetchDescriptor(i: nat) | EvictDescriptor(i: nat)
    | FetchBuffer(i: nat, k: nat) | EvictBuffer(i: nat, k: nat)
    | DmaSend(writeBack: Descriptor)
    | DmaAbort(writeBack: Descriptor)

  ghost predicate Shape(r: TxRing) {
    && Placed(r.descBase, r.bufBase)
    && |r.desc| == SLOTS && |r.buf| == SLOTS && r.pos < SLOTS
    && forall i :: 0 <= i < SLOTS ==> BufferShape(r.buf[i])
  }

  predicate DmaMayRun(r: TxRing) {
    r.active && r.pos < |r.desc| && Owned(r.desc[r.pos].mem)
  }

  /** The frame a descriptor describes: one whole packet in buffer 1, read from memory at its address. */
  function FrameOf(r: TxRing, d: Descriptor): seq<Byte> {
    var length := d.d2 % BUFFER1_LIMIT;
    if HasFirst(d.d3) && HasLast(d.d3) && FrameLength(d.d3) == length && length <= BUFFER_SIZE
    then Bytes(BlocksAt(r.bufBase, r.buf, d.d0), length)
    else []
  }

  function GiveBack(r: TxRing, writeBack: Descriptor, wire: seq<seq<Byte>>): TxRing
    requires r.pos < |r.desc|
  {
    r.(desc := r.desc[r.pos := r.desc[r.pos].DmaStore(writeBack)], pos := (r.pos + 1) % SLOTS, wire := wire)
  }

  function Apply(r: TxRing, e: TxEvent, fault: bool): TxRing {
    match e
    case FetchDescriptor(i) =>
      if i < |r.desc| then r.(desc := r.desc[i := r.desc[i].Fetch()]) else r
    case EvictDescriptor(i) =>
      if i < |r.desc| then r.(desc := r.desc[i := r.desc[i].Evict()]) else r
    case FetchBuffer(i, k) =>
      if i < |r.buf| && k < |r.buf[i]|
      then r.(buf := r.buf[i := r.buf[i][k := r.buf[i][k].Fetch()]]) else r
    case EvictBuffer(i, k) =>
      if i < |r.buf| && k < |r.buf[i]|
      then r.(buf := r.buf[i := r.buf[i][k := r.buf[i][k].Evict()]]) else r
    case DmaSend(writeBack) =>
      if DmaMayRun(r) && !Owned(writeBack)
      then GiveBack(r, writeBack, r.wire + [FrameOf(r, r.desc[r.pos].mem)]) else r
    case DmaAbort(writeBack) =>
      if DmaMayRun(r) && !Owned(writeBack) && fault then GiveBack(r, writeBack, r.wire) else r
  }

  // ---------- The protocol invariant ----------

  ghost predicate Free(r: TxRing, i: nat)
    requires Shape(r) && i < SLOTS
  {
    !Owned(r.desc[i].mem) && !r.desc[i].Dirty()
  }

  /** t descriptors have been published and given back; all but `except` are free. */
  ghost predicate RingOk(r: TxRing, t: nat, except: int) {
    && Shape(r) && r.active && r.pos == t % SLOTS
    && forall i :: 0 <= i < SLOTS && i != except ==> Free(r, i)
  }

  function ViewByte(b: Buffer, j: nat): Byte
    requires j < LINE_SIZE * |b|
  {
    b[j / LINE_SIZE].View()[j % LINE_SIZE]
  }

  /** The CPU reads the first c bytes of frame f in the buffer, and no eviction can change that. */
  ghost predicate Copied(b: Buffer, f: seq<Byte>, c: nat) {
    && BufferShape(b) && c <= |f| <= MAX_FRAME
    && forall j :: 0 <= j < c ==> ViewByte(b, j) == f[j] && b[j / LINE_SIZE].Coherent()
  }

  /** All of f is in the buffer, and its first `lines` lines are in memory. */
  ghost predicate Cleaned(b: Buffer, f: seq<Byte>, lines: nat) {
    Copied(b, f, |f|) && forall k :: 0 <= k < lines && k < BUFFER_LINES ==> !b[k].Dirty()
  }

  ghost predicate InMemory(b: Buffer, f: seq<Byte>) {
    Cleaned(b, f, LinesOf(|f|))
  }

  function FrameDescriptor(r: TxRing, i: nat, length: nat, own: int): Descriptor
    requires Shape(r) && i < SLOTS && length <= MAX_FRAME && own in {0, OWN}
  {
    Descriptor(BufferAddress(r.bufBase, i), 0, length, length + FIRST + LAST + own)
  }

  /** A published descriptor hands over its own buffer as one whole frame; both length fields hold any legal length. */
  lemma FrameBits(r: TxRing, i: nat, length: nat, own: int)
    requires Shape(r) && i < SLOTS && length <= MAX_FRAME && own in {0, OWN}
    ensures var d := FrameDescriptor(r, i, length, own);
      && d.d0 == r.bufBase + 1536 * i && d.d1 == 0
      && d.d2 % 0x4000 == d.d2 == length && d.d3 % 0x8000 == length
      && d.d3 / 0x8000 == (if own == 0 then 0x6000 else 0x1_6000)
  {
  }

  datatype Phase =
    | Down
    | Clearing(slot: nat, words: nat)                             // init
    | Idle(t: nat, wire: seq<seq<Byte>>)                          // every descriptor CPU-owned
    | Held(t: nat, wire: seq<seq<Byte>>)                          // descriptor invalidated
    | Copying(t: nat, wire: seq<seq<Byte>>, f: seq<Byte>, c: nat) // c bytes copied
    | Cleaning(t: nat, wire: seq<seq<Byte>>, f: seq<Byte>, lines: nat)
    | Describing(t: nat, wire: seq<seq<Byte>>, f: seq<Byte>, words: nat)
    | Publishing(t: nat, wire: seq<seq<Byte>>, f: seq<Byte>)      // ownership word stored, not yet cleaned
    | InFlight(t: nat, wire: seq<seq<Byte>>, f: seq<Byte>)        // ownership in memory, or given back

  ghost predicate Described(r: TxRing, i: nat, length: nat, words: nat)
    requires Shape(r) && i < SLOTS && length <= MAX_FRAME
  {
    var v, d := r.desc[i].View(), FrameDescriptor(r, i, length, 0);
    && (words >= 1 ==> v.d0 == d.d0)
    && (words >= 2 ==> v.d1 == d.d1)
    && (words >= 3 ==> v.d2 == d.d2)
    && (words >= 4 ==> v.d3 == d.d3)
  }

  /** Ownership is still only in the cache. */
  ghost predicate Private(r: TxRing, t: nat, wire: seq<seq<Byte>>, f: seq<Byte>) {
    var i := t % SLOTS;
    && RingOk(r, t, i) && r.wire == wire && InMemory(r.buf[i], f) && !Owned(r.desc[i].mem)
    && r.desc[i].copy == Present(FrameDescriptor(r, i, |f|, OWN), true)
  }

  /** The DMA owns the descriptor: memory holds all of it and all of the frame. */
  ghost predicate Flying(r: TxRing, t: nat, wire: seq<seq<Byte>>, f: seq<Byte>) {
    var i := t % SLOTS;
    && RingOk(r, t, i) && r.wire == wire && InMemory(r.buf[i], f)
    && r.desc[i].mem == FrameDescriptor(r, i, |f|, OWN) && r.desc[i].Coherent() && !r.desc[i].Dirty()
  }

  /** The DMA gave the descriptor back; the frame is on the wire unless a fault was raised. */
  ghost predicate Landed(r: TxRing, t: nat, wire: seq<seq<Byte>>, f: seq<Byte>, fault: bool) {
    RingOk(r, t + 1, -1) && (r.wire == wire + [f] || (fault && r.wire == wire))
  }

  ghost predicate ClearedBelow(r: TxRing, slot: nat) {
    Shape(r) && !r.active && r.wire == []
    && forall i :: 0 <= i < slot && i < SLOTS ==> Free(r, i)
  }

  ghost predicate Inv(r: TxRing, ph: Phase, fault: bool) {
    Shape(r) &&
    match ph
    case Down => true
    case Clearing(slot, words) =>
      ClearedBelow(r, slot) && words <= 4 &&
      (slot < SLOTS && words >= 1 ==> r.desc[slot].Coherent() && (words == 4 ==> !Owned(r.desc[slot].View())))
    case Idle(t, wire) => RingOk(r, t, -1) && r.wire == wire
    case Held(t, wire) => RingOk(r, t, -1) && r.wire == wire && r.desc[t % SLOTS].Coherent()
    case Copying(t, wire, f, c) =>
      RingOk(r, t, -1) && r.wire == wire && r.desc[t % SLOTS].Coherent() && Copied(r.buf[t % SLOTS], f, c)
    case Cleaning(t, wire, f, lines) =>
      RingOk(r, t, -1) && r.wire == wire && r.desc[t % SLOTS].Coherent() && Cleaned(r.buf[t % SLOTS], f, lines)
    case Describing(t, wire, f, words) =>
      var i := t % SLOTS;
      RingOk(r, t, i) && r.wire == wire && InMemory(r.buf[i], f)
      && r.desc[i].Coherent() && !Owned(r.desc[i].mem) && !Owned(r.desc[i].View())
      && Described(r, i, |f|, words)
    case Publishing(t, wire, f) =>
      Private(r, t, wire, f) || Flying(r, t, wire, f) || Landed(r, t, wire, f, fault)
    case InFlight(t, wire, f) =>
      Flying(r, t, wire, f) || Landed(r, t, wire, f, fault)
  }

  // ---------- The environment keeps it ----------

  ghost predicate Extends(before: TxRing, after: TxRing) {
    && after.descBase == before.descBase && after.bufBase == before.bufBase
    && after.active == before.active && (!before.active ==> after.pos == before.pos)
    && before.wire <= after.wire
  }

  ghost predicate CacheEvent(e: TxEvent) { !e.DmaSend? && !e.DmaAbort? }

  lemma CacheKeepsFrame(r: TxRing, e: TxEvent, fault: bool, i: nat, f: seq<Byte>, c: nat, lines: nat)
    requires Shape(r) && i < SLOTS && CacheEvent(e) && Copied(r.buf[i], f, c)
    requires forall k :: 0 <= k < lines && k < BUFFER_LINES ==> !r.buf[i][k].Dirty()
    ensures var s := Apply(r, e, fault);
      && Shape(s) && Copied(s.buf[i], f, c)
      && forall k :: 0 <= k < lines && k < BUFFER_LINES ==> !s.buf[i][k].Dirty()
  {
    var s := Apply(r, e, fault);
    forall j | 0 <= j < c ensures ViewByte(s.buf[i], j) == f[j] && s.buf[i][j / LINE_SIZE].Coherent() {
      assert ViewByte(r.buf[i], j) == f[j];
    }
  }

  lemma CacheKeepsRing(r: TxRing, e: TxEvent, fault: bool, t: nat, except: int)
    requires RingOk(r, t, except) && CacheEvent(e)
    ensures RingOk(Apply(r, e, fault), t, except) && Extends(r, Apply(r, e, fault))
  {
    var s := Apply(r, e, fault);
    forall j | 0 <= j < SLOTS && j != except ensures Free(s, j) {
      assert Free(r, j);
    }
  }

  /** While no descriptor in memory is owned, the DMA does nothing. */
  lemma IdleDma(r: TxRing, e: TxEvent, fault: bool, t: nat, except: int)
    requires RingOk(r, t, except) && !CacheEvent(e)
    requires except == -1 || (0 <= except < SLOTS && !Owned(r.desc[except].mem))
    ensures Apply(r, e, fault) == r
  {
    if r.pos != except { assert Free(r, r.pos); }
  }

  /** What the DMA reads at a published descriptor is the caller's frame. */
  lemma WireGetsFrame(r: TxRing, i: nat, f: seq<Byte>)
    requires Shape(r) && i < SLOTS && InMemory(r.buf[i], f)
    ensures FrameOf(r, FrameDescriptor(r, i, |f|, OWN)) == f
  {
    var d := FrameDescriptor(r, i, |f|, OWN);
    assert HasFirst(d.d3) && HasLast(d.d3) && FrameLength(d.d3) == |f|;
    BlocksAtSlot(r.bufBase, r.buf, i);
    forall j | 0 <= j < |f| ensures FrameOf(r, d)[j] == f[j] {
      assert ViewByte(r.buf[i], j) == f[j];
      assert j / LINE_SIZE < LinesOf(|f|);
    }
  }

  /** While memory shows ownership, neither the descriptor nor the frame in memory changes until the DMA gives it back. */
  lemma FlyingKept(r: TxRing, e: TxEvent, t: nat, wire: seq<seq<Byte>>, f: seq<Byte>, fault: bool)
    requires Flying(r, t, wire, f)
    ensures var s := Apply(r, e, fault);
      Extends(r, s) && (Flying(s, t, wire, f) || Landed(s, t, wire, f, fault))
  {
    var i := t % SLOTS;
    var s := Apply(r, e, fault);
    if CacheEvent(e) {
      CacheKeepsRing(r, e, fault, t, i);
      CacheKeepsFrame(r, e, fault, i, f, |f|, LinesOf(|f|));
    } else if s != r {
      WireGetsFrame(r, i, f);
      assert (i + 1) % SLOTS == (t + 1) % SLOTS;
      forall j | 0 <= j < SLOTS ensures Free(s, j) {
        if j != i { assert Free(r, j); }
      }
    }
  }

  lemma PrivateKept(r: TxRing, e: TxEvent, t: nat, wire: seq<seq<Byte>>, f: seq<Byte>, fault: bool)
    requires Private(r, t, wire, f)
    ensures var s := Apply(r, e, fault);
      Extends(r, s) && (Private(s, t, wire, f) || Flying(s, t, wire, f))
  {
    var i := t % SLOTS;
    if CacheEvent(e) {
      CacheKeepsRing(r, e, fault, t, i);
      CacheKeepsFrame(r, e, fault, i, f, |f|, LinesOf(|f|));
    } else {
      IdleDma(r, e, fault, t, i);
    }
  }

  lemma LandedKept(r: TxRing, e: TxEvent, t: nat, wire: seq<seq<Byte>>, f: seq<Byte>, fault: bool)
    requires Landed(r, t, wire, f, fault)
    ensures Landed(Apply(r, e, fault), t, wire, f, fault) && Extends(r, Apply(r, e, fault))
  {
    if CacheEvent(e) { CacheKeepsRing(r, e, fault, t + 1, -1); }
    else { IdleDma(r, e, fault, t + 1, -1); }
  }

  lemma ClearingKept(r: TxRing, e: TxEvent, fault: bool, slot: nat, words: nat)
    requires Inv(r, Clearing(slot, words), fault)
    ensures Inv(Apply(r, e, fault), Clearing(slot, words), fault) && Extends(r, Apply(r, e, fault))
  {
    var s := Apply(r, e, fault);
    forall j | 0 <= j < slot && j < SLOTS ensures Free(s, j) {
      assert Free(r, j);
    }
  }

  lemma FillingKept(r: TxRing, e: TxEvent, fault: bool, ph: Phase)
    requires Inv(r, ph, fault) && (ph.Copying? || ph.Cleaning? || ph.Describing?)
    ensures Inv(Apply(r, e, fault), ph, fault) && Extends(r, Apply(r, e, fault))
  {
    var i := ph.t % SLOTS;
    var except := if ph.Describing? then i else -1;
    if except == -1 { assert Free(r, i); }
    if !CacheEvent(e) {
      IdleDma(r, e, fault, ph.t, except);
    } else {
      CacheKeepsRing(r, e, fault, ph.t, except);
      match ph
      case Copying(_, _, f, c) => CacheKeepsFrame(r, e, fault, i, f, c, 0);
      case Cleaning(_, _, f, lines) => CacheKeepsFrame(r, e, fault, i, f, |f|, lines);
      case Describing(_, _, f, _) => CacheKeepsFrame(r, e, fault, i, f, |f|, LinesOf(|f|));
    }
  }

  /** No interleaving of cache traffic and DMA activity breaks what the driver relies on. */
  lemma EnvironmentKeepsInv(r: TxRing, e: TxEvent, ph: Phase, fault: bool)
    requires Inv(r, ph, fault)
    ensures Inv(Apply(r, e, fault), ph, fault) && Extends(r, Apply(r, e, fault))
    ensures Shape(Apply(r, e, fault)) && (ph.Idle? ==> Apply(r, e, fault).wire == r.wire)
  {
    match ph
    case Down =>
    case Clearing(slot, words) => ClearingKept(r, e, fault, slot, words);
    case Idle(t, _) =>
      if CacheEvent(e) { CacheKeepsRing(r, e, fault, t, -1); } else { IdleDma(r, e, fault, t, -1); }
    case Held(t, _) =>
      if CacheEvent(e) { CacheKeepsRing(r, e, fault, t, -1); } else { IdleDma(r, e, fault, t, -1); }
    case Publishing(t, wire, f) =>
      if Private(r, t, wire, f) { PrivateKept(r, e, t, wire, f, fault); }
      else if Flying(r, t, wire, f) { FlyingKept(r, e, t, wire, f, fault); }
      else { LandedKept(r, e, t, wire, f, fault); }
    case InFlight(t, wire, f) =>
      if Flying(r, t, wire, f) { FlyingKept(r, e, t, wire, f, fault); }
      else { LandedKept(r, e, t, wire, f, fault); }
    case _ => FillingKept(r, e, fault, ph);
  }

  /** Raising a fault weakens nothing but the promise about the wire. */
  lemma FaultKeepsInv(r: TxRing, ph: Phase, fault: bool)
    requires Inv(r, ph, fault)
    ensures Inv(r, ph, true)
  {
  }

  // ---------- The driver's own steps ----------

  function WithDescriptor(r: TxRing, i: nat, l: DescriptorLine): TxRing
    requires i < |r.desc|
  {
    r.(desc := r.desc[i := l])
  }

  function WithBufferLine(r: TxRing, i: nat, k: nat, l: Line<Block>): TxRing
    requires i < |r.buf| && k < |r.buf[i]|
  {
    r.(buf := r.buf[i := r.buf[i][k := l]])
  }

  lemma OneDescriptor(r: TxRing, s: TxRing, t: nat, except: int, i: nat)
    requires RingOk(r, t, except) && Shape(s) && i < SLOTS
    requires s.active == r.active && s.pos == r.pos
    requires forall j :: 0 <= j < SLOTS && j != i ==> s.desc[j] == r.desc[j]
    requires i != except ==> Free(s, i)
    ensures RingOk(s, t, except)
  {
    forall j | 0 <= j < SLOTS && j != except ensures Free(s, j) {
      if j != i { assert Free(r, j); }
    }
  }

  /** Between sends the driver's next descriptor is its own: a send never finds the ring full. */
  lemma HoldStep(r: TxRing, t: nat, wire: seq<seq<Byte>>, fault: bool)
    requires Inv(r, Idle(t, wire), fault)
    ensures var l := r.desc[t % SLOTS];
      !l.Dirty() && Inv(WithDescriptor(r, t % SLOTS, l.Invalidate()), Held(t, wire), fault)
  {
    var i := t % SLOTS;
    assert Free(r, i);
    OneDescriptor(r, WithDescriptor(r, i, r.desc[i].Invalidate()), t, -1, i);
  }

  lemma HeldIsFree(r: TxRing, t: nat, wire: seq<seq<Byte>>, fault: bool)
    requires Inv(r, Held(t, wire), fault)
    ensures !Owned(r.desc[t % SLOTS].View())
  {
    assert Free(r, t % SLOTS);
  }

  lemma StartCopyingStep(r: TxRing, t: nat, wire: seq<seq<Byte>>, f: seq<Byte>, fault: bool)
    requires Inv(r, Held(t, wire), fault) && |f| <= MAX_FRAME
    ensures Inv(r, Copying(t, wire, f, 0), fault)
  {
  }

  lemma StartCleaningStep(r: TxRing, t: nat, wire: seq<seq<Byte>>, f: seq<Byte>, fault: bool)
    requires Inv(r, Copying(t, wire, f, |f|), fault)
    ensures Inv(r, Cleaning(t, wire, f, 0), fault)
  {
  }

  lemma CopyStep(r: TxRing, t: nat, wire: seq<seq<Byte>>, f: seq<Byte>, c: nat, allocate: bool, fault: bool)
    requires Inv(r, Copying(t, wire, f, c), fault) && c < |f|
    ensures var i, k := t % SLOTS, c / LINE_SIZE;
      var block: Block := r.buf[i][k].View()[c % LINE_SIZE := f[c]];
      Inv(WithBufferLine(r, i, k, r.buf[i][k].Store(block, allocate)), Copying(t, wire, f, c + 1), fault)
  {
    var i, k := t % SLOTS, c / LINE_SIZE;
    var block: Block := r.buf[i][k].View()[c % LINE_SIZE := f[c]];
    var s := WithBufferLine(r, i, k, r.buf[i][k].Store(block, allocate));
    OneDescriptor(r, s, t, -1, i) by { assert Free(r, i); }
    forall j | 0 <= j < c + 1 ensures ViewByte(s.buf[i], j) == f[j] && s.buf[i][j / LINE_SIZE].Coherent() {
      if j < c {
        assert ViewByte(r.buf[i], j) == f[j];
        assert j / LINE_SIZE == k ==> j % LINE_SIZE != c % LINE_SIZE;
      }
    }
  }

  lemma CleanLineStep(r: TxRing, t: nat, wire: seq<seq<Byte>>, f: seq<Byte>, k: nat, fault: bool)
    requires Inv(r, Cleaning(t, wire, f, k), fault) && k < BUFFER_LINES
    ensures var i := t % SLOTS;
      Inv(WithBufferLine(r, i, k, r.buf[i][k].Clean()), Cleaning(t, wire, f, k + 1), fault)
  {
    var i := t % SLOTS;
    var s := WithBufferLine(r, i, k, r.buf[i][k].Clean());
    OneDescriptor(r, s, t, -1, i) by { assert Free(r, i); }
    forall j | 0 <= j < |f| ensures ViewByte(s.buf[i], j) == f[j] && s.buf[i][j / LINE_SIZE].Coherent() {
      assert ViewByte(r.buf[i], j) == f[j];
    }
  }

  lemma StartDescribingStep(r: TxRing, t: nat, wire: seq<seq<Byte>>, f: seq<Byte>, fault: bool)
    requires Inv(r, Cleaning(t, wire, f, LinesOf(|f|)), fault)
    ensures Inv(r, Describing(t, wire, f, 0), fault)
  {
    assert Free(r, t % SLOTS);
  }

  function FrameWord(r: TxRing, i: nat, length: nat, word: nat): Word
    requires Shape(r) && i < SLOTS && length <= MAX_FRAME && word < 4
  {
    var d := FrameDescriptor(r, i, length, 0);
    if word == 0 then d.d0 else if word == 1 then d.d1 else if word == 2 then d.d2 else d.d3
  }

  lemma DescribeStep(r: TxRing, t: nat, wire: seq<seq<Byte>>, f: seq<Byte>, words: nat, allocate: bool, fault: bool)
    requires Inv(r, Describing(t, wire, f, words), fault) && words < 4
    ensures var i := t % SLOTS;
      var v := SetWord(r.desc[i].View(), words, FrameWord(r, i, |f|, words));
      Inv(WithDescriptor(r, i, r.desc[i].Store(v, allocate)), Describing(t, wire, f, words + 1), fault)
  {
    var i := t % SLOTS;
    var v := SetWord(r.desc[i].View(), words, FrameWord(r, i, |f|, words));
    OneDescriptor(r, WithDescriptor(r, i, r.desc[i].Store(v, allocate)), t, i, i);
  }

  /** Setting the ownership bit, once every other word has been stored. */
  lemma OwnStep(r: TxRing, t: nat, wire: seq<seq<Byte>>, f: seq<Byte>, allocate: bool, fault: bool)
    requires Inv(r, Describing(t, wire, f, 4), fault)
    ensures var i := t % SLOTS;
      var v := r.desc[i].View();
      !Owned(v) && Inv(WithDescriptor(r, i, r.desc[i].Store(v.(d3 := v.d3 + OWN), allocate)), Publishing(t, wire, f), fault)
  {
    var i := t % SLOTS;
    var v := r.desc[i].View();
    var s := WithDescriptor(r, i, r.desc[i].Store(v.(d3 := v.d3 + OWN), allocate));
    OneDescriptor(r, s, t, i, i);
    assert s.desc[i].View() == FrameDescriptor(s, i, |f|, OWN);
  }

  lemma PublishStep(r: TxRing, t: nat, wire: seq<seq<Byte>>, f: seq<Byte>, fault: bool)
    requires Inv(r, Publishing(t, wire, f), fault)
    ensures Inv(WithDescriptor(r, t % SLOTS, r.desc[t % SLOTS].Clean()), InFlight(t, wire, f), fault)
  {
    var i := t % SLOTS;
    var s := WithDescriptor(r, i, r.desc[i].Clean());
    if Landed(r, t, wire, f, fault) {
      assert Free(r, i);
      assert s.desc == r.desc;
    } else {
      OneDescriptor(r, s, t, i, i);
    }
  }

  lemma PollStep(r: TxRing, t: nat, wire: seq<seq<Byte>>, f: seq<Byte>, fault: bool)
    requires Inv(r, InFlight(t, wire, f), fault)
    ensures var l := r.desc[t % SLOTS];
      !l.Dirty() && Inv(WithDescriptor(r, t % SLOTS, l.Invalidate()), InFlight(t, wire, f), fault)
  {
    var i := t % SLOTS;
    var s := WithDescriptor(r, i, r.desc[i].Invalidate());
    if Landed(r, t, wire, f, fault) {
      assert Free(r, i);
      OneDescriptor(r, s, t + 1, -1, i);
    } else {
      OneDescriptor(r, s, t, i, i);
    }
  }

  /** A descriptor read as CPU-owned has been given back. */
  lemma CompleteStep(r: TxRing, t: nat, wire: seq<seq<Byte>>, f: seq<Byte>, fault: bool)
    requires Inv(r, InFlight(t, wire, f), fault) && !Owned(r.desc[t % SLOTS].View())
    ensures Landed(r, t, wire, f, fault) && Inv(r, Idle(t + 1, r.wire), fault)
  {
  }

  lemma ClearWordStep(r: TxRing, slot: nat, words: nat, allocate: bool, fault: bool)
    requires Inv(r, Clearing(slot, words), fault) && slot < SLOTS && words < 4
    ensures var v := SetWord(r.desc[slot].View(), words, 0);
      Inv(WithDescriptor(r, slot, r.desc[slot].Store(v, allocate)), Clearing(slot, words + 1), fault)
  {
    var v := SetWord(r.desc[slot].View(), words, 0);
    var s := WithDescriptor(r, slot, r.desc[slot].Store(v, allocate));
    forall j | 0 <= j < slot ensures Free(s, j) { assert Free(r, j); }
  }

  lemma ClearCleanStep(r: TxRing, slot: nat, fault: bool)
    requires Inv(r, Clearing(slot, 4), fault) && slot < SLOTS
    ensures Inv(WithDescriptor(r, slot, r.desc[slot].Clean()), Clearing(slot + 1, 0), fault)
  {
    var s := WithDescriptor(r, slot, r.desc[slot].Clean());
    forall j | 0 <= j < slot + 1 ensures Free(s, j) {
      if j < slot { assert Free(r, j); }
    }
  }

  lemma ListStep(r: TxRing, fault: bool)
    requires Inv(r, Clearing(SLOTS, 0), fault)
    ensures Inv(r.(pos := 0), Clearing(SLOTS, 0), fault)
  {
    forall i | 0 <= i < SLOTS ensures Free(r.(pos := 0), i) { assert Free(r, i); }
  }

  lemma StartStep(r: TxRing, fault: bool)
    requires Inv(r, Clearing(SLOTS, 0), fault) && r.pos == 0
    ensures Inv(r.(active := true), Idle(0, []), fault)
  {
    var s := r.(active := true);
    forall i | 0 <= i < SLOTS ensures Free(s, i) { assert Free(r, i); }
  }

  // ---------- What the invariant says ----------

  /** At every moment of a send, ownership in memory means descriptor and frame are in memory in full. */
  lemma OwnedMeansPublished(r: TxRing, ph: Phase, fault: bool, i: nat)
    requires Inv(r, ph, fault) && !ph.Down? && r.active && i < SLOTS && Owned(r.desc[i].mem)
    ensures (ph.Publishing? || ph.InFlight?) && i == ph.t % SLOTS && i == r.pos
    ensures r.desc[i].mem == FrameDescriptor(r, i, |ph.f|, OWN)
    ensures FrameOf(r, r.desc[i].mem) == ph.f
  {
    if Free(r, i) { assert false; }
    assert Flying(r, ph.t, ph.wire, ph.f);
    WireGetsFrame(r, i, ph.f);
  }

  /** Any sequence of events with the fault flag as given. */
  function ApplyAll(r: TxRing, es: seq<TxEvent>, fault: bool): TxRing
    decreases |es|
  {
    if es == [] then r else ApplyAll(Apply(r, es[0], fault), es[1..], fault)
  }

  lemma {:induction false} LandedForGood(r: TxRing, es: seq<TxEvent>, t: nat, wire: seq<seq<Byte>>, f: seq<Byte>)
    requires Landed(r, t, wire, f, false)
    ensures Landed(ApplyAll(r, es, false), t, wire, f, false)
    decreases |es|
  {
    if es != [] {
      LandedKept(r, es[0], t, wire, f, false);
      LandedForGood(Apply(r, es[0], false), es[1..], t, wire, f);
    }
  }

  /** Without a fault, whatever happens to a published frame, it is still published or it is on the wire. */
  lemma {:induction false} FaultFreeFlightDelivers(r: TxRing, es: seq<TxEvent>, t: nat, wire: seq<seq<Byte>>, f: seq<Byte>)
    requires Flying(r, t, wire, f)
    ensures var s := ApplyAll(r, es, false);
      Flying(s, t, wire, f) || (Landed(s, t, wire, f, false) && s.wire == wire + [f])
    decreases |es|
  {
    if es != [] {
      var s := Apply(r, es[0], false);
      FlyingKept(r, es[0], t, wire, f, false);
      if Flying(s, t, wire, f) { FaultFreeFlightDelivers(s, es[1..], t, wire, f); }
      else { LandedForGood(s, es[1..], t, wire, f); }
    }
  }

  /**
   A fault can take a published frame away: once raised, the DMA may give the descriptor back with the frame
   not sent, and a driver that looked at DMACSR before it sees a finished send.
   */
  lemma LateFaultCanLoseFrame(r: TxRing, t: nat, wire: seq<seq<Byte>>, f: seq<Byte>, writeBack: Descriptor)
    requires Flying(r, t, wire, f) && !Owned(writeBack)
    ensures var s := Apply(r, DmaAbort(writeBack), true);
      Landed(s, t, wire, f, true) && s.wire == wire && !Owned(s.desc[t % SLOTS].Invalidate().View())
  {
    FlyingKept(r, DmaAbort(writeBack), t, wire, f, true);
  }
}
