/**
 The receive ring as memory shared by the driver, the data cache and the Ethernet DMA.
 The environment (cache agent and DMA) moves one event at a time, in any order, between
 any two driver accesses.
 */
module EthRxRing {
  import opened Results
  import opened Cache
  import opened EthDescriptors

  /** What the DMA left in a descriptor it closed: the status word and the buffer in memory. */
  datatype Completion = Completion(status: Word, blocks: seq<Block>)

  datatype RxRing = RxRing(
    descBase: Word, bufBase: Word,
    desc: seq<DescriptorLine>,
    buf: seq<Buffer>,
    pos: nat,                      // descriptor the DMA works on
    active: bool,                  // DMA started since its last reset
    arrived: seq<Completion>       // descriptors closed since the last reset, oldest first
  )

  datatype RxEvent =
    | FetchDescriptor(i: nat) | EvictDescriptor(i: nat)
    | FetchBuffer(i: nat, k: nat) | EvictBuffer(i: nat, k: nat)
    | DmaStore(k: nat, block: Block)
    | DmaClose(writeBack: Descriptor)

  ghost predicate Shape(r: RxRing) {
    && Placed(r.descBase, r.bufBase)
    && |r.desc| == SLOTS && |r.buf| == SLOTS && r.pos < SLOTS
    && forall i :: 0 <= i < SLOTS ==> BufferShape(r.buf[i])
  }

  /** The DMA may use a descriptor only while memory gives it the ownership bit. */
  predicate DmaMayRun(r: RxRing) {
    r.active && r.pos < |r.desc| && Owned(r.desc[r.pos].mem)
  }

  function StoreBlock(r: RxRing, address: int, block: Block): RxRing {
    var i, k := SlotAt(r.bufBase, address), LineAt(r.bufBase, address);
    if InBuffers(r.bufBase, address) && i < |r.buf| && k < |r.buf[i]|
    then r.(buf := r.buf[i := r.buf[i][k := r.buf[i][k].DmaStore(block)]])
    else r
  }

  function CloseDescriptor(r: RxRing, writeBack: Descriptor): RxRing
    requires r.pos < |r.desc|
  {
    var blocks := BlocksAt(r.bufBase, r.buf, r.desc[r.pos].mem.d0);
    r.(desc := r.desc[r.pos := r.desc[r.pos].DmaStore(writeBack)],
       pos := (r.pos + 1) % SLOTS,
       arrived := r.arrived + [Completion(writeBack.d3, blocks)])
  }

  /** One environment event; an event that is not possible now changes nothing. */
  function Apply(r: RxRing, e: RxEvent): RxRing {
    match e
    case FetchDescriptor(i) =>
      if i < |r.desc| then r.(desc := r.desc[i := r.desc[i].Fetch()]) else r
    case EvictDescriptor(i) =>
      if i < |r.desc| then r.(desc := r.desc[i := r.desc[i].Evict()]) else r
    case FetchBuffer(i, k) =>
      if i < |r.buf| && k < |r.buf[i]|
      then r.(buf := r.buf[i := r.buf[i][k := r.buf[i][k].Fetch()]]) else r
    case EvictBuffer(i, k) =>
      if i < |r.buf| && k < |r.buf[i]|
      then r.(buf := r.buf[i := r.buf[i][k := r.buf[i][k].Evict()]]) else r
    case DmaStore(k, block) =>
      if DmaMayRun(r) && k < BUFFER_LINES
      then StoreBlock(r, r.desc[r.pos].mem.d0 + LINE_SIZE * k, block) else r
    case DmaClose(writeBack) =>
      if DmaMayRun(r) && !Owned(writeBack) then CloseDescriptor(r, writeBack) else r
  }

  // ---------- The protocol invariant ----------

  function ArmedDescriptor(r: RxRing, i: nat): Descriptor
    requires Shape(r) && i < SLOTS
  {
    Descriptor(BufferAddress(r.bufBase, i), 0, 0, OWN + BUFFER1_VALID)
  }

  /** Re-arming hands out the slot's own buffer, with OWN and BUF1V set and every other bit of the words clear. */
  lemma ArmedBits(r: RxRing, i: nat)
    requires Shape(r) && i < SLOTS
    ensures var d := ArmedDescriptor(r, i);
      && d.d0 == r.bufBase + 1536 * i && d.d1 == d.d2 == 0
      && d.d3 / 0x8000_0000 == 1 && (d.d3 % 0x8000_0000) / 0x0100_0000 == 1 && d.d3 % 0x0100_0000 == 0
  {
  }

  /** Slot i is published to the DMA: memory says so, and no cached copy can overwrite it. */
  ghost predicate Armed(r: RxRing, i: nat)
    requires Shape(r) && i < SLOTS
  {
    r.desc[i].mem == ArmedDescriptor(r, i) && !r.desc[i].Dirty() && Quiet(r.buf[i])
  }

  /** Slot i holds completion c, untouched since the DMA closed it. */
  ghost predicate Holds(r: RxRing, i: nat, c: Completion)
    requires Shape(r) && i < SLOTS
  {
    && r.desc[i].mem.d3 == c.status && !Owned(r.desc[i].mem) && !r.desc[i].Dirty()
    && Quiet(r.buf[i]) && BlocksInMemory(r.buf[i]) == c.blocks
  }

  /** The fill that uses slot i among fills m, m+1, m+2, m+3. */
  function Turn(m: nat, i: nat): nat { m + (i - m) % SLOTS }

  ghost predicate SlotOk(r: RxRing, m: nat, i: nat)
    requires Shape(r) && i < SLOTS
  {
    if Turn(m, i) < |r.arrived| then Holds(r, i, r.arrived[Turn(m, i)]) else Armed(r, i)
  }

  /** m completions have been consumed and their slots re-armed, all but slot `except`. */
  ghost predicate RingOk(r: RxRing, m: nat, except: int) {
    && Shape(r)
    && r.active
    && m <= |r.arrived| <= m + SLOTS
    && r.pos == |r.arrived| % SLOTS
    && forall i :: 0 <= i < SLOTS && i != except ==> SlotOk(r, m, i)
  }

  /** Where the driver is between two of its accesses to this ring. */
  datatype Phase =
    | Down                              // stopped or faulted: nothing is promised
    | Arming(slot: nat, lines: nat)     // init: slots below `slot` armed, `lines` buffer lines invalidated
    | ArmingWords(slot: nat, words: nat)
    | Idle(m: nat)                      // m completions consumed
    | Probing(m: nat)                   // descriptor invalidated, ownership not yet read
    | Taken(m: nat)                     // completion m seen
    | Reading(m: nat, lines: nat)       // `lines` of its buffer lines invalidated
    | Rewriting(m: nat, words: nat)     // `words` descriptor words rewritten
    | Publishing(m: nat)                // ownership word stored, clean not yet issued

  /** The CPU's view of descriptor i agrees with the armed descriptor in its first `words` words. */
  ghost predicate Rewritten(r: RxRing, i: nat, words: nat)
    requires Shape(r) && i < SLOTS
  {
    var v := r.desc[i].View();
    && (words >= 1 ==> r.desc[i].Coherent() && v.d0 == BufferAddress(r.bufBase, i))
    && (words >= 2 ==> v.d1 == 0)
    && (words >= 3 ==> v.d2 == 0)
    && (words >= 4 ==> v.d3 == OWN + BUFFER1_VALID)
  }

  ghost predicate LinesQuiet(b: Buffer, lines: nat) {
    BufferShape(b) && forall k :: 0 <= k < lines && k < BUFFER_LINES ==> !b[k].Dirty()
  }

  ghost predicate LinesFresh(b: Buffer, lines: nat) {
    BufferShape(b) && forall k :: 0 <= k < lines && k < BUFFER_LINES ==> b[k].Coherent()
  }

  ghost predicate ArmedBelow(r: RxRing, slot: nat) {
    Shape(r) && !r.active && r.arrived == []
    && forall i :: 0 <= i < slot && i < SLOTS ==> Armed(r, i)
  }

  ghost predicate Inv(r: RxRing, ph: Phase) {
    Shape(r) &&
    match ph
    case Down => true
    case Arming(slot, lines) =>
      ArmedBelow(r, slot) && (slot < SLOTS ==> LinesQuiet(r.buf[slot], lines))
    case ArmingWords(slot, words) =>
      ArmedBelow(r, slot) && slot < SLOTS && Quiet(r.buf[slot]) && Rewritten(r, slot, words)
    case Idle(m) => RingOk(r, m, -1)
    case Probing(m) =>
      var l := r.desc[m % SLOTS];
      RingOk(r, m, -1) && (l.copy.Present? ==> l.copy.val == l.mem || Owned(l.copy.val))
    case Taken(m) =>
      RingOk(r, m, -1) && m < |r.arrived| && r.desc[m % SLOTS].Coherent()
    case Reading(m, lines) =>
      RingOk(r, m, -1) && m < |r.arrived| && r.desc[m % SLOTS].Coherent()
      && LinesFresh(r.buf[m % SLOTS], lines)
    case Rewriting(m, words) =>
      var i := m % SLOTS;
      RingOk(r, m, i) && m < |r.arrived| && words <= 3
      && r.desc[i].Coherent() && !Owned(r.desc[i].mem) && !Owned(r.desc[i].View())
      && Rewritten(r, i, words) && Quiet(r.buf[i])
    case Publishing(m) =>
      var i := m % SLOTS;
      || RingOk(r, m + 1, -1)
      || (RingOk(r, m, i) && m < |r.arrived|
          && r.desc[i].copy == Present(ArmedDescriptor(r, i), true) && !Owned(r.desc[i].mem) && Quiet(r.buf[i]))
  }

  // ---------- The environment keeps it ----------

  lemma TurnFacts(m: nat, n: nat, i: nat)
    requires m <= n <= m + SLOTS && i < SLOTS
    ensures m <= Turn(m, i) < m + SLOTS && Turn(m, i) % SLOTS == i
    ensures n < m + SLOTS ==> (Turn(m, i) == n <==> i == n % SLOTS)
    ensures n == m + SLOTS ==> n % SLOTS == m % SLOTS
    ensures Turn(m, i) == m <==> i == m % SLOTS
    ensures i != m % SLOTS ==> Turn(m + 1, i) == Turn(m, i)
    ensures i == m % SLOTS ==> Turn(m + 1, i) == m + SLOTS
  {
  }

  /** What every environment event preserves besides the invariant. */
  ghost predicate Extends(before: RxRing, after: RxRing) {
    && after.descBase == before.descBase && after.bufBase == before.bufBase
    && after.active == before.active && (!before.active ==> after.pos == before.pos)
    && before.arrived <= after.arrived
  }

  /** An event that touches slot i only, leaving its part of the ring in order, keeps the ring in order. */
  lemma OneSlot(r: RxRing, s: RxRing, m: nat, except: int, i: nat)
    requires RingOk(r, m, except) && Shape(s) && i < SLOTS
    requires s.active == r.active && s.arrived == r.arrived && s.pos == r.pos
    requires s.bufBase == r.bufBase
    requires forall j :: 0 <= j < SLOTS && j != i ==> s.desc[j] == r.desc[j] && s.buf[j] == r.buf[j]
    requires i != except ==> SlotOk(s, m, i)
    ensures RingOk(s, m, except)
  {
    forall j | 0 <= j < SLOTS && j != except ensures SlotOk(s, m, j) {
      assert SlotOk(r, m, j);
    }
  }

  /** The DMA's stores land in the buffer of its own descriptor and nowhere else. */
  lemma StoreLandsInSlot(r: RxRing, i: nat, k: nat, block: Block)
    requires Shape(r) && i < SLOTS && k < BUFFER_LINES
    ensures StoreBlock(r, BufferAddress(r.bufBase, i) + LINE_SIZE * k, block)
            == r.(buf := r.buf[i := r.buf[i][k := r.buf[i][k].DmaStore(block)]])
  {
    AddressDecodes(r.bufBase, i, k);
  }

  /** The DMA's current descriptor is owned exactly while fewer than m + 4 fills have happened. */
  lemma DmaSlotIsNextFill(r: RxRing, m: nat, except: int)
    requires RingOk(r, m, except) && DmaMayRun(r)
    requires except == -1 || (except == m % SLOTS && m < |r.arrived| && !Owned(r.desc[except].mem))
    ensures |r.arrived| < m + SLOTS && r.pos != except && Turn(m, r.pos) == |r.arrived|
    ensures Armed(r, r.pos)
  {
    var n := |r.arrived|;
    TurnFacts(m, n, r.pos);
    assert r.pos != except;
    assert SlotOk(r, m, r.pos);
  }

  lemma StoreKeepsRing(r: RxRing, m: nat, except: int, k: nat, block: Block)
    requires RingOk(r, m, except) && DmaMayRun(r) && k < BUFFER_LINES
    requires except == -1 || (except == m % SLOTS && m < |r.arrived| && !Owned(r.desc[except].mem))
    ensures var s := Apply(r, DmaStore(k, block));
      && RingOk(s, m, except) && Extends(r, s) && s.desc == r.desc && s.arrived == r.arrived
      && forall i :: 0 <= i < SLOTS && i != r.pos ==> s.buf[i] == r.buf[i]
  {
    DmaSlotIsNextFill(r, m, except);
    StoreLandsInSlot(r, r.pos, k, block);
    var s := Apply(r, DmaStore(k, block));
    assert Armed(s, r.pos);
    OneSlot(r, s, m, except, r.pos);
  }

  lemma CloseKeepsRing(r: RxRing, m: nat, except: int, wb: Descriptor)
    requires RingOk(r, m, except) && DmaMayRun(r) && !Owned(wb)
    requires except == -1 || (except == m % SLOTS && m < |r.arrived| && !Owned(r.desc[except].mem))
    ensures var s := Apply(r, DmaClose(wb));
      && RingOk(s, m, except) && Extends(r, s) && s.buf == r.buf
      && forall i :: 0 <= i < SLOTS && i != r.pos ==> s.desc[i] == r.desc[i]
  {
    DmaSlotIsNextFill(r, m, except);
    var n := |r.arrived|;
    var s := Apply(r, DmaClose(wb));
    BlocksAtSlot(r.bufBase, r.buf, r.pos);
    assert s.arrived[n] == Completion(wb.d3, BlocksInMemory(r.buf[r.pos]));
    forall j | 0 <= j < SLOTS && j != except ensures SlotOk(s, m, j) {
      assert SlotOk(r, m, j);
      TurnFacts(m, n, j);
      if j == r.pos {
        assert Holds(s, j, s.arrived[n]);
      }
    }
  }

  /** Speculative fetches and evictions of clean lines never change what memory and the CPU hold. */
  lemma CacheKeepsRing(r: RxRing, e: RxEvent, m: nat, except: int)
    requires RingOk(r, m, except)
    requires !e.DmaStore? && !e.DmaClose?
    ensures var s := Apply(r, e); RingOk(s, m, except) && Extends(r, s) && s.arrived == r.arrived
  {
    var s := Apply(r, e);
    if s != r {
      var i := e.i;
      if i != except {
        assert SlotOk(r, m, i);
        assert BlocksInMemory(s.buf[i]) == BlocksInMemory(r.buf[i]);
        assert SlotOk(s, m, i);
      }
      OneSlot(r, s, m, except, i);
    }
  }

  lemma EnvironmentKeepsRing(r: RxRing, e: RxEvent, m: nat, except: int)
    requires RingOk(r, m, except)
    requires except == -1 || (except == m % SLOTS && m < |r.arrived| && !Owned(r.desc[except].mem))
    ensures var s := Apply(r, e); RingOk(s, m, except) && Extends(r, s)
  {
    match e
    case DmaStore(k, block) => if DmaMayRun(r) && k < BUFFER_LINES { StoreKeepsRing(r, m, except, k, block); }
    case DmaClose(wb) => if DmaMayRun(r) && !Owned(wb) { CloseKeepsRing(r, m, except, wb); }
    case _ => CacheKeepsRing(r, e, m, except);
  }

  /** A slot the DMA does not own changes only by cache traffic on its own lines. */
  ghost predicate CacheOnly(r: RxRing, s: RxRing, i: nat)
    requires Shape(r) && Shape(s) && i < SLOTS
  {
    && (s.desc[i] == r.desc[i] || s.desc[i] == r.desc[i].Evict() || s.desc[i] == r.desc[i].Fetch())
    && forall k :: 0 <= k < BUFFER_LINES ==>
         s.buf[i][k] == r.buf[i][k] || s.buf[i][k] == r.buf[i][k].Evict() || s.buf[i][k] == r.buf[i][k].Fetch()
  }

  lemma UnownedSlotIsStable(r: RxRing, e: RxEvent, m: nat, except: int, i: nat)
    requires RingOk(r, m, except) && i < SLOTS && !Owned(r.desc[i].mem)
    requires except == -1 || (except == m % SLOTS && m < |r.arrived| && !Owned(r.desc[except].mem))
    ensures var s := Apply(r, e); Shape(s) && CacheOnly(r, s, i)
  {
    EnvironmentKeepsRing(r, e, m, except);
    match e
    case DmaStore(k, block) => if DmaMayRun(r) && k < BUFFER_LINES { StoreKeepsRing(r, m, except, k, block); }
    case DmaClose(wb) => if DmaMayRun(r) && !Owned(wb) { CloseKeepsRing(r, m, except, wb); }
    case _ =>
  }

  lemma ProbingKept(r: RxRing, e: RxEvent, m: nat)
    requires Inv(r, Probing(m))
    ensures Inv(Apply(r, e), Probing(m)) && Extends(r, Apply(r, e))
  {
    EnvironmentKeepsRing(r, e, m, -1);
    var i := m % SLOTS;
    if Owned(r.desc[i].mem) {
      assert r.desc[i].copy.Present? ==> Owned(r.desc[i].copy.val);
      match e
      case DmaStore(k, block) => if DmaMayRun(r) && k < BUFFER_LINES { StoreKeepsRing(r, m, -1, k, block); }
      case _ =>
    } else {
      UnownedSlotIsStable(r, e, m, -1, i);
      assert SlotOk(r, m, i);
    }
  }

  lemma TakenKept(r: RxRing, e: RxEvent, m: nat, lines: nat)
    requires Inv(r, Reading(m, lines))
    ensures Inv(Apply(r, e), Reading(m, lines)) && Extends(r, Apply(r, e))
  {
    EnvironmentKeepsRing(r, e, m, -1);
    TurnFacts(m, |r.arrived|, m % SLOTS);
    assert SlotOk(r, m, m % SLOTS);
    UnownedSlotIsStable(r, e, m, -1, m % SLOTS);
  }

  lemma RewritingKept(r: RxRing, e: RxEvent, m: nat, words: nat)
    requires Inv(r, Rewriting(m, words))
    ensures Inv(Apply(r, e), Rewriting(m, words)) && Extends(r, Apply(r, e))
  {
    EnvironmentKeepsRing(r, e, m, m % SLOTS);
    UnownedSlotIsStable(r, e, m, m % SLOTS, m % SLOTS);
  }

  /** A re-armed slot joins the ring as fill m + 4. */
  lemma ArmedSlotJoins(r: RxRing, m: nat)
    requires RingOk(r, m, m % SLOTS) && m < |r.arrived| && Armed(r, m % SLOTS)
    ensures RingOk(r, m + 1, -1)
  {
    var next := m + 1;
    forall j | 0 <= j < SLOTS ensures SlotOk(r, next, j) {
      TurnFacts(m, |r.arrived|, j);
      if j != m % SLOTS { assert SlotOk(r, m, j); }
    }
  }

  lemma PublishingKept(r: RxRing, e: RxEvent, m: nat)
    requires Inv(r, Publishing(m))
    ensures Inv(Apply(r, e), Publishing(m)) && Extends(r, Apply(r, e))
  {
    var i := m % SLOTS;
    var s := Apply(r, e);
    if RingOk(r, m + 1, -1) {
      EnvironmentKeepsRing(r, e, m + 1, -1);
    } else {
      EnvironmentKeepsRing(r, e, m, i);
      UnownedSlotIsStable(r, e, m, i, i);
      if s.desc[i] == r.desc[i].Evict() {
        assert Armed(s, i);
        ArmedSlotJoins(s, m);
      }
    }
  }

  lemma ArmingKept(r: RxRing, e: RxEvent, ph: Phase)
    requires Inv(r, ph) && (ph.Arming? || ph.ArmingWords?)
    ensures Inv(Apply(r, e), ph) && Extends(r, Apply(r, e))
  {
    var s := Apply(r, e);
    if s != r {
      forall j | 0 <= j < ph.slot && j < SLOTS ensures Armed(s, j) {
        assert Armed(r, j);
      }
    }
  }

  /** No interleaving of cache traffic and DMA activity breaks what the driver relies on. */
  lemma EnvironmentKeepsInv(r: RxRing, e: RxEvent, ph: Phase)
    requires Inv(r, ph)
    ensures Inv(Apply(r, e), ph) && Extends(r, Apply(r, e)) && Shape(Apply(r, e))
  {
    match ph
    case Down =>
    case Arming(_, _) => ArmingKept(r, e, ph);
    case ArmingWords(_, _) => ArmingKept(r, e, ph);
    case Idle(m) => EnvironmentKeepsRing(r, e, m, -1);
    case Probing(m) => ProbingKept(r, e, m);
    case Taken(m) =>
      assert Inv(r, Reading(m, 0));
      TakenKept(r, e, m, 0);
    case Reading(m, lines) => TakenKept(r, e, m, lines);
    case Rewriting(m, words) => RewritingKept(r, e, m, words);
    case Publishing(m) => PublishingKept(r, e, m);
  }

  // ---------- The driver's own steps ----------

  function WithDescriptor(r: RxRing, i: nat, l: DescriptorLine): RxRing
    requires i < |r.desc|
  {
    r.(desc := r.desc[i := l])
  }

  function WithBufferLine(r: RxRing, i: nat, k: nat, l: Line<Block>): RxRing
    requires i < |r.buf| && k < |r.buf[i]|
  {
    r.(buf := r.buf[i := r.buf[i][k := l]])
  }

  /** The words the driver writes into an armed descriptor, in order. */
  function ArmedWord(r: RxRing, i: nat, word: nat): Word
    requires Shape(r) && i < SLOTS && word < 4
  {
    if word == 0 then BufferAddress(r.bufBase, i) else if word == 3 then OWN + BUFFER1_VALID else 0
  }

  /** Invalidation drops no store, and a completion already there becomes visible. */
  lemma ProbeStep(r: RxRing, m: nat)
    requires Inv(r, Idle(m))
    ensures var s := WithDescriptor(r, m % SLOTS, r.desc[m % SLOTS].Invalidate());
      && !r.desc[m % SLOTS].Dirty()
      && Inv(s, if m < |r.arrived| then Taken(m) else Probing(m))
  {
    var i := m % SLOTS;
    var s := WithDescriptor(r, i, r.desc[i].Invalidate());
    assert SlotOk(r, m, i);
    assert SlotOk(s, m, i);
    OneSlot(r, s, m, -1, i);
  }

  /** A descriptor read as CPU-owned is the completion next in order. */
  lemma SeenStep(r: RxRing, ph: Phase)
    requires Inv(r, ph) && (ph.Probing? || ph.Taken?)
    ensures var l := r.desc[ph.m % SLOTS];
      && (ph.Taken? ==> !Owned(l.View()))
      && (!Owned(l.View()) ==> Inv(r, Taken(ph.m)) && l.View().d3 == r.arrived[ph.m].status)
  {
    TurnFacts(ph.m, |r.arrived|, ph.m % SLOTS);
    assert SlotOk(r, ph.m, ph.m % SLOTS);
  }

  lemma InvalidateLineStep(r: RxRing, ph: Phase, i: nat, k: nat)
    requires Inv(r, ph) && i < SLOTS && k < BUFFER_LINES
    requires (ph.Reading? && ph.m % SLOTS == i && ph.lines == k) || ph == Arming(i, k)
    ensures var s := WithBufferLine(r, i, k, r.buf[i][k].Invalidate());
      && (ph.Reading? ==> !r.buf[i][k].Dirty() && Inv(s, Reading(ph.m, k + 1)))
      && (ph.Arming? ==> Inv(s, Arming(i, k + 1)))
  {
    var s := WithBufferLine(r, i, k, r.buf[i][k].Invalidate());
    if ph.Reading? {
      assert SlotOk(r, ph.m, i);
      assert BlocksInMemory(s.buf[i]) == BlocksInMemory(r.buf[i]);
      assert SlotOk(s, ph.m, i);
      OneSlot(r, s, ph.m, -1, i);
    } else {
      forall j | 0 <= j < i ensures Armed(s, j) { assert Armed(r, j); }
    }
  }

  /** Every byte the driver copies is the one the DMA wrote. */
  lemma ReadStep(r: RxRing, m: nat, lines: nat, j: nat)
    requires Inv(r, Reading(m, lines)) && j / LINE_SIZE < lines && j < BUFFER_SIZE
    ensures |r.arrived[m].blocks| == BUFFER_LINES
    ensures r.buf[m % SLOTS][j / LINE_SIZE].View()[j % LINE_SIZE] == ByteOf(r.arrived[m].blocks, j)
  {
    TurnFacts(m, |r.arrived|, m % SLOTS);
    assert SlotOk(r, m, m % SLOTS);
    assert BlocksInMemory(r.buf[m % SLOTS])[j / LINE_SIZE] == r.buf[m % SLOTS][j / LINE_SIZE].mem;
  }

  lemma EndProbingStep(r: RxRing, m: nat)
    requires Inv(r, Probing(m))
    ensures Inv(r, Idle(m))
  {
  }

  lemma StartArmingStep(r: RxRing, slot: nat)
    requires Inv(r, Arming(slot, BUFFER_LINES)) && slot < SLOTS
    ensures Inv(r, ArmingWords(slot, 0))
  {
  }

  lemma StartReadingStep(r: RxRing, m: nat)
    requires Inv(r, Taken(m))
    ensures Inv(r, Reading(m, 0))
  {
  }

  lemma EndReadingStep(r: RxRing, m: nat, lines: nat)
    requires Inv(r, Reading(m, lines))
    ensures Inv(r, Taken(m))
  {
  }

  lemma StartRewriteStep(r: RxRing, m: nat)
    requires Inv(r, Taken(m))
    ensures Inv(r, Rewriting(m, 0))
  {
    TurnFacts(m, |r.arrived|, m % SLOTS);
    assert SlotOk(r, m, m % SLOTS);
  }

  /** Storing the next descriptor word; the ownership word is last, so nothing earlier publishes the slot. */
  lemma RewriteStep(r: RxRing, m: nat, words: nat, allocate: bool)
    requires Inv(r, Rewriting(m, words))
    ensures var i := m % SLOTS;
      var v := SetWord(r.desc[i].View(), words, ArmedWord(r, i, words));
      Inv(WithDescriptor(r, i, r.desc[i].Store(v, allocate)), if words < 3 then Rewriting(m, words + 1) else Publishing(m))
  {
    var i := m % SLOTS;
    var v := SetWord(r.desc[i].View(), words, ArmedWord(r, i, words));
    var s := WithDescriptor(r, i, r.desc[i].Store(v, allocate));
    OneSlot(r, s, m, i, i);
    if words == 3 && s.desc[i].copy.Absent? {
      assert Armed(s, i);
      ArmedSlotJoins(s, m);
    }
  }

  lemma PublishStep(r: RxRing, m: nat)
    requires Inv(r, Publishing(m))
    ensures Inv(WithDescriptor(r, m % SLOTS, r.desc[m % SLOTS].Clean()), Idle(m + 1)) && m < |r.arrived|
  {
    var i := m % SLOTS;
    var s := WithDescriptor(r, i, r.desc[i].Clean());
    if RingOk(r, m + 1, -1) {
      assert SlotOk(r, m + 1, i);
      assert s.desc[i] == r.desc[i];
      assert s.desc == r.desc;
    } else {
      OneSlot(r, s, m, i, i);
      assert Armed(s, i);
      ArmedSlotJoins(s, m);
    }
  }

  lemma ArmWordStep(r: RxRing, slot: nat, words: nat, allocate: bool)
    requires Inv(r, ArmingWords(slot, words)) && words < 4
    ensures var v := SetWord(r.desc[slot].View(), words, ArmedWord(r, slot, words));
      Inv(WithDescriptor(r, slot, r.desc[slot].Store(v, allocate)), ArmingWords(slot, words + 1))
  {
    var v := SetWord(r.desc[slot].View(), words, ArmedWord(r, slot, words));
    var s := WithDescriptor(r, slot, r.desc[slot].Store(v, allocate));
    forall j | 0 <= j < slot ensures Armed(s, j) { assert Armed(r, j); }
  }

  lemma ArmCleanStep(r: RxRing, slot: nat)
    requires Inv(r, ArmingWords(slot, 4))
    ensures Inv(WithDescriptor(r, slot, r.desc[slot].Clean()), Arming(slot + 1, 0))
  {
    var s := WithDescriptor(r, slot, r.desc[slot].Clean());
    forall j | 0 <= j < slot + 1 ensures Armed(s, j) {
      if j < slot { assert Armed(r, j); }
    }
  }

  lemma ListStep(r: RxRing)
    requires Inv(r, Arming(SLOTS, 0))
    ensures Inv(r.(pos := 0), Arming(SLOTS, 0))
  {
    forall i | 0 <= i < SLOTS ensures Armed(r.(pos := 0), i) { assert Armed(r, i); }
  }

  lemma StartStep(r: RxRing)
    requires Inv(r, Arming(SLOTS, 0)) && r.pos == 0
    ensures Inv(r.(active := true), Idle(0))
  {
    var s := r.(active := true);
    forall i | 0 <= i < SLOTS ensures SlotOk(s, 0, i) {
      assert Armed(r, i);
    }
  }

  // ---------- What the invariant says ----------

  lemma ModIgnoresLaps(i: int, m: nat)
    ensures (i - m % SLOTS) % SLOTS == (i - m) % SLOTS
  {
    assert i - m % SLOTS == (i - m) + SLOTS * (m / SLOTS);
  }

  /** The first slot not handed back: the driver's index, or its successor once the ownership word is in memory. */
  ghost function RunStart(r: RxRing, ph: Phase): (start: nat)
    requires ph.Idle? || ph.Probing? || ph.Taken? || ph.Reading? || ph.Rewriting? || ph.Publishing?
    ensures start == ph.m || (ph.Publishing? && start == ph.m + 1)
  {
    if ph.Publishing? && RingOk(r, ph.m + 1, -1) then ph.m + 1 else ph.m
  }

  /**
   At every moment between calls and inside one, the CPU-owned descriptors are the contiguous cyclic run that
   starts at the driver's index or, late in a call, at its successor.
   */
  lemma CpuOwnedRunIsContiguous(r: RxRing, ph: Phase, i: nat)
    requires ph.Idle? || ph.Probing? || ph.Taken? || ph.Reading? || ph.Rewriting? || ph.Publishing?
    requires Inv(r, ph) && i < SLOTS
    ensures var start := RunStart(r, ph);
      !Owned(r.desc[i].mem) <==> (i - start % SLOTS) % SLOTS < |r.arrived| - start
  {
    var start := RunStart(r, ph);
    TurnFacts(start, |r.arrived|, i);
    ModIgnoresLaps(i, start);
    if i == start % SLOTS && start == ph.m && (ph.Rewriting? || ph.Publishing?) {
      assert !Owned(r.desc[i].mem);
    } else {
      assert SlotOk(r, start, i);
    }
  }

  /** At every moment of a call, a descriptor that memory gives to the DMA is completely rewritten in memory. */
  lemma OwnedMeansRearmed(r: RxRing, ph: Phase, i: nat)
    requires Inv(r, ph) && !ph.Down? && r.active && i < SLOTS && Owned(r.desc[i].mem)
    ensures r.desc[i].mem == ArmedDescriptor(r, i) && !r.desc[i].Dirty() && Quiet(r.buf[i])
  {
    var m := ph.m;
    var next := m + 1;
    if ph.Publishing? && RingOk(r, next, -1) {
      assert SlotOk(r, next, i);
    } else if i != m % SLOTS || !(ph.Rewriting? || ph.Publishing?) {
      assert SlotOk(r, m, i);
    }
  }
}
