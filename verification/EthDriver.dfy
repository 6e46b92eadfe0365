/**
 The polling Ethernet driver. Between any two accesses to shared state the environment may
 perform any number of cache, DMA and bus-fault events in any order.
 */
module EthDriver {
  import opened Results
  import opened Cache
  import opened EthDescriptors
  import Rx = EthRxRing
  import Tx = EthTxRing

  const WAIT_LIMIT := 1_000_000
  const ETH1_HANDLE := 0x4554_4801
  const PHY_ADDRESSES := 32
  const NO_PHY := 255

  datatype Duplex = Unknown | Half | Full
  datatype Link = Link(up: bool, speed: nat, duplex: Duplex)

  /** The enable and mode bits of MACCR, and the DMA start bits. */
  datatype Mac = Mac(te: bool, re: bool, fes: bool, dm: bool, st: bool, sr: bool)

  datatype BusEvent = RxSide(rx: Rx.RxEvent) | TxSide(tx: Tx.TxEvent) | BusFault

  /** What one receive call did with the frame it took. */
  datatype RxOutcome =
    | Delivered(frame: seq<Byte>)
    | Malformed
    | TooSmall(capacity: nat)

  function MacValid(mac: seq<Byte>): bool
    requires |mac| == 6
  {
    mac[0] % 2 == 0 && exists i :: 0 <= i < 6 && mac[i] != 0
  }

  /** A completed descriptor is a deliverable frame: whole, error-free and of legal length. */
  predicate Deliverable(c: Rx.Completion) {
    && HasFirst(c.status) && HasLast(c.status) && !HasError(c.status)
    && MIN_FRAME <= FrameLength(c.status) <= MAX_FRAME
  }

  /** Which completions these are, by the bits of the status word alone. */
  lemma DeliverableByBits(c: Rx.Completion)
    ensures Deliverable(c) <==>
              && (c.status / 0x1000_0000) % 4 == 3 && (c.status % 0x1_0000) / 0x8000 == 0
              && 14 <= c.status % 0x8000 <= 1518
    ensures FrameLength(c.status) == c.status % 0x8000
  {
    StatusBits(c.status);
  }

  /** The outcome o is the right one for completion c. */
  ghost predicate Answers(o: RxOutcome, c: Rx.Completion) {
    match o
    case Delivered(frame) =>
      Deliverable(c) && |c.blocks| == BUFFER_LINES && frame == Bytes(c.blocks, FrameLength(c.status))
    case Malformed => !Deliverable(c)
    case TooSmall(capacity) => Deliverable(c) && capacity < FrameLength(c.status)
  }

  /** What the caller is told about outcome o, and what its buffer then holds. */
  ghost predicate Reported(o: RxOutcome, r: Status, received: nat, capacity: nat, now: seq<Byte>, before: seq<Byte>) {
    match o
    case Delivered(frame) =>
      && r == Ok && received == |frame| && 0 < received <= capacity
      && |now| == |before| && received <= |now| && now[..received] == frame && now[received..] == before[received..]
    case Malformed => r == IoError && received == 0 && now == before
    case TooSmall(c) => r == InvalidArgument && received == 0 && now == before && c == capacity
  }

  /** Outcomes match completions one to one, in order, from the first. */
  ghost predicate Matched(outcomes: seq<RxOutcome>, arrived: seq<Rx.Completion>) {
    |outcomes| <= |arrived| && forall j :: 0 <= j < |outcomes| ==> Answers(outcomes[j], arrived[j])
  }

  /** The wire carries the frames of the successful sends in order; an unnoticed fault can cost only the last. */
  ghost predicate OnWire(wire: seq<seq<Byte>>, sent: seq<seq<Byte>>, fault: bool) {
    wire == sent || (fault && |sent| > 0 && wire == sent[..|sent| - 1])
  }

  // ---------- Logs of calls ----------

  /** What the driver has to show for itself since the last init. */
  datatype Account = Account(arrived: seq<Rx.Completion>, outcomes: seq<RxOutcome>, wire: seq<seq<Byte>>, sent: seq<seq<Byte>>)

  datatype Call = Poll(capacity: nat) | Transmit(frame: seq<Byte>) | QueryLink

  predicate IsPoll(call: Call) { call.Poll? && call.capacity > 0 }

  /** No call forgets a completion or a frame; at most one completion is answered, the one next in order. */
  ghost predicate CallKeeps(a: Account, b: Account) {
    && a.arrived <= b.arrived && a.wire <= b.wire && a.outcomes <= b.outcomes && a.sent <= b.sent
    && (b.outcomes == a.outcomes
        || (|b.outcomes| == |a.outcomes| + 1 <= |b.arrived| && Answers(b.outcomes[|a.outcomes|], b.arrived[|a.outcomes|])))
  }

  /** A receive call answers the completion next in order if it was there when the call began. */
  ghost predicate PollKeeps(a: Account, b: Account) {
    CallKeeps(a, b) && (|a.outcomes| < |a.arrived| ==> |b.outcomes| == |a.outcomes| + 1)
  }

  ghost predicate Logged(log: seq<Account>) {
    |log| > 0 && Matched(log[0].outcomes, log[0].arrived) && forall k :: 0 <= k < |log| - 1 ==> CallKeeps(log[k], log[k + 1])
  }

  lemma {:induction false} LogsGrow(log: seq<Account>, s: nat, t: nat)
    requires Logged(log) && s <= t < |log|
    ensures log[s].arrived <= log[t].arrived && log[s].outcomes <= log[t].outcomes && log[s].wire <= log[t].wire
    ensures log[s].sent <= log[t].sent && Matched(log[s].outcomes, log[s].arrived) && Matched(log[t].outcomes, log[t].arrived)
    decreases t
  {
    if t > 0 {
      LogsGrow(log, if s < t then s else t - 1, t - 1);
      assert CallKeeps(log[t - 1], log[t]);
    }
  }

  /**
   Over any run of calls: completion j, as it was when it had arrived, is what outcome j answers at any later
   time; nothing is skipped, exchanged or answered twice.
   */
  lemma OutcomesAnswerArrivalsInOrder(log: seq<Account>, s: nat, t: nat, u: nat, j: nat)
    requires Logged(log) && s < |log| && t <= u < |log| && j < |log[s].arrived| && j < |log[t].outcomes|
    ensures Answers(log[t].outcomes[j], log[s].arrived[j])
    ensures j < |log[u].outcomes| && log[u].outcomes[j] == log[t].outcomes[j]
  {
    LogsGrow(log, t, u);
    LogsGrow(log, if s < t then s else t, if s < t then t else s);
  }

  /** How many of the calls are receive calls. */
  function Polls(script: seq<Call>): nat {
    if script == [] then 0 else Polls(script[..|script| - 1]) + (if IsPoll(script[|script| - 1]) then 1 else 0)
  }

  /**
   After n receive calls, mixed with any others, at least n more of the completions there at the start are answered,
   or all of them.
   */
  lemma {:induction false} EveryArrivalIsAnswered(log: seq<Account>, script: seq<Call>)
    requires Logged(log) && |log| == |script| + 1
    requires forall k :: 0 <= k < |script| && IsPoll(script[k]) ==> PollKeeps(log[k], log[k + 1])
    ensures var answered := |log[|script|].outcomes|;
      answered >= |log[0].arrived| || answered >= |log[0].outcomes| + Polls(script)
    decreases |script|
  {
    if script != [] {
      var last := |script| - 1;
      EveryArrivalIsAnswered(log[..last + 1], script[..last]);
      LogsGrow(log, 0, last);
      assert CallKeeps(log[last], log[last + 1]);
    }
  }

  // ---------- What the PHY was asked ----------

  /** One attempt on a PHY register over MDIO: `r` is Ok, or Timeout when the interface stayed busy. */
  datatype Mdio = Read(phy: nat, register: nat, r: Status, value: nat)
                | Wrote(phy: nat, register: nat, r: Status, value: nat)

  const BCR := 0
  const BSR := 1
  const PHYI1R := 2
  const PHYI2R := 3
  const SMR := 18
  const PHYSCSR := 31

  predicate Asked(m: Mdio, phy: nat, register: nat) { m.Read? && m.phy == phy && m.register == register }

  /**
   The reads of one link query: BSR twice, because its link bit latches low, and PHYSCSR only for a link that is up;
   the first that fails is the last.
   */
  ghost predicate LinkReads(phy: nat, log: seq<Mdio>) {
    && 1 <= |log| <= 3
    && (forall k :: 0 <= k < |log| ==> Asked(log[k], phy, if k < 2 then 1 else 31))
    && (forall k :: 0 <= k < |log| - 1 ==> log[k].r == Ok)
    && (|log| == 1 ==> log[0].r != Ok)
    && (|log| >= 2 && log[1].r == Ok ==> (|log| == 3 <==> (log[1].value / 4) % 2 == 1))
  }

  const DOWN := Link(false, 0, Unknown)

  function ModeAnswer(value: nat): (Status, Link) {
    match (value / 4) % 8
    case 1 => (Ok, Link(true, 10, Half))
    case 2 => (Ok, Link(true, 100, Half))
    case 5 => (Ok, Link(true, 10, Full))
    case 6 => (Ok, Link(true, 100, Full))
    case _ => (IoError, DOWN)
  }

  /** What they mean: bit 2 of the second BSR, and the mode in bits 2 to 4 of PHYSCSR. */
  ghost function LinkAnswer(log: seq<Mdio>): (Status, Link)
    requires |log| > 0
  {
    var last := log[|log| - 1];
    if last.r != Ok then (last.r, DOWN)
    else if |log| < 3 then (Ok, DOWN)
    else ModeAnswer(last.value)
  }

  predicate NoId(id1: nat, id2: nat) { (id1 == 0 && id2 == 0) || (id1 == 0xffff && id2 == 0xffff) }

  /** Attempt k and those after it show that no PHY answers at an address. */
  ghost predicate Rejects(log: seq<Mdio>, address: nat, k: nat) {
    && k < |log| && Asked(log[k], address, 18)
    && (|| log[k].r != Ok || log[k].value % 32 != address
        || (k + 1 < |log| && Asked(log[k + 1], address, 2) && log[k + 1].r != Ok)
        || (k + 2 < |log| && Asked(log[k + 1], address, 2) && Asked(log[k + 2], address, 3)
            && (log[k + 2].r != Ok || NoId(log[k + 1].value, log[k + 2].value))))
  }

  ghost predicate Answered(log: seq<Mdio>, address: nat, k: nat) {
    && k + 2 < |log| && Asked(log[k], address, 18) && Asked(log[k + 1], address, 2) && Asked(log[k + 2], address, 3)
    && log[k].r == log[k + 1].r == log[k + 2].r == Ok
    && log[k].value % 32 == address && !NoId(log[k + 1].value, log[k + 2].value)
  }

  ghost predicate NoPhyAt(log: seq<Mdio>, address: nat) { exists k: nat :: Rejects(log, address, k) }

  ghost predicate NoPhyBelow(log: seq<Mdio>, limit: nat) {
    forall a: nat :: a < limit ==> NoPhyAt(log, a)
  }

  lemma RejectionsStay(log: seq<Mdio>, more: seq<Mdio>, limit: nat)
    requires NoPhyBelow(log, limit)
    ensures NoPhyBelow(log + more, limit)
  {
    forall a: nat | a < limit ensures NoPhyAt(log + more, a) {
      assert NoPhyAt(log, a);
      var k: nat :| Rejects(log, a, k);
      assert Rejects(log + more, a, k);
    }
  }

  /** Auto-negotiation on and restarted, power-down and isolation off, every other bit as it was read. */
  predicate Restarts(was: nat, now: nat) {
    now / 0x2000 == was / 0x2000 && (now / 0x200) % 16 == 9 && now % 0x200 == was % 0x200
  }

  /** The end of a successful set-up: the first PHY that answered, and its control register rewritten. */
  ghost predicate SetUp(log: seq<Mdio>, phy: nat) {
    && |log| >= 5 && phy < 32 && NoPhyBelow(log, phy) && Answered(log, phy, |log| - 5)
    && Asked(log[|log| - 2], phy, 0) && log[|log| - 2].r == Ok
    && log[|log| - 1] == Wrote(phy, 0, Ok, log[|log| - 1].value) && Restarts(log[|log| - 2].value, log[|log| - 1].value)
  }

  class Driver {
    var tx: Tx.TxRing
    var rx: Rx.RxRing
    var fault: bool
    var mac: Mac
    var initialized: bool
    var phy: nat
    var txIndex: nat
    var rxIndex: nat
    ghost var txPhase: Tx.Phase
    ghost var rxPhase: Rx.Phase
    ghost var sent: seq<seq<Byte>>        // frames of successful sends since the last init
    ghost var outcomes: seq<RxOutcome>    // receive outcomes since the last init
    ghost var windows: nat                // times the environment has had its turn
    ghost var looked: nat                 // `windows` at the last read of DMACSR, and what it showed
    ghost var shown: bool
    ghost var mdio: seq<Mdio>             // every attempt on a PHY register
    ghost var unready: nat                // looks of the current wait, when none has shown what it waits for

    ghost predicate Rings()
      reads this
    {
      && Rx.Shape(rx) && Tx.Shape(tx)
      && Rx.Inv(rx, rxPhase) && Tx.Inv(tx, txPhase, fault)
      // Consequences spelled out for methods that reason without the invariants' definitions.
      && (rxPhase.Arming? || rxPhase.ArmingWords? ==> !rx.active) && (txPhase.Clearing? ==> !tx.active)
      && (rxPhase.Taken? || rxPhase.Reading? ==> rxPhase.m < |rx.arrived|) && (rxPhase.Idle? ==> rxPhase.m <= |rx.arrived|)
      && (txPhase.Idle? ==> tx.wire == txPhase.wire)
    }

    ghost predicate Enabled()
      reads this
    {
      mac.te && mac.re && mac.st && mac.sr && phy < PHY_ADDRESSES
    }

    /** Holds between calls. */
    ghost predicate Valid()
      reads this
    {
      Rings() &&
      (initialized ==>
         && Enabled()
         && rxPhase == Rx.Idle(|outcomes|) && rxIndex == |outcomes| % SLOTS
         && txPhase == Tx.Idle(|sent|, tx.wire) && txIndex == |sent| % SLOTS
         && Matched(outcomes, rx.arrived)
         && OnWire(tx.wire, sent, fault))
    }

    /** Any static placement of the arrays, any cache content, the MAC never started. */
    constructor (tx: Tx.TxRing, rx: Rx.RxRing, mac: Mac)
      requires Tx.Shape(tx) && Rx.Shape(rx)
      ensures Valid() && !initialized
    {
      this.tx, this.rx, this.mac := tx, rx, mac;
      fault, initialized, phy, txIndex, rxIndex := false, false, NO_PHY, 0, 0;
      txPhase, rxPhase := Tx.Down, Rx.Down;
      sent, outcomes, windows, looked, shown, mdio, unready := [], [], 0, 0, false, [], 0;
    }

    /** The environment only adds: arrivals, frames on the wire, a fault. */
    twostate predicate Progressed()
      reads this
    {
      Rx.Extends(old(rx), rx) && Tx.Extends(old(tx), tx) && (old(fault) ==> fault) && old(windows) <= windows
    }

    // ---------- The environment ----------

    method Interfere()
      requires Rings()
      modifies `tx, `rx, `fault, `windows
      ensures Rings() && Progressed() && windows == old(windows) + 1
    {
      hide Rx.Inv, Tx.Inv;
      windows := windows + 1;
      var n: nat := *;
      while n > 0
        invariant Rings() && Progressed() && windows == old(windows) + 1
      {
        var e: BusEvent := *;
        match e {
          case RxSide(event) =>
            Rx.EnvironmentKeepsInv(rx, event, rxPhase);
            rx := Rx.Apply(rx, event);
          case TxSide(event) =>
            Tx.EnvironmentKeepsInv(tx, event, txPhase, fault);
            tx := Tx.Apply(tx, event, fault);
          case BusFault =>
            Tx.FaultKeepsInv(tx, txPhase, fault);
            fault := true;
        }
        n := n - 1;
      }
    }

    /** DMACSR.FBE, read afresh. */
    method ReadFault() returns (raised: bool)
      requires Rings()
      modifies `tx, `rx, `fault, `windows, `looked, `shown
      ensures Rings() && Progressed() && raised == fault == shown && looked == windows
    {
      Interfere();
      raised := fault;
      looked, shown := windows, raised;
    }

    /** Stops both directions and ends the initialization. */
    method EnterFaultState(reason: Status) returns (r: Status)
      requires Rings()
      modifies `initialized, `mac, `txPhase, `rxPhase
      ensures r == reason && !initialized && Rings() && txPhase == Tx.Down && rxPhase == Rx.Down
      ensures !mac.st && !mac.sr && !mac.te && !mac.re
    {
      initialized := false;
      mac := mac.(st := false);
      mac := mac.(sr := false);
      mac := mac.(te := false, re := false);
      txPhase, rxPhase := Tx.Down, Rx.Down;
      r := reason;
    }

    // ---------- Cache maintenance ----------

    /** The lines of an aligned array element that a maintenance call covers: never refused, never a neighbour's. */
    method LinesTouched(arrayBase: Word, address: Word, size: Word) returns (low: nat, high: nat)
      requires 0 < arrayBase <= address && Aligned(arrayBase) && Aligned(address)
      requires 0 < size <= BUFFER_SIZE && address + size <= ADDRESS_MAX - LINE_SIZE
      ensures low == (address - arrayBase) / LINE_SIZE && high == low + LinesOf(size)
    {
      RangeOfAlignedArray(address, size);
      var range := CacheRange(address, size).value;
      low := (range.first - arrayBase) / LINE_SIZE;
      high := low + range.span / LINE_SIZE;
    }

    method InvalidateRxDescriptor(i: nat)
      requires Rings() && rxPhase.Idle? && i == rxPhase.m % SLOTS
      modifies `tx, `rx, `fault, `windows, `rxPhase
      ensures Rings() && Progressed()
      ensures rxPhase == Rx.Taken(old(rxPhase).m) || rxPhase == Rx.Probing(old(rxPhase).m)
      ensures old(rxPhase.m < |rx.arrived|) ==> rxPhase.Taken?
    {
      hide Rx.Inv, Tx.Inv;
      var low, high := LinesTouched(rx.descBase, rx.descBase + DESCRIPTOR_SIZE * i, DESCRIPTOR_SIZE);
      ghost var m := rxPhase.m;
      var k := low;
      while k < high
        invariant low <= k <= high && low == i && high == i + 1
        invariant Rings() && Progressed()
        invariant k == i ==> rxPhase == Rx.Idle(m)
        invariant k == i + 1 ==> rxPhase == Rx.Taken(m) || rxPhase == Rx.Probing(m)
        invariant k == i + 1 && old(m < |rx.arrived|) ==> rxPhase.Taken?
      {
        Interfere();
        Rx.ProbeStep(rx, m);
        rxPhase := if m < |rx.arrived| then Rx.Taken(m) else Rx.Probing(m);
        rx := Rx.WithDescriptor(rx, k, rx.desc[k].Invalidate());
        k := k + 1;
      }
    }

    method CleanRxDescriptor(i: nat)
      requires Rings() && i < SLOTS
      requires (rxPhase.Publishing? && i == rxPhase.m % SLOTS) || rxPhase == Rx.ArmingWords(i, 4)
      modifies `tx, `rx, `fault, `windows, `rxPhase
      ensures Rings() && Progressed()
      ensures rxPhase == if old(rxPhase).Publishing? then Rx.Idle(old(rxPhase).m + 1) else Rx.Arming(i + 1, 0)
    {
      hide Rx.Inv, Tx.Inv;
      var low, high := LinesTouched(rx.descBase, rx.descBase + DESCRIPTOR_SIZE * i, DESCRIPTOR_SIZE);
      ghost var before := rxPhase;
      ghost var after := if before.Publishing? then Rx.Idle(before.m + 1) else Rx.Arming(i + 1, 0);
      var k := low;
      while k < high
        invariant low <= k <= high && low == i && high == i + 1
        invariant Rings() && Progressed()
        invariant rxPhase == if k == i then before else after
      {
        Interfere();
        if before.Publishing? { Rx.PublishStep(rx, before.m); } else { Rx.ArmCleanStep(rx, i); }
        rx := Rx.WithDescriptor(rx, k, rx.desc[k].Clean());
        rxPhase := after;
        k := k + 1;
      }
    }

    /** In a receive call, refreshes the lines of a frame to be read; in init, all lines of a buffer to be armed. */
    method InvalidateRxBuffer(i: nat, size: nat)
      requires Rings() && i < SLOTS && 0 < size <= BUFFER_SIZE
      requires (rxPhase.Taken? && i == rxPhase.m % SLOTS) || (rxPhase == Rx.Arming(i, 0) && size == BUFFER_SIZE)
      modifies `tx, `rx, `fault, `windows, `rxPhase
      ensures Rings() && Progressed()
      ensures rxPhase == if old(rxPhase).Taken? then Rx.Reading(old(rxPhase).m, LinesOf(size)) else Rx.ArmingWords(i, 0)
    {
      hide Rx.Inv, Tx.Inv;
      var base := BufferAddress(rx.bufBase, i);
      var low, high := LinesTouched(base, base, size);
      ghost var reading := rxPhase.Taken?;
      ghost var m := if reading then rxPhase.m else 0;
      if reading {
        Rx.StartReadingStep(rx, m);
        rxPhase := Rx.Reading(m, 0);
      }
      var k := low;
      while k < high
        invariant 0 == low <= k <= high == LinesOf(size) <= BUFFER_LINES
        invariant Rings() && Progressed()
        invariant rxPhase == if reading then Rx.Reading(m, k) else Rx.Arming(i, k)
      {
        Interfere();
        Rx.InvalidateLineStep(rx, rxPhase, i, k);
        rx := Rx.WithBufferLine(rx, i, k, rx.buf[i][k].Invalidate());
        rxPhase := if reading then Rx.Reading(m, k + 1) else Rx.Arming(i, k + 1);
        k := k + 1;
      }
      if !reading {
        Rx.StartArmingStep(rx, i);
        rxPhase := Rx.ArmingWords(i, 0);
      }
    }

    method InvalidateTxDescriptor(i: nat)
      requires Rings() && (txPhase.Idle? || txPhase.InFlight?) && i == txPhase.t % SLOTS
      modifies `tx, `rx, `fault, `windows, `txPhase
      ensures Rings() && Progressed()
      ensures txPhase == if old(txPhase).Idle? then Tx.Held(old(txPhase).t, old(txPhase).wire) else old(txPhase)
    {
      hide Rx.Inv, Tx.Inv;
      var low, high := LinesTouched(tx.descBase, tx.descBase + DESCRIPTOR_SIZE * i, DESCRIPTOR_SIZE);
      ghost var before := txPhase;
      ghost var after := if before.Idle? then Tx.Held(before.t, before.wire) else before;
      var k := low;
      while k < high
        invariant low <= k <= high && low == i && high == i + 1
        invariant Rings() && Progressed()
        invariant txPhase == if k == i then before else after
      {
        Interfere();
        if before.Idle? { Tx.HoldStep(tx, before.t, before.wire, fault); }
        else { Tx.PollStep(tx, before.t, before.wire, before.f, fault); }
        tx := Tx.WithDescriptor(tx, k, tx.desc[k].Invalidate());
        txPhase := after;
        k := k + 1;
      }
    }

    method CleanTxDescriptor(i: nat)
      requires Rings() && i < SLOTS
      requires (txPhase.Publishing? && i == txPhase.t % SLOTS) || txPhase == Tx.Clearing(i, 4)
      modifies `tx, `rx, `fault, `windows, `txPhase
      ensures Rings() && Progressed()
      ensures txPhase == if old(txPhase).Publishing? then Tx.InFlight(old(txPhase).t, old(txPhase).wire, old(txPhase).f)
                         else Tx.Clearing(i + 1, 0)
    {
      hide Rx.Inv, Tx.Inv;
      var low, high := LinesTouched(tx.descBase, tx.descBase + DESCRIPTOR_SIZE * i, DESCRIPTOR_SIZE);
      ghost var before := txPhase;
      ghost var after := if before.Publishing? then Tx.InFlight(before.t, before.wire, before.f) else Tx.Clearing(i + 1, 0);
      var k := low;
      while k < high
        invariant low <= k <= high && low == i && high == i + 1
        invariant Rings() && Progressed()
        invariant txPhase == if k == i then before else after
      {
        Interfere();
        if before.Publishing? { Tx.PublishStep(tx, before.t, before.wire, before.f, fault); }
        else { Tx.ClearCleanStep(tx, i, fault); }
        tx := Tx.WithDescriptor(tx, k, tx.desc[k].Clean());
        txPhase := after;
        k := k + 1;
      }
    }

    method CleanTxBuffer(i: nat, size: nat)
      requires Rings() && txPhase.Cleaning? && txPhase.lines == 0 && i == txPhase.t % SLOTS
      requires size == |txPhase.f| && 0 < size <= MAX_FRAME
      modifies `tx, `rx, `fault, `windows, `txPhase
      ensures Rings() && Progressed()
      ensures txPhase == Tx.Describing(old(txPhase).t, old(txPhase).wire, old(txPhase).f, 0)
    {
      hide Rx.Inv, Tx.Inv;
      var base := BufferAddress(tx.bufBase, i);
      var low, high := LinesTouched(base, base, size);
      ghost var t, wire, f := txPhase.t, txPhase.wire, txPhase.f;
      var k := low;
      while k < high
        invariant 0 == low <= k <= high == LinesOf(size) <= BUFFER_LINES
        invariant Rings() && Progressed() && txPhase == Tx.Cleaning(t, wire, f, k)
      {
        Interfere();
        Tx.CleanLineStep(tx, t, wire, f, k, fault);
        tx := Tx.WithBufferLine(tx, i, k, tx.buf[i][k].Clean());
        txPhase := Tx.Cleaning(t, wire, f, k + 1);
        k := k + 1;
      }
      Tx.StartDescribingStep(tx, t, wire, f, fault);
      txPhase := Tx.Describing(t, wire, f, 0);
    }

    // ---------- Receive ----------

    method ReadRxStatus(i: nat) returns (status: Word)
      requires Rings() && (rxPhase.Probing? || rxPhase.Taken?) && i == rxPhase.m % SLOTS
      modifies `tx, `rx, `fault, `windows, `rxPhase
      ensures Rings() && Progressed()
      ensures old(rxPhase).Taken? ==> status < OWN
      ensures status >= OWN ==> rxPhase == old(rxPhase)
      ensures status < OWN ==> rxPhase == Rx.Taken(old(rxPhase).m) && status == rx.arrived[rxPhase.m].status
    {
      Interfere();
      status := rx.desc[i].View().d3;
      Rx.SeenStep(rx, rxPhase);
      if status < OWN {
        rxPhase := Rx.Taken(rxPhase.m);
      }
    }

    method StoreRxWord(i: nat, word: nat, value: Word)
      requires Rings() && i < SLOTS && word < 4 && value == Rx.ArmedWord(rx, i, word)
      requires (rxPhase.Rewriting? && i == rxPhase.m % SLOTS && rxPhase.words == word) || rxPhase == Rx.ArmingWords(i, word)
      modifies `tx, `rx, `fault, `windows, `rxPhase
      ensures Rings() && Progressed()
      ensures old(rxPhase).ArmingWords? ==> rxPhase == Rx.ArmingWords(i, word + 1)
      ensures old(rxPhase).Rewriting? ==>
                rxPhase == if word < 3 then Rx.Rewriting(old(rxPhase).m, word + 1) else Rx.Publishing(old(rxPhase).m)
    {
      hide Rx.Inv, Tx.Inv;
      Interfere();
      var allocate: bool := *;
      if rxPhase.Rewriting? {
        Rx.RewriteStep(rx, rxPhase.m, word, allocate);
        rxPhase := if word < 3 then Rx.Rewriting(rxPhase.m, word + 1) else Rx.Publishing(rxPhase.m);
      } else {
        Rx.ArmWordStep(rx, i, word, allocate);
        rxPhase := Rx.ArmingWords(i, word + 1);
      }
      rx := Rx.WithDescriptor(rx, i, rx.desc[i].Store(SetWord(rx.desc[i].View(), word, value), allocate));
    }

    /** Gives the consumed descriptor back to the DMA. */
    method RecycleRxDescriptor(i: nat)
      requires Rings() && rxPhase.Taken? && i == rxPhase.m % SLOTS
      modifies `tx, `rx, `fault, `windows, `rxPhase
      ensures Rings() && Progressed() && rxPhase == Rx.Idle(old(rxPhase).m + 1)
    {
      hide Rx.Inv, Tx.Inv;
      ghost var m := rxPhase.m;
      InvalidateRxBuffer(i, BUFFER_SIZE);
      Rx.EndReadingStep(rx, m, rxPhase.lines);
      Rx.StartRewriteStep(rx, m);
      rxPhase := Rx.Rewriting(m, 0);
      StoreRxWord(i, 0, BufferAddress(rx.bufBase, i));
      StoreRxWord(i, 1, 0);
      StoreRxWord(i, 2, 0);
      StoreRxWord(i, 3, OWN + BUFFER1_VALID);
      CleanRxDescriptor(i);
    }

    /** Copies the frame out of the cache, one byte at a time, while the environment keeps running. */
    method CopyFrame(buffer: array<Byte>, i: nat, length: nat)
      requires Rings() && rxPhase.Reading? && i == rxPhase.m % SLOTS && rxPhase.lines == LinesOf(length)
      requires 0 < length <= MAX_FRAME && length <= buffer.Length
      modifies `tx, `rx, `fault, `windows, `rxPhase, buffer
      ensures Rings() && Progressed() && rxPhase == Rx.Taken(old(rxPhase).m)
      ensures |rx.arrived[rxPhase.m].blocks| == BUFFER_LINES
      ensures buffer[..length] == Bytes(rx.arrived[rxPhase.m].blocks, length)
      ensures buffer[length..] == old(buffer[length..])
    {
      hide Rx.Inv, Tx.Inv;
      ghost var m, lines := rxPhase.m, rxPhase.lines;
      Rx.ReadStep(rx, m, lines, 0);
      var j := 0;
      while j < length
        invariant 0 <= j <= length
        invariant Rings() && Progressed() && rxPhase == Rx.Reading(m, lines)
        invariant forall q :: 0 <= q < j ==> buffer[q] == ByteOf(rx.arrived[m].blocks, q)
        invariant forall q :: j <= q < buffer.Length ==> buffer[q] == old(buffer[q])
      {
        Interfere();
        Rx.ReadStep(rx, m, lines, j);
        buffer[j] := rx.buf[i][j / LINE_SIZE].View()[j % LINE_SIZE];
        j := j + 1;
      }
      Rx.EndReadingStep(rx, m, lines);
      rxPhase := Rx.Taken(m);
    }

    /** In a receive call that has taken completion |outcomes| and not yet answered it. */
    ghost predicate Answering(index: nat)
      reads this
    {
      && Rings() && initialized && Enabled() && rxPhase == Rx.Taken(|outcomes|) && |outcomes| < |rx.arrived|
      && index == rxIndex == |outcomes| % SLOTS
      && txPhase == Tx.Idle(|sent|, tx.wire) && txIndex == |sent| % SLOTS
      && Matched(outcomes, rx.arrived) && OnWire(tx.wire, sent, fault)
    }

    /** Re-arms the slot of the completion in hand and records what became of it. */
    method FinishFrame(index: nat, ghost o: RxOutcome)
      requires Answering(index) && Answers(o, rx.arrived[|outcomes|])
      modifies `tx, `rx, `fault, `windows, `rxPhase, `rxIndex, `outcomes
      ensures Valid() && Progressed() && outcomes == old(outcomes) + [o]
      ensures |old(outcomes)| < |rx.arrived| && Answers(o, rx.arrived[|old(outcomes)|])
    {
      hide Rx.Inv, Tx.Inv, Rx.Shape, Tx.Shape;
      RecycleRxDescriptor(index);
      rxIndex := (index + 1) % SLOTS;
      outcomes := outcomes + [o];
    }

    method DeliverFrame(buffer: array<Byte>, index: nat, length: nat) returns (ghost o: RxOutcome)
      requires Answering(index) && Deliverable(rx.arrived[|outcomes|])
      requires length == FrameLength(rx.arrived[|outcomes|].status) <= buffer.Length
      modifies `tx, `rx, `fault, `windows, `rxPhase, `rxIndex, `outcomes, buffer
      ensures Valid() && outcomes == old(outcomes) + [o]
      ensures |old(outcomes)| < |rx.arrived| && Answers(o, rx.arrived[|old(outcomes)|])
      ensures o == Delivered(buffer[..length]) && buffer[length..] == old(buffer[length..])
      ensures old(rx.arrived) <= rx.arrived && old(tx.wire) <= tx.wire
    {
      hide Rx.Inv, Tx.Inv, Rx.Shape, Tx.Shape;
      ghost var m := |outcomes|;
      InvalidateRxBuffer(index, length);
      CopyFrame(buffer, index, length);
      o := Delivered(buffer[..length]);
      FinishFrame(index, o);
    }

    /** The part of a receive call after its descriptor was seen to be complete. */
    method TakeFrame(buffer: array<Byte>, capacity: nat, index: nat)
      returns (r: Status, received: nat, ghost o: RxOutcome)
      requires Answering(index) && 0 < capacity <= buffer.Length
      modifies `tx, `rx, `fault, `windows, `rxPhase, `rxIndex, `outcomes, buffer
      ensures Valid() && outcomes == old(outcomes) + [o]
      ensures |old(outcomes)| < |rx.arrived| && Answers(o, rx.arrived[|old(outcomes)|])
      ensures Reported(o, r, received, capacity, buffer[..], old(buffer[..]))
      ensures old(rx.arrived) <= rx.arrived && old(tx.wire) <= tx.wire
    {
      hide Rx.Inv, Tx.Inv, Rx.Shape, Tx.Shape;
      var status := ReadRxStatus(index);
      var length := FrameLength(status);
      var complete := HasFirst(status) && HasLast(status);
      var valid := complete && !HasError(status) && length >= MIN_FRAME && length <= MAX_FRAME;

      if !valid || length > capacity {
        o := if valid then TooSmall(capacity) else Malformed;
        FinishFrame(index, o);
        return if valid then InvalidArgument else IoError, 0, o;
      }

      ghost var before := buffer[..];
      o := DeliverFrame(buffer, index, length);
      assert buffer[..][length..] == before[length..];
      return Ok, length, o;
    }

    /** The part of a receive call after the fault check. */
    method ReceiveNext(buffer: array<Byte>, capacity: nat) returns (r: Status, received: nat, ghost o: RxOutcome)
      requires Valid() && initialized && 0 < capacity <= buffer.Length
      modifies `tx, `rx, `fault, `windows, `rxPhase, `rxIndex, `outcomes, buffer
      ensures Valid()
      ensures outcomes == old(outcomes) ==>
                r == Ok && received == 0 && unchanged(buffer) && old(|rx.arrived| == |outcomes|)
      ensures outcomes != old(outcomes) ==>
                && outcomes == old(outcomes) + [o] && |old(outcomes)| < |rx.arrived|
                && Answers(o, rx.arrived[|old(outcomes)|])
                && Reported(o, r, received, capacity, buffer[..], old(buffer[..]))
      ensures old(rx.arrived) <= rx.arrived && old(tx.wire) <= tx.wire
    {
      hide Rx.Inv, Tx.Inv, Rx.Shape, Tx.Shape;
      var index := rxIndex;
      InvalidateRxDescriptor(index);
      var first := ReadRxStatus(index);
      if first >= OWN {
        Rx.EndProbingStep(rx, rxPhase.m);
        rxPhase := Rx.Idle(|outcomes|);
        return Ok, 0, Malformed;
      }
      r, received, o := TakeFrame(buffer, capacity, index);
    }

    /**
     Polls for one frame. Without a frame the result is Ok with 0 bytes; every frame taken is answered once,
     in arrival order, and a frame already there when the call starts is never missed.
     */
    method Receive(handle: Word, buffer: array?<Byte>, capacity: nat) returns (r: Status, received: nat, ghost o: RxOutcome)
      requires Valid() && (buffer != null ==> capacity <= buffer.Length)
      modifies this, buffer
      ensures Valid() && sent == old(sent)
      ensures handle != ETH1_HANDLE || buffer == null || capacity == 0 ==>
                r == InvalidArgument && received == 0 && unchanged(this) && (buffer != null ==> unchanged(buffer))
      ensures handle == ETH1_HANDLE && buffer != null && capacity > 0 && old(!initialized) ==>
                r == NotReady && received == 0 && unchanged(this) && unchanged(buffer)
      ensures old(initialized) && !initialized ==>
                && r == IoError && received == 0 && fault && outcomes == old(outcomes)
                && (buffer != null ==> unchanged(buffer))
                && !mac.te && !mac.re && !mac.st && !mac.sr
      ensures handle == ETH1_HANDLE && buffer != null && capacity > 0 && old(initialized && fault) ==>
                r == IoError && !initialized
      ensures handle == ETH1_HANDLE && buffer != null && capacity > 0 && initialized ==>
                if outcomes == old(outcomes)
                then r == Ok && received == 0 && unchanged(buffer) && old(|rx.arrived| == |outcomes|)
                else && outcomes == old(outcomes) + [o] && |old(outcomes)| < |rx.arrived|
                     && Answers(o, rx.arrived[|old(outcomes)|])
                     && Reported(o, r, received, capacity, buffer[..], old(buffer[..]))
      ensures old(rx.arrived) <= rx.arrived && old(tx.wire) <= tx.wire
    {
      hide Rx.Inv, Tx.Inv, Rx.Shape, Tx.Shape;
      received, o := 0, Malformed;
      if handle != ETH1_HANDLE || buffer == null || capacity == 0 {
        r := InvalidArgument;
        return;
      }
      if !initialized {
        r := NotReady;
        return;
      }
      var raised := ReadFault();
      if raised {
        r := EnterFaultState(IoError);
        return;
      }
      r, received, o := ReceiveNext(buffer, capacity);
    }

    // ---------- Link ----------

    /** One look at the busy bit of the MDIO interface. */
    method MdioBusy() returns (busy: bool)
      modifies `unready
      ensures unready == if busy then old(unready) + 1 else 0
    {
      busy := *;
      unready := if busy then unready + 1 else 0;
    }

    method MdioWaitIdle() returns (r: Status)
      modifies `unready
      ensures r in {Ok, Timeout} && (r == Timeout ==> unready == WAIT_LIMIT)
    {
      unready := 0;
      var poll := 0;
      while poll < WAIT_LIMIT
        invariant 0 <= poll <= WAIT_LIMIT && unready == poll
      {
        var busy := MdioBusy();
        if !busy { return Ok; }
        poll := poll + 1;
      }
      return Timeout;
    }

    /** One MDIO read: the interface may stay busy, and the PHY may answer anything. */
    method MdioRead(address: nat, register: nat) returns (r: Status, value: nat)
      modifies `mdio, `unready
      ensures address >= PHY_ADDRESSES || register >= 32 ==> r == InvalidArgument && mdio == old(mdio)
      ensures address < PHY_ADDRESSES && register < 32 ==>
                r in {Ok, Timeout} && mdio == old(mdio) + [Read(address, register, r, value)]
      ensures (r == Timeout ==> unready == WAIT_LIMIT) && value < 0x1_0000
    {
      value := 0;
      if address >= PHY_ADDRESSES || register >= 32 { return InvalidArgument, value; }
      r := MdioWaitIdle();
      if r == Ok {
        r := MdioWaitIdle();
        if r == Ok {
          var answer: Word := *;
          value := answer % 0x1_0000;
        }
      }
      mdio := mdio + [Read(address, register, r, value)];
    }

    method MdioWrite(address: nat, register: nat, value: nat) returns (r: Status)
      modifies `mdio, `unready
      ensures address >= PHY_ADDRESSES || register >= 32 ==> r == InvalidArgument && mdio == old(mdio)
      ensures address < PHY_ADDRESSES && register < 32 ==>
                r in {Ok, Timeout} && mdio == old(mdio) + [Wrote(address, register, r, value)]
      ensures r == Timeout ==> unready == WAIT_LIMIT
    {
      if address >= PHY_ADDRESSES || register >= 32 { return InvalidArgument; }
      r := MdioWaitIdle();
      if r == Ok {
        r := MdioWaitIdle();
      }
      mdio := mdio + [Wrote(address, register, r, value)];
    }

    /** MACCR takes the speed and duplex of a mode it knows. */
    method FollowMode(phyStatus: nat) returns (r: Status, link: Link)
      modifies `mac
      ensures (r, link) == ModeAnswer(phyStatus)
      ensures mac.(fes := old(mac.fes), dm := old(mac.dm)) == old(mac)
      ensures if link.up then (mac.fes <==> link.speed == 100) && (mac.dm <==> link.duplex == Full) else mac == old(mac)
    {
      link := DOWN;
      var mode := (phyStatus / 4) % 8 * 4;
      if mode == 0x18 { link := link.(speed := 100, duplex := Full); }
      else if mode == 0x08 { link := link.(speed := 100, duplex := Half); }
      else if mode == 0x14 { link := link.(speed := 10, duplex := Full); }
      else if mode == 0x04 { link := link.(speed := 10, duplex := Half); }
      else { return IoError, link; }

      var enableTe, enableRe := mac.te, mac.re;
      var maccr := mac.(te := false, re := false, fes := false, dm := false);
      if link.speed == 100 { maccr := maccr.(fes := true); }
      if link.duplex == Full { maccr := maccr.(dm := true); }
      mac := maccr.(te := enableTe, re := enableRe);
      return Ok, link.(up := true);
    }

    /** The answer is the one the PHY's registers give, and MACCR follows a link that is up. */
    method ReadLinkState() returns (r: Status, link: Link, ghost log: seq<Mdio>)
      requires phy < PHY_ADDRESSES
      modifies `mac, `mdio, `unready
      ensures mdio == old(mdio) + log && LinkReads(phy, log) && (r, link) == LinkAnswer(log)
      ensures r == Timeout ==> unready == WAIT_LIMIT
      ensures mac.(fes := old(mac.fes), dm := old(mac.dm)) == old(mac)
      ensures link.up ==> (mac.fes <==> link.speed == 100) && (mac.dm <==> link.duplex == Full)
      ensures !link.up ==> mac == old(mac)
    {
      link, log := DOWN, [];
      var status;
      r, status := MdioRead(phy, BSR);
      log := log + [Read(phy, 1, r, status)];
      if r != Ok { return; }
      r, status := MdioRead(phy, BSR);
      log := log + [Read(phy, 1, r, status)];
      if r != Ok { return; }
      if (status / 4) % 2 == 0 { return; }
      var phyStatus;
      r, phyStatus := MdioRead(phy, PHYSCSR);
      log := log + [Read(phy, 31, r, phyStatus)];
      if r != Ok { return; }
      r, link := FollowMode(phyStatus);
    }

    /** Losing the link never ends the initialization and never touches a ring. */
    method LinkState(handle: Word) returns (r: Status, link: Link, ghost log: seq<Mdio>)
      requires Valid()
      modifies `mac, `mdio, `unready
      ensures Valid() && mdio == old(mdio) + log
      ensures handle != ETH1_HANDLE ==> r == InvalidArgument && log == [] && mac == old(mac)
      ensures handle == ETH1_HANDLE && !initialized ==> r == NotReady && log == [] && mac == old(mac)
      ensures handle == ETH1_HANDLE && initialized ==>
                LinkReads(phy, log) && (r, link) == LinkAnswer(log) && (r == Timeout ==> unready == WAIT_LIMIT)
    {
      link, log := DOWN, [];
      if handle != ETH1_HANDLE { return InvalidArgument, link, log; }
      if !initialized || phy == NO_PHY { return NotReady, link, log; }
      r, link, log := ReadLinkState();
    }

    // ---------- Send ----------

    method CopyIn(frame: array<Byte>, i: nat, length: nat)
      requires Rings() && 0 < length <= frame.Length && length <= MAX_FRAME
      requires txPhase.Held? && i == txPhase.t % SLOTS
      modifies `tx, `rx, `fault, `windows, `txPhase
      ensures Rings() && Progressed()
      ensures txPhase == Tx.Cleaning(old(txPhase).t, old(txPhase).wire, frame[..length], 0)
    {
      hide Rx.Inv, Tx.Inv;
      ghost var t, wire, f := txPhase.t, txPhase.wire, frame[..length];
      Tx.StartCopyingStep(tx, t, wire, f, fault);
      txPhase := Tx.Copying(t, wire, f, 0);
      var j := 0;
      while j < length
        invariant 0 <= j <= length
        invariant Rings() && Progressed() && txPhase == Tx.Copying(t, wire, f, j)
      {
        Interfere();
        var allocate: bool := *;
        var k := j / LINE_SIZE;
        Tx.CopyStep(tx, t, wire, f, j, allocate, fault);
        var block: Block := tx.buf[i][k].View()[j % LINE_SIZE := frame[j]];
        tx := Tx.WithBufferLine(tx, i, k, tx.buf[i][k].Store(block, allocate));
        txPhase := Tx.Copying(t, wire, f, j + 1);
        j := j + 1;
      }
      Tx.StartCleaningStep(tx, t, wire, f, fault);
      txPhase := Tx.Cleaning(t, wire, f, 0);
    }

    method StoreTxWord(i: nat, word: nat, value: Word)
      requires Rings() && i < SLOTS && word < 4
      requires (txPhase.Describing? && i == txPhase.t % SLOTS && txPhase.words == word
                && value == Tx.FrameWord(tx, i, |txPhase.f|, word))
               || (txPhase == Tx.Clearing(i, word) && value == 0)
      modifies `tx, `rx, `fault, `windows, `txPhase
      ensures Rings() && Progressed()
      ensures txPhase == if old(txPhase).Describing?
                          then Tx.Describing(old(txPhase).t, old(txPhase).wire, old(txPhase).f, word + 1)
                          else Tx.Clearing(i, word + 1)
    {
      hide Rx.Inv, Tx.Inv;
      Interfere();
      var allocate: bool := *;
      if txPhase.Describing? {
        Tx.DescribeStep(tx, txPhase.t, txPhase.wire, txPhase.f, word, allocate, fault);
        txPhase := Tx.Describing(txPhase.t, txPhase.wire, txPhase.f, word + 1);
      } else {
        Tx.ClearWordStep(tx, i, word, allocate, fault);
        txPhase := Tx.Clearing(i, word + 1);
      }
      tx := Tx.WithDescriptor(tx, i, tx.desc[i].Store(SetWord(tx.desc[i].View(), word, value), allocate));
    }

    /** Reads desc3 and writes it back with the ownership bit set. */
    method SetTxOwn(i: nat)
      requires Rings() && txPhase.Describing? && txPhase.words == 4 && i == txPhase.t % SLOTS
      modifies `tx, `rx, `fault, `windows, `txPhase
      ensures Rings() && Progressed()
      ensures txPhase == Tx.Publishing(old(txPhase).t, old(txPhase).wire, old(txPhase).f)
    {
      Interfere();
      var allocate: bool := *;
      var d := tx.desc[i].View();
      Tx.OwnStep(tx, txPhase.t, txPhase.wire, txPhase.f, allocate, fault);
      tx := Tx.WithDescriptor(tx, i, tx.desc[i].Store(d.(d3 := d.d3 + OWN), allocate));
      txPhase := Tx.Publishing(txPhase.t, txPhase.wire, txPhase.f);
    }

    method DescribeAndPublish(i: nat, length: nat)
      requires Rings() && txPhase.Describing? && txPhase.words == 0 && i == txPhase.t % SLOTS && length == |txPhase.f|
      modifies `tx, `rx, `fault, `windows, `txPhase
      ensures Rings() && Progressed()
      ensures txPhase == Tx.InFlight(old(txPhase).t, old(txPhase).wire, old(txPhase).f)
    {
      StoreTxWord(i, 0, BufferAddress(tx.bufBase, i));
      StoreTxWord(i, 1, 0);
      StoreTxWord(i, 2, length % BUFFER1_LIMIT);
      StoreTxWord(i, 3, length % LENGTH_LIMIT + FIRST + LAST);
      SetTxOwn(i);
      CleanTxDescriptor(i);
    }

    method ReadTxOwned(i: nat) returns (owned: bool)
      requires Rings() && (txPhase.Held? || txPhase.InFlight?) && i == txPhase.t % SLOTS
      modifies `tx, `rx, `fault, `windows, `unready
      ensures Rings() && Progressed() && unready == if owned then old(unready) + 1 else 0
      ensures txPhase.Held? ==> !owned
      ensures txPhase.InFlight? && !owned ==>
                Tx.Landed(tx, txPhase.t, txPhase.wire, txPhase.f, fault) && Tx.Inv(tx, Tx.Idle(txPhase.t + 1, tx.wire), fault)
      ensures windows == old(windows) + 1
    {
      Interfere();
      if txPhase.Held? { Tx.HeldIsFree(tx, txPhase.t, txPhase.wire, fault); }
      owned := Owned(tx.desc[i].View());
      unready := if owned then unready + 1 else 0;
      if txPhase.InFlight? && !owned { Tx.CompleteStep(tx, txPhase.t, txPhase.wire, txPhase.f, fault); }
    }

    /** One poll of the wait: DMACSR before the descriptor, which a fault can clear too. */
    method PollSent(current: nat) returns (raised: bool, owned: bool)
      requires Rings() && txPhase.InFlight? && current == txPhase.t % SLOTS
      modifies `tx, `rx, `fault, `windows, `looked, `shown, `txPhase, `unready
      ensures Rings() && Progressed() && shown == raised && (raised ==> fault) && txPhase == old(txPhase)
      ensures !raised ==> unready == if owned then old(unready) + 1 else 0
      ensures !raised && !owned ==>
                && windows == looked + 1 && Tx.Landed(tx, txPhase.t, txPhase.wire, txPhase.f, fault)
                && Tx.Inv(tx, Tx.Idle(txPhase.t + 1, tx.wire), fault)
    {
      hide Rx.Inv, Tx.Inv, Rx.Shape, Tx.Shape;
      owned := true;
      InvalidateTxDescriptor(current);
      raised := ReadFault();
      if !raised {
        owned := ReadTxOwned(current);
      }
    }

    /**
     Waits for the DMA to give the frame's descriptor back. `clear` is what the last DMACSR read showed:
     a fault raised before it ends the wait with IoError, so Ok means no fault had been raised by then.
     */
    method WaitSent(current: nat) returns (r: Status, ghost clear: bool)
      requires Rings() && initialized && txPhase.InFlight? && current == txPhase.t % SLOTS
      modifies `tx, `rx, `fault, `windows, `looked, `shown, `txPhase, `rxPhase, `initialized, `mac, `unready
      ensures Rings() && Progressed() && r in {Ok, IoError, Timeout} && (r == Timeout ==> unready == WAIT_LIMIT)
      ensures r == Ok ==>
                && clear && !shown && windows == looked + 1 && initialized && mac == old(mac) && rxPhase == old(rxPhase)
                && txPhase == Tx.Idle(old(txPhase).t + 1, tx.wire)
                && (tx.wire == old(txPhase).wire + [old(txPhase).f] || (fault && tx.wire == old(txPhase).wire))
      ensures r == IoError <==> !clear
      ensures r != Ok ==> !initialized && !mac.te && !mac.re && !mac.st && !mac.sr
      ensures !clear ==> fault
    {
      hide Rx.Inv, Tx.Inv, Rx.Shape, Tx.Shape;
      ghost var before := txPhase;
      clear, unready := true, 0;
      var poll := 0;
      while poll < WAIT_LIMIT
        invariant Rings() && Progressed() && clear && initialized && 0 <= poll <= WAIT_LIMIT && unready == poll
        invariant txPhase == before && rxPhase == old(rxPhase) && mac == old(mac)
      {
        var raised, owned := PollSent(current);
        clear := !raised;
        if raised {
          r := EnterFaultState(IoError);
          return;
        }
        if !owned {
          txPhase := Tx.Idle(before.t + 1, tx.wire);
          return Ok, clear;
        }
        poll := poll + 1;
      }
      r := EnterFaultState(Timeout);
    }

    /** Copies, cleans, describes and publishes the frame; the ring is never full here. */
    method PublishFrame(frame: array<Byte>, length: nat, index: nat)
      requires Rings() && MIN_FRAME <= length <= MAX_FRAME && length <= frame.Length
      requires txPhase.Idle? && index == txPhase.t % SLOTS
      modifies `tx, `rx, `fault, `windows, `txPhase, `unready
      ensures Rings() && Progressed()
      ensures txPhase == Tx.InFlight(old(txPhase).t, old(txPhase).wire, frame[..length])
    {
      hide Rx.Inv, Tx.Inv, Rx.Shape, Tx.Shape;
      InvalidateTxDescriptor(index);
      var owned := ReadTxOwned(index);
      if owned {
        assert false;   // the driver's "ring full" exit
      }
      CopyIn(frame, index, length);
      CleanTxBuffer(index, length);
      DescribeAndPublish(index, length);
    }

    /** The part of a send after the fault check. */
    method SendFrame(frame: array<Byte>, length: nat) returns (r: Status, ghost clear: bool)
      requires Valid() && initialized && MIN_FRAME <= length <= MAX_FRAME && length <= frame.Length
      requires tx.wire == sent
      modifies `tx, `rx, `fault, `windows, `looked, `shown, `txPhase, `rxPhase, `initialized, `mac, `txIndex, `sent, `unready
      ensures Valid() && r in {Ok, IoError, Timeout} && (r == IoError <==> !clear) && (r == Timeout ==> unready == WAIT_LIMIT)
      ensures r == Ok ==>
                && clear && !shown && windows == looked + 1 && initialized && sent == old(sent) + [frame[..length]]
                && (tx.wire == old(sent) + [frame[..length]] || (fault && tx.wire == old(sent)))
      ensures r != Ok ==> !initialized && !mac.te && !mac.re && !mac.st && !mac.sr && sent == old(sent)
      ensures !clear ==> fault
      ensures old(rx.arrived) <= rx.arrived && old(tx.wire) <= tx.wire
    {
      hide Rx.Inv, Tx.Inv, Rx.Shape, Tx.Shape;
      var index := txIndex;
      PublishFrame(frame, length, index);
      txIndex := (index + 1) % SLOTS;
      r, clear := WaitSent(index);
      if r == Ok {
        sent := sent + [frame[..length]];
        assert sent[..|sent| - 1] == old(sent);
      }
    }

    /** The part of a send after the link check. */
    method SendOnLink(frame: array<Byte>, length: nat) returns (r: Status, ghost clear: bool)
      requires Valid() && initialized && MIN_FRAME <= length <= MAX_FRAME && length <= frame.Length
      modifies `tx, `rx, `fault, `windows, `looked, `shown, `txPhase, `rxPhase, `initialized, `mac, `txIndex, `sent, `unready
      ensures Valid() && r in {Ok, IoError, Timeout} && (r == IoError <==> !clear) && (old(fault) ==> r != Ok)
      ensures r == Timeout ==> unready == WAIT_LIMIT
      ensures r == Ok ==>
                && clear && !shown && windows == looked + 1 && initialized && sent == old(sent) + [frame[..length]]
                && (tx.wire == old(sent) + [frame[..length]] || (fault && tx.wire == old(sent)))
      ensures r != Ok ==> !initialized && !mac.te && !mac.re && !mac.st && !mac.sr && sent == old(sent)
      ensures !clear ==> fault
      ensures old(rx.arrived) <= rx.arrived && old(tx.wire) <= tx.wire
    {
      hide Rx.Inv, Tx.Inv, Rx.Shape, Tx.Shape;
      var raised := ReadFault();
      clear := !raised;
      if raised {
        r := EnterFaultState(IoError);
        return;
      }
      r, clear := SendFrame(frame, length);
    }

    /**
     Sends one frame and waits until the DMA is done with it. An Ok puts exactly the caller's frame on the
     wire, after all earlier ones, unless a bus fault was raised after the call's last look at DMACSR, which is
     its last access but one: the environment has had one turn since.
     */
    method Send(handle: Word, frame: array?<Byte>, length: nat)
      returns (r: Status, ghost clear: bool, ghost log: seq<Mdio>)
      requires Valid() && (frame != null ==> length <= frame.Length)
      modifies this
      ensures Valid() && outcomes == old(outcomes) && rxIndex == old(rxIndex)
      ensures handle != ETH1_HANDLE || frame == null || length < MIN_FRAME || length > MAX_FRAME ==>
                r == InvalidArgument && unchanged(this)
      ensures handle == ETH1_HANDLE && frame != null && MIN_FRAME <= length <= MAX_FRAME && old(!initialized) ==>
                r == NotReady && unchanged(this)
      ensures r == Ok ==>
                && clear && !shown && windows == looked + 1 && frame != null && length <= frame.Length && initialized
                && sent == old(sent) + [frame[..length]]
                && (tx.wire == old(sent) + [frame[..length]] || (fault && tx.wire == old(sent)))
      ensures r != Ok ==> sent == old(sent)
      ensures old(fault) ==> r != Ok
      ensures mdio == old(mdio) + log && (r == Timeout ==> unready == WAIT_LIMIT)
      ensures handle == ETH1_HANDLE && frame != null && MIN_FRAME <= length <= MAX_FRAME && old(initialized) ==>
                && LinkReads(old(phy), log)
                && var (asked, link) := LinkAnswer(log);
                   if asked != Ok then r == asked && initialized
                   else if !link.up then r == NotReady && initialized
                   else (r == Ok && initialized) || (r == IoError && !clear) || (r == Timeout && !initialized)
      ensures r != Ok && initialized ==> tx == old(tx) && txIndex == old(txIndex)
      ensures !clear ==> fault && r == IoError && !initialized
      ensures r == Ok ==> old(initialized)
      ensures old(initialized) && !initialized ==>
                r in {IoError, Timeout} && !mac.te && !mac.re && !mac.st && !mac.sr
      ensures old(rx.arrived) <= rx.arrived && old(tx.wire) <= tx.wire
    {
      hide Rx.Inv, Tx.Inv, Rx.Shape, Tx.Shape;
      clear, log := true, [];
      if handle != ETH1_HANDLE || frame == null || length < MIN_FRAME || length > MAX_FRAME {
        return InvalidArgument, clear, log;
      }
      if !initialized {
        return NotReady, clear, log;
      }
      var link;
      r, link, log := ReadLinkState();
      if r != Ok {
        return;
      }
      if !link.up {
        return NotReady, clear, log;
      }
      r, clear := SendOnLink(frame, length);
    }

    // ---------- Runs of calls ----------

    ghost function Books(): (a: Account)
      reads this
    {
      Account(rx.arrived, outcomes, tx.wire, sent)
    }

    method MakeCall(call: Call)
      requires Valid() && initialized
      modifies this
      ensures Valid() && CallKeeps(old(Books()), Books())
      ensures initialized && IsPoll(call) ==> PollKeeps(old(Books()), Books())
    {
      hide Rx.Inv, Tx.Inv, Rx.Shape, Tx.Shape;
      match call {
        case Poll(capacity) =>
          var buffer := new Byte[capacity](_ => 0);
          var r, received, o := Receive(ETH1_HANDLE, buffer, capacity);
        case Transmit(frame) =>
          var copy := new Byte[|frame|](i requires 0 <= i < |frame| => frame[i]);
          var r, clear, log := Send(ETH1_HANDLE, copy, |frame|);
        case QueryLink =>
          var r, link, log := LinkState(ETH1_HANDLE);
      }
    }

    /**
     Makes the calls of a script one after the other, while the driver stays initialized, and logs the books
     after each: the calls keep them in the sense of `CallKeeps`, so the theorems about logs hold of every run.
     */
    method Session(script: seq<Call>) returns (ghost log: seq<Account>, ghost done: nat)
      requires Valid()
      modifies this
      ensures Valid() && done <= |script| && |log| == done + 1 && log[0] == old(Books()) && log[done] == Books()
      ensures forall k :: 0 <= k < done ==> CallKeeps(log[k], log[k + 1])
      ensures initialized ==> done == |script|
      ensures initialized ==> forall k :: 0 <= k < done && IsPoll(script[k]) ==> PollKeeps(log[k], log[k + 1])
      ensures old(initialized) ==> Logged(log)
      ensures initialized && old(initialized) ==>
                |outcomes| >= old(|rx.arrived|) || |outcomes| >= old(|outcomes|) + Polls(script)
    {
      hide Rx.Inv, Tx.Inv, Rx.Shape, Tx.Shape;
      log, done := [Books()], 0;
      var next := 0;
      while next < |script| && initialized
        invariant 0 <= next == done <= |script| && Valid()
        invariant |log| == done + 1 && log[0] == old(Books()) && log[done] == Books()
        invariant forall k :: 0 <= k < done ==> CallKeeps(log[k], log[k + 1])
        invariant initialized ==> forall k :: 0 <= k < done && IsPoll(script[k]) ==> PollKeeps(log[k], log[k + 1])
      {
        MakeCall(script[next]);
        log, done, next := log + [Books()], done + 1, next + 1;
      }
      if initialized && old(initialized) { EveryArrivalIsAnswered(log, script); }
    }

    // ---------- Initialization ----------

    /** The RCC reset stops both engines and clears their state; memory and cache are untouched. */
    method ResetMacDma()
      requires Rings()
      modifies `tx, `rx, `fault, `windows, `mac, `txPhase, `rxPhase, `sent, `outcomes
      ensures Rings() && txPhase == Tx.Clearing(0, 0) && rxPhase == Rx.Arming(0, 0)
      ensures !fault && mac == Mac(false, false, false, false, false, false)
      ensures sent == [] && outcomes == []
    {
      tx := tx.(active := false, wire := []);
      rx := rx.(active := false, arrived := []);
      fault := false;
      mac := Mac(false, false, false, false, false, false);
      txPhase, rxPhase := Tx.Clearing(0, 0), Rx.Arming(0, 0);
      sent, outcomes := [], [];
    }

    method ClearTxDescriptors()
      requires Rings() && txPhase == Tx.Clearing(0, 0)
      modifies `tx, `rx, `fault, `windows, `txPhase
      ensures Rings() && Progressed() && txPhase == Tx.Clearing(SLOTS, 0)
    {
      hide Rx.Inv, Tx.Inv;
      var i := 0;
      while i < SLOTS
        invariant 0 <= i <= SLOTS && Rings() && Progressed() && txPhase == Tx.Clearing(i, 0)
      {
        StoreTxWord(i, 0, 0);
        StoreTxWord(i, 1, 0);
        StoreTxWord(i, 2, 0);
        StoreTxWord(i, 3, 0);
        CleanTxDescriptor(i);
        i := i + 1;
      }
    }

    method ArmRxDescriptors()
      requires Rings() && rxPhase == Rx.Arming(0, 0)
      modifies `tx, `rx, `fault, `windows, `rxPhase
      ensures Rings() && Progressed() && rxPhase == Rx.Arming(SLOTS, 0)
    {
      hide Rx.Inv, Tx.Inv;
      var i := 0;
      while i < SLOTS
        invariant 0 <= i <= SLOTS && Rings() && Progressed() && rxPhase == Rx.Arming(i, 0)
      {
        InvalidateRxBuffer(i, BUFFER_SIZE);
        StoreRxWord(i, 0, BufferAddress(rx.bufBase, i));
        StoreRxWord(i, 1, 0);
        StoreRxWord(i, 2, 0);
        StoreRxWord(i, 3, OWN + BUFFER1_VALID);
        CleanRxDescriptor(i);
        i := i + 1;
      }
    }

    method InitializeDescriptors()
      requires Rings() && txPhase == Tx.Clearing(0, 0) && rxPhase == Rx.Arming(0, 0)
      modifies `tx, `rx, `fault, `windows, `txPhase, `rxPhase, `txIndex, `rxIndex
      ensures Rings() && txPhase == Tx.Clearing(SLOTS, 0) && rxPhase == Rx.Arming(SLOTS, 0)
      ensures tx.pos == 0 && rx.pos == 0 && txIndex == 0 && rxIndex == 0
    {
      hide Rx.Inv, Tx.Inv;
      txIndex, rxIndex := 0, 0;
      ClearTxDescriptors();
      ArmRxDescriptors();
      Interfere();
      // The list address registers make descriptor 0 of each ring the DMA's next.
      Tx.ListStep(tx, fault);
      Rx.ListStep(rx);
      tx := tx.(pos := 0);
      rx := rx.(pos := 0);
    }

    /** TE and RE, then ST, then SR: reception may begin before the call has returned. */
    method StartMacDma()
      requires Rings() && txPhase == Tx.Clearing(SLOTS, 0) && rxPhase == Rx.Arming(SLOTS, 0)
      requires tx.pos == 0 && rx.pos == 0
      modifies `tx, `rx, `fault, `windows, `mac, `txPhase, `rxPhase
      ensures Rings() && txPhase == Tx.Idle(0, []) && rxPhase == Rx.Idle(0)
      ensures mac.te && mac.re && mac.st && mac.sr
    {
      hide Rx.Inv, Tx.Inv;
      mac := mac.(te := true, re := true);
      Interfere();
      mac := mac.(st := true);
      Tx.StartStep(tx, fault);
      tx := tx.(active := true);
      txPhase := Tx.Idle(0, []);
      Interfere();
      mac := mac.(sr := true);
      Rx.StartStep(rx);
      rx := rx.(active := true);
      rxPhase := Rx.Idle(0);
      Interfere();
    }

    /** The identity of a PHY at one address: nothing there, somebody else there, or a PHY. */
    method ProbePhy(address: nat) returns (found: bool, ghost log: seq<Mdio>)
      requires address < PHY_ADDRESSES
      modifies `mdio, `unready
      ensures mdio == old(mdio) + log
      ensures if found then |log| == 3 && Answered(log, address, 0) else Rejects(log, address, 0)
    {
      var r, smr := MdioRead(address, SMR);
      log := [Read(address, 18, r, smr)];
      if r != Ok || smr % 32 != address { return false, log; }
      var id1, id2;
      r, id1 := MdioRead(address, PHYI1R);
      log := log + [Read(address, 2, r, id1)];
      if r != Ok { return false, log; }
      r, id2 := MdioRead(address, PHYI2R);
      log := log + [Read(address, 3, r, id2)];
      if r != Ok { return false, log; }
      found := !((id1 == 0 && id2 == 0) || (id1 == 0xffff && id2 == 0xffff));
    }

    /** The first address at which a PHY answers, or none does at any. */
    method DiscoverPhy() returns (r: Status, ghost log: seq<Mdio>)
      modifies `phy, `mdio, `unready
      ensures mdio == old(mdio) + log && r in {Ok, NotReady}
      ensures r == Ok ==> phy < PHY_ADDRESSES && |log| >= 3 && NoPhyBelow(log, phy) && Answered(log, phy, |log| - 3)
      ensures r == NotReady ==> NoPhyBelow(log, 32)
    {
      phy, log := NO_PHY, [];
      var address := 0;
      while address < PHY_ADDRESSES
        invariant 0 <= address <= PHY_ADDRESSES && mdio == old(mdio) + log && NoPhyBelow(log, address)
      {
        ghost var before, probe := log, [];
        var found;
        found, probe := ProbePhy(address);
        log := before + probe;
        RejectionsStay(before, probe, address);
        if found {
          phy := address;
          assert Answered(log, phy, |log| - 3);
          return Ok, log;
        }
        assert Rejects(log, address, |before|) && NoPhyAt(log, address);
        address := address + 1;
      }
      return NotReady, log;
    }

    method ConfigurePhy() returns (r: Status, ghost log: seq<Mdio>)
      requires phy < PHY_ADDRESSES
      modifies `mdio, `unready
      ensures mdio == old(mdio) + log && r in {Ok, Timeout} && (r == Timeout ==> unready == WAIT_LIMIT)
      ensures r == Ok ==>
                && |log| == 2 && Asked(log[0], phy, 0) && log[0].r == Ok
                && log[1] == Wrote(phy, 0, Ok, log[1].value) && Restarts(log[0].value, log[1].value)
    {
      var control;
      r, control := MdioRead(phy, BCR);
      log := [Read(phy, 0, r, control)];
      if r != Ok { return; }
      control := control / 0x2000 * 0x2000 + 0x1200 + control % 0x200;
      r := MdioWrite(phy, BCR, control);
      log := log + [Wrote(phy, 0, r, control)];
    }

    method SetUpPhy() returns (r: Status, ghost log: seq<Mdio>)
      modifies `phy, `mdio, `unready
      ensures mdio == old(mdio) + log && r in {Ok, NotReady, Timeout}
      ensures r == Ok ==> SetUp(log, phy) && phy < PHY_ADDRESSES
      ensures r == NotReady ==> NoPhyBelow(log, 32)
      ensures r == Timeout ==> unready == WAIT_LIMIT
    {
      r, log := DiscoverPhy();
      if r != Ok { return; }
      ghost var search, rest := log, [];
      r, rest := ConfigurePhy();
      log := search + rest;
      RejectionsStay(search, rest, phy);
      if r == Ok { assert Answered(log, phy, |log| - 5); }
    }

    /** DMAMR.SWR, polled until it has cleared itself: what the bus raised meanwhile goes with it. */
    method SoftwareReset() returns (r: Status)
      requires Rings() && txPhase == Tx.Clearing(0, 0) && rxPhase == Rx.Arming(0, 0)
      modifies `tx, `rx, `fault, `windows, `mac, `unready
      ensures Rings() && r in {Ok, Timeout} && (r == Timeout ==> unready == WAIT_LIMIT)
      ensures r == Ok ==> !fault && mac == Mac(false, false, false, false, false, false)
    {
      unready := 0;
      var poll := 0;
      while poll < WAIT_LIMIT
        invariant Rings() && txPhase == Tx.Clearing(0, 0) && rxPhase == Rx.Arming(0, 0)
        invariant 0 <= poll <= WAIT_LIMIT && unready == poll
      {
        var resetting := StillResetting();
        if !resetting { return Ok; }
        poll := poll + 1;
      }
      return Timeout;
    }

    /** One look at SWR. */
    method StillResetting() returns (resetting: bool)
      requires Rings() && txPhase == Tx.Clearing(0, 0) && rxPhase == Rx.Arming(0, 0)
      modifies `tx, `rx, `fault, `windows, `mac, `unready
      ensures Rings() && unready == if resetting then old(unready) + 1 else 0
      ensures !resetting ==> !fault && mac == Mac(false, false, false, false, false, false)
    {
      Interfere();
      resetting := *;
      unready := if resetting then unready + 1 else 0;
      if !resetting {
        fault := false;
        mac := Mac(false, false, false, false, false, false);
      }
    }

    /** Reset, the common MAC mode, and both descriptor arrays. */
    method ResetAndPrepare() returns (r: Status)
      requires Rings()
      modifies `tx, `rx, `fault, `windows, `mac, `txPhase, `rxPhase, `sent, `outcomes, `txIndex, `rxIndex, `unready
      ensures Rings() && r in {Ok, Timeout} && sent == [] && outcomes == [] && (r == Timeout ==> unready == WAIT_LIMIT)
      ensures r == Ok ==>
                && txPhase == Tx.Clearing(SLOTS, 0) && rxPhase == Rx.Arming(SLOTS, 0)
                && tx.pos == 0 && rx.pos == 0 && txIndex == 0 && rxIndex == 0
    {
      hide Rx.Inv, Tx.Inv, Rx.Shape, Tx.Shape;
      ResetMacDma();
      r := SoftwareReset();
      if r != Ok { return; }
      mac := mac.(te := false, re := false, fes := true, dm := true);
      InitializeDescriptors();
      return Ok;
    }

    /** The last step of an initialization. */
    method GoLive()
      requires Rings() && txPhase == Tx.Clearing(SLOTS, 0) && rxPhase == Rx.Arming(SLOTS, 0) && phy < PHY_ADDRESSES
      requires tx.pos == 0 && rx.pos == 0 && txIndex == 0 && rxIndex == 0 && sent == [] && outcomes == []
      modifies `tx, `rx, `fault, `windows, `mac, `txPhase, `rxPhase, `initialized
      ensures Valid() && initialized
    {
      hide Rx.Inv, Tx.Inv, Rx.Shape, Tx.Shape;
      StartMacDma();
      initialized := true;
    }

    /** Rebuilds everything from any state. */
    method Rebuild() returns (r: Status, ghost log: seq<Mdio>)
      requires Rings() && !initialized
      modifies this
      ensures Valid() && (initialized <==> r == Ok) && mdio == old(mdio) + log
      ensures r in {Ok, NotReady, Timeout} && (r == Timeout ==> unready == WAIT_LIMIT)
      ensures (r == Ok ==> SetUp(log, phy)) && (r == NotReady ==> NoPhyBelow(log, 32))
      ensures r == Ok ==> sent == [] && outcomes == [] && txIndex == 0 && rxIndex == 0
    {
      hide Rx.Inv, Tx.Inv, Rx.Shape, Tx.Shape, SetUp, NoPhyBelow;
      phy, log := NO_PHY, [];
      r := ResetAndPrepare();
      if r != Ok { return; }
      r, log := SetUpPhy();
      if r != Ok { return; }
      GoLive();
    }

    /** Afterwards the driver is initialized exactly when it says Ok. */
    method Init(handle: Word, address: seq<Byte>) returns (r: Status, ghost log: seq<Mdio>)
      requires Valid() && |address| == 6
      modifies this
      ensures Valid()
      ensures handle != ETH1_HANDLE || !MacValid(address) ==> r == InvalidArgument && unchanged(this)
      ensures handle == ETH1_HANDLE ==> (r == InvalidArgument <==> address[0] % 2 == 1 || address == [0, 0, 0, 0, 0, 0])
      ensures handle == ETH1_HANDLE && MacValid(address) ==>
                && (initialized <==> r == Ok) && r in {Ok, NotReady, Timeout}
                && mdio == old(mdio) + log && (r == Timeout ==> unready == WAIT_LIMIT)
                && (r == Ok ==> SetUp(log, phy)) && (r == NotReady ==> NoPhyBelow(log, 32))
      ensures r == Ok ==> sent == [] && outcomes == [] && txIndex == 0 && rxIndex == 0
    {
      hide Rx.Inv, Tx.Inv, Rx.Shape, Tx.Shape;
      if handle != ETH1_HANDLE || !MacValid(address) {
        return InvalidArgument, [];
      }
      initialized := false;
      r, log := Rebuild();
    }
  }
}
