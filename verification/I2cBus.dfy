/**
 The I2C controller between two driver accesses: how one commanded phase appears on the bus, and which flags it
 raises. A trace is the sequence of bus symbols this controller has sent or sampled; every address and byte not
 followed by `Nack` was acknowledged.
 */
module I2cBus {
  import opened Results

  datatype Symbol = Start | Addr(address: nat, read: bool) | Out(b: Byte) | In(b: Byte) | Nack | Stop

  /** The fields of one CR2 write with START. */
  datatype Command = Command(address: nat, size: nat, read: bool, autoend: bool)

  datatype Slot = Empty | Full(b: Byte)

  function Bytes(s: Slot): seq<Byte> { if s.Full? then [s.b] else [] }

  /**
   `Pending` waits to send START, `owned` when it already holds the bus; `Held` has moved all its bytes and
   stretches the clock.
   */
  datatype Stage = Idle | Pending(owned: bool) | Active | Held

  /**
   `moved` are the bytes of the phase so far, `started` says whether START and the address have been sent, and
   `tail` is what ended the phase early or at its autoend; `troubles` counts NACKs and bus errors.
   */
  datatype Bus = Bus(stage: Stage, cmd: Command, started: bool, moved: seq<Byte>, tail: seq<Symbol>, stopAsked: bool,
                     tx: Slot, shift: Slot, rx: Slot, txis: bool, nackf: bool, stopf: bool, error: bool,
                     troubles: nat, trace: seq<Symbol>)

  predicate Owns(b: Bus) { b.stage.Active? || b.stage.Held? || (b.stage.Pending? && b.stage.owned) }

  datatype Event = Address(ack: bool) | AskByte | LoadShift | ShiftDone(ack: bool) | ShiftIn(value: Byte)
                 | Fault(lost: bool) | StopNow

  function Leave(b: Bus, symbols: seq<Symbol>, nack: bool): (c: Bus)
    ensures c.started == b.started && c.stage.Idle? && !c.stopAsked
    ensures c.txis == b.txis && c.tx == b.tx && c.rx == b.rx && c.error == b.error && c.cmd == b.cmd
    ensures c.nackf == (b.nackf || nack) && c.troubles == b.troubles + (if nack then 1 else 0)
  {
    b.(stage := Idle, shift := Empty, stopAsked := false, stopf := true, nackf := b.nackf || nack,
       troubles := b.troubles + (if nack then 1 else 0), tail := symbols,
       trace := b.trace + symbols)
  }

  /** After an acknowledged byte or address: on to the next byte, or to the end of the phase. */
  function Proceed(b: Bus): (c: Bus)
    ensures !c.stage.Pending? && (c.stopAsked ==> Owns(c)) && c.txis == b.txis && c.tx == b.tx && c.rx == b.rx
            && c.troubles == b.troubles && c.started == b.started
    ensures c.nackf == b.nackf && c.error == b.error && c.cmd == b.cmd
  {
    if |b.moved| < b.cmd.size then b.(stage := Active)
    else if b.cmd.autoend then Leave(b, [Stop], false)
    else b.(stage := Held)
  }

  function Addressed(b: Bus): (c: Bus)
    ensures c.txis == b.txis && c.tx == b.tx && c.rx == b.rx && c.troubles == b.troubles
    ensures c.started && c.stopAsked == b.stopAsked && c.stage == b.stage
    ensures c.nackf == b.nackf && c.error == b.error && c.cmd == b.cmd
  {
    b.(started := true, trace := b.trace + [Start, Addr(b.cmd.address, b.cmd.read)])
  }

  function ShiftedOut(b: Bus): (c: Bus)
    requires b.shift.Full?
    ensures c.txis == b.txis && c.tx == b.tx && c.rx == b.rx && c.troubles == b.troubles
    ensures c.started == b.started && c.stopAsked == b.stopAsked && c.stage == b.stage
    ensures c.nackf == b.nackf && c.error == b.error && c.cmd == b.cmd
  {
    b.(moved := b.moved + [b.shift.b], shift := Empty, trace := b.trace + [Out(b.shift.b)])
  }

  function ShiftedIn(b: Bus, value: Byte): (c: Bus)
    ensures c.txis == b.txis && c.tx == b.tx && c.rx == Full(value) && c.troubles == b.troubles
    ensures c.started == b.started && c.stopAsked == b.stopAsked && c.stage == b.stage
    ensures c.nackf == b.nackf && c.error == b.error && c.cmd == b.cmd
  {
    b.(moved := b.moved + [value], rx := Full(value), trace := b.trace + [In(value)])
  }

  function Happen(b: Bus, e: Event): Bus {
    match e
    case Address(ack) =>
      if !b.stage.Pending? then b
      else
        var s := Addressed(b);
        if ack then Proceed(s) else Leave(s, [Nack, Stop], true)
    case AskByte =>
      if b.stage.Active? && !b.cmd.read && b.tx.Empty? && |b.moved| + |Bytes(b.shift)| < b.cmd.size then b.(txis := true) else b
    case LoadShift =>
      if b.stage.Active? && !b.cmd.read && b.tx.Full? && b.shift.Empty? then b.(shift := b.tx, tx := Empty) else b
    case ShiftDone(ack) =>
      if b.stage.Active? && !b.cmd.read && b.shift.Full? then
        var s := ShiftedOut(b);
        if ack then Proceed(s) else Leave(s, [Nack, Stop], true)
      else b
    case ShiftIn(value) =>
      if b.stage.Active? && b.cmd.read && b.rx.Empty? then
        Proceed(ShiftedIn(b, value))
      else b
    case Fault(lost) =>
      if lost then b.(stage := Idle, shift := Empty, stopAsked := false, error := true, troubles := b.troubles + 1)
      else b.(error := true, troubles := b.troubles + 1)
    case StopNow =>
      if b.stopAsked && Owns(b) && b.shift.Empty? then Leave(b, [Stop], false) else b
  }

  /** A CR2 write with START; flags are the driver's to clear. */
  function Commanded(b: Bus, c: Command): Bus {
    b.(stage := Pending(Owns(b)), cmd := c, started := false, moved := [], tail := [], shift := Empty)
  }

  /** A STOP request counts only while the controller holds the bus. */
  function StopRequested(b: Bus): Bus {
    b.(stopAsked := Owns(b))
  }

  function Cleared(b: Bus): Bus {
    b.(nackf := false, stopf := false, error := false)
  }

  // ---------- One phase ----------

  function Data(read: bool, bytes: seq<Byte>): (t: seq<Symbol>)
    ensures |t| == |bytes|
    ensures forall i :: 0 <= i < |bytes| ==> t[i] == if read then In(bytes[i]) else Out(bytes[i])
  {
    seq(|bytes|, i requires 0 <= i < |bytes| => if read then In(bytes[i]) else Out(bytes[i]))
  }

  /** START, address, and these bytes. */
  function Sent(started: bool, c: Command, bytes: seq<Byte>): seq<Symbol> {
    if started then [Start, Addr(c.address, c.read)] + Data(c.read, bytes) else []
  }

  /**
   The account of one phase: the bus as the command found it, the troubles counted when its flags were cleared,
   the bytes written and read since, and whether the driver has given up.
   */
  datatype Ledger = Ledger(found: Bus, since: nat, cmd: Command, fed: seq<Byte>, got: seq<Byte>, over: bool)

  const TAILS := {[], [Stop], [Nack, Stop]}

  /** All that the phase was asked has happened. */
  predicate Finished(b: Bus) {
    b.started && |b.moved| == b.cmd.size && (if b.cmd.autoend then b.stage.Idle? && b.tail == [Stop] else b.stage.Held?)
  }

  /** A NACK or an error that shows was raised since. */
  predicate Accounted(b: Bus, since: nat) {
    since <= b.troubles && (b.nackf || b.error ==> since < b.troubles)
  }

  ghost predicate Tracks(b: Bus, g: Ledger) {
    && b.cmd == g.cmd && b.trace == g.found.trace + Sent(b.started, b.cmd, b.moved) + b.tail
    && |b.moved| + |Bytes(b.shift)| <= b.cmd.size && (b.cmd.read ==> b.shift.Empty?)
    && b.tail in TAILS && (b.tail != [] ==> b.stage.Idle?)
    && (b.stopAsked ==> g.over && Owns(b)) && (b.txis ==> b.tx.Empty?)
    && Accounted(b, g.since) && (!b.started ==> b.moved == [] && b.shift.Empty?)
    && StageFits(b, g) && (if b.cmd.read then Reads(b, g) else Writes(b, g))
  }

  ghost predicate StageFits(b: Bus, g: Ledger) {
    match b.stage
    case Idle => (Finished(b) || b.nackf || b.error || g.over) && (b.stopf && !b.nackf && !b.error && !g.over ==> Finished(b))
    case Pending(_) => !b.started && !b.stopf && !b.nackf
    case Active => b.started && |b.moved| < b.cmd.size && !b.stopf && !b.nackf
    case Held => b.started && |b.moved| == b.cmd.size && !b.cmd.autoend && !b.stopf && !b.nackf
  }

  /** Bytes leave in the order written, behind one that an earlier phase may have left in TXDR. */
  ghost predicate Writes(b: Bus, g: Ledger) {
    && b.rx == g.found.rx
    && b.moved <= Bytes(g.found.tx) + g.fed
    && (!b.stage.Idle? ==> b.moved + Bytes(b.shift) + Bytes(b.tx) == Bytes(g.found.tx) + g.fed)
    && (b.txis && b.cmd.size > 0 ==> |Bytes(g.found.tx)| + |g.fed| < b.cmd.size)
    && (Finished(b) && b.cmd.size > 0 ==> !b.txis)
    && (g.fed != [] ==> |Bytes(g.found.tx)| + |g.fed| <= b.cmd.size)
  }

  /** Bytes are read in the order they came, behind one that an earlier phase may have left in RXDR. */
  ghost predicate Reads(b: Bus, g: Ledger) {
    && g.got + Bytes(b.rx) == Bytes(g.found.rx) + b.moved
  }

  lemma DataGrows(read: bool, bytes: seq<Byte>, value: Byte)
    ensures Data(read, bytes + [value]) == Data(read, bytes) + [if read then In(value) else Out(value)]
  {
  }

  /** Between two bytes: after the address or a byte has been acknowledged or not, before what follows. */
  ghost predicate Boundary(b: Bus, g: Ledger) {
    && b.cmd == g.cmd && b.trace == g.found.trace + Sent(true, b.cmd, b.moved) && b.tail == []
    && b.started && b.shift.Empty? && |b.moved| <= b.cmd.size && !b.stopf && !b.nackf && (b.stopAsked ==> g.over)
    && (b.txis ==> b.tx.Empty?) && g.since <= b.troubles && (b.error ==> g.since < b.troubles)
    && if b.cmd.read then Reads(b, g)
       else
         && b.rx == g.found.rx && b.moved + Bytes(b.tx) == Bytes(g.found.tx) + g.fed
         && (b.txis && b.cmd.size > 0 ==> |Bytes(g.found.tx)| + |g.fed| < b.cmd.size)
         && (g.fed != [] ==> |Bytes(g.found.tx)| + |g.fed| <= b.cmd.size)
  }

  lemma ProceedKeepsTracks(b: Bus, g: Ledger)
    requires Boundary(b, g)
    ensures Tracks(Proceed(b), g)
  {
    hide Sent;
    assert b.moved + [] == b.moved;
    assert g.found.trace + Sent(true, b.cmd, b.moved) + [] == g.found.trace + Sent(true, b.cmd, b.moved);
  }

  lemma LeaveKeepsTracks(b: Bus, g: Ledger)
    requires Boundary(b, g)
    ensures Tracks(Leave(b, [Nack, Stop], true), g)
  {
    hide Sent;
  }

  lemma AddressKeepsTracks(b: Bus, ack: bool, g: Ledger)
    requires Tracks(b, g) && b.stage.Pending?
    ensures Tracks(Happen(b, Address(ack)), g)
  {
    var s := Addressed(b);
    assert Boundary(s, g) by { assert Sent(true, b.cmd, []) == [Start, Addr(b.cmd.address, b.cmd.read)]; }
    hide Tracks, Boundary;
    ProceedKeepsTracks(s, g);
    LeaveKeepsTracks(s, g);
  }

  lemma ShiftDoneKeepsTracks(b: Bus, ack: bool, g: Ledger)
    requires Tracks(b, g) && b.stage.Active? && !b.cmd.read && b.shift.Full?
    ensures Tracks(Happen(b, ShiftDone(ack)), g)
  {
    var s := ShiftedOut(b);
    assert Boundary(s, g) by {
      hide Data;
      DataGrows(false, b.moved, b.shift.b);
    }
    hide Tracks, Boundary;
    ProceedKeepsTracks(s, g);
    LeaveKeepsTracks(s, g);
  }

  lemma ShiftInKeepsTracks(b: Bus, value: Byte, g: Ledger)
    requires Tracks(b, g) && b.stage.Active? && b.cmd.read && b.rx.Empty?
    ensures Tracks(Happen(b, ShiftIn(value)), g)
  {
    var s := ShiftedIn(b, value);
    assert Boundary(s, g) by {
      hide Data;
      DataGrows(true, b.moved, value);
      assert g.got + [] == g.got;
      assert g.got + [value] == Bytes(g.found.rx) + (b.moved + [value]);
    }
    hide Tracks, Boundary;
    ProceedKeepsTracks(s, g);
  }

  lemma TransmitKeepsTracks(b: Bus, e: Event, g: Ledger)
    requires Tracks(b, g) && (e.AskByte? || e.LoadShift?)
    ensures Tracks(Happen(b, e), g)
  {
    hide Sent;
    if b.stage.Active? && !b.cmd.read { assert b.moved + Bytes(b.shift) + Bytes(b.tx) == Bytes(g.found.tx) + g.fed; }
  }

  lemma FaultKeepsTracks(b: Bus, lost: bool, g: Ledger)
    requires Tracks(b, g)
    ensures Tracks(Happen(b, Fault(lost)), g)
  {
    hide Sent;
  }

  lemma StopKeepsTracks(b: Bus, g: Ledger)
    requires Tracks(b, g)
    ensures Tracks(Happen(b, StopNow), g)
  {
    hide Sent;
    if b.stopAsked && Owns(b) && b.shift.Empty? && !b.cmd.read {
      assert b.moved <= Bytes(g.found.tx) + g.fed;
    }
  }

  /** Nothing the hardware does on its own leaves the commanded phase. */
  lemma HappenKeepsTracks(b: Bus, e: Event, g: Ledger)
    requires Tracks(b, g)
    ensures Tracks(Happen(b, e), g)
  {
    hide Tracks;
    match e
    case Address(ack) => if b.stage.Pending? { AddressKeepsTracks(b, ack, g); }
    case ShiftDone(ack) => if b.stage.Active? && !b.cmd.read && b.shift.Full? { ShiftDoneKeepsTracks(b, ack, g); }
    case ShiftIn(value) => if b.stage.Active? && b.cmd.read && b.rx.Empty? { ShiftInKeepsTracks(b, value, g); }
    case Fault(lost) => FaultKeepsTracks(b, lost, g);
    case StopNow => StopKeepsTracks(b, g);
    case _ => TransmitKeepsTracks(b, e, g);
  }

  /** Only the driver takes a request for data, or a byte that has come in, away. */
  lemma HappenKeepsOffers(b: Bus, e: Event)
    ensures (b.txis ==> Happen(b, e).txis) && (b.rx.Full? ==> Happen(b, e).rx == b.rx)
  {
    hide Proceed, Leave, Addressed, ShiftedOut, ShiftedIn;
  }

  // ---------- The driver's accesses ----------

  /** What holds of the controller whatever was last asked of it. */
  predicate Sound(b: Bus) {
    (b.stopAsked ==> Owns(b)) && (b.txis ==> b.tx.Empty?) && (b.started ==> !b.stage.Pending?)
  }

  lemma HappenKeepsSound(b: Bus, e: Event)
    requires Sound(b)
    ensures Sound(Happen(b, e)) && (!b.stage.Pending? ==> !Happen(b, e).stage.Pending?)
  {
    hide Proceed, Leave, Addressed, ShiftedOut, ShiftedIn;
  }

  lemma HappenKeepsAccount(b: Bus, e: Event, since: nat)
    requires Accounted(b, since)
    ensures Accounted(Happen(b, e), since) && Happen(b, e).cmd == b.cmd
  {
    hide Proceed, Leave, Addressed, ShiftedOut, ShiftedIn;
  }

  lemma TroublesOnlyGrow(b: Bus, e: Event)
    ensures Happen(b, e).troubles >= b.troubles
  {
    hide Proceed, Leave, Addressed, ShiftedOut, ShiftedIn;
  }

  /** Off the bus, or about to leave it with a STOP. */
  predicate Leaving(b: Bus) {
    (!b.stage.Pending? || b.stage.owned) && (Owns(b) ==> b.stopAsked)
  }

  lemma LeavingGoesOn(b: Bus, e: Event)
    ensures Leaving(b) ==> Leaving(Happen(b, e))
    ensures !b.stage.Pending? || b.stage.owned ==> !Happen(b, e).stage.Pending? || Happen(b, e).stage.owned
    ensures b.started ==> Happen(b, e).started
  {
    hide Leave, Addressed, ShiftedOut, ShiftedIn;
  }

  /** At rest the hardware changes nothing but the error flag, and may lose the bus to another master. */
  predicate AtRest(b: Bus) {
    (b.stage.Idle? || b.stage.Held?) && !b.stopAsked && (b.txis ==> b.tx.Empty?)
  }

  lemma RestIsQuiet(b: Bus, e: Event)
    requires AtRest(b)
    ensures var c := Happen(b, e);
      AtRest(c) && c.trace == b.trace && c.tx == b.tx && c.rx == b.rx && c.stopf == b.stopf && c.nackf == b.nackf
      && (b.stage.Idle? ==> c.stage.Idle?) && c.troubles >= b.troubles && (c.error ==> b.error || c.troubles > b.troubles)
  {
  }

  /** A controller at rest that reports no end of an earlier phase. */
  predicate Fresh(b: Bus) { AtRest(b) && !b.stopf && !b.nackf }

  lemma CommandOpensPhase(b: Bus, c: Command, since: nat)
    requires Fresh(b) && Accounted(b, since)
    ensures Tracks(Commanded(b, c), Ledger(b, since, c, [], [], false))
  {
    assert b.trace + [] + [] == b.trace && [] + Bytes(b.rx) == Bytes(b.rx) + [] && Bytes(b.tx) + [] == [] + [] + Bytes(b.tx);
  }

  /** TXDR takes a byte when TXIS asks for one. */
  lemma FeedKeepsTracks(b: Bus, g: Ledger, value: Byte)
    requires Tracks(b, g) && !b.cmd.read && b.cmd.size > 0 && b.txis
    ensures Tracks(b.(tx := Full(value), txis := false), g.(fed := g.fed + [value]))
  {
    hide Sent;
    var all := Bytes(g.found.tx) + g.fed;
    assert all + [value] == Bytes(g.found.tx) + (g.fed + [value]) && b.moved <= all + [value];
    if !b.stage.Idle? {
      assert b.moved + Bytes(b.shift) + [value] == all + [value] by {
        assert b.moved + Bytes(b.shift) + [] == b.moved + Bytes(b.shift);
      }
    }
  }

  lemma DrainKeepsTracks(b: Bus, g: Ledger)
    requires Tracks(b, g) && b.cmd.read && b.rx.Full?
    ensures Tracks(b.(rx := Empty), g.(got := g.got + [b.rx.b]))
  {
    hide Sent;
    assert g.got + [b.rx.b] + [] == g.got + Bytes(b.rx);
  }

  /** Once the driver gives up it may clear flags and ask for a STOP. */
  lemma GivingUpKeepsTracks(b: Bus, g: Ledger)
    requires Tracks(b, g)
    ensures Tracks(b, g.(over := true))
  {
    hide Sent;
  }

  lemma RecoveryKeepsTracks(b: Bus, g: Ledger, nack: bool, stop: bool, error: bool)
    requires Tracks(b, g) && g.over
    ensures Tracks(StopRequested(b), g)
    ensures Tracks(b.(nackf := b.nackf && nack, stopf := b.stopf && stop, error := b.error && error), g)
  {
    hide Sent;
  }

  /** STOPF without an error, or TC, means that the phase has run to its end; acknowledging STOPF changes nothing else. */
  lemma FinishedStays(b: Bus, g: Ledger)
    requires Tracks(b, g) && !g.over && !b.nackf && !b.error && if b.cmd.autoend then b.stopf else b.stage.Held?
    ensures Finished(b) && Tracks(b.(stopf := false), g)
  {
    hide Sent;
  }

  // ---------- A phase with any beginning ----------

  /**
   What holds of every commanded phase; when the controller was at rest at the command, the phase is the only thing
   on the bus since.
   */
  ghost predicate Follows(b: Bus, g: Ledger) {
    Sound(b) && Accounted(b, g.since) && b.cmd == g.cmd && (Fresh(g.found) ==> Tracks(b, g))
  }

  lemma FollowsFacts(b: Bus, g: Ledger)
    requires Follows(b, g)
    ensures Sound(b) && Accounted(b, g.since) && b.cmd == g.cmd && (Fresh(g.found) ==> Tracks(b, g))
  {
  }

  lemma CommandOpensAny(b: Bus, c: Command, since: nat)
    requires Sound(b) && Accounted(b, since)
    ensures Follows(Commanded(b, c), Ledger(b, since, c, [], [], false))
  {
    hide Tracks;
    if Fresh(b) { CommandOpensPhase(b, c, since); }
  }

  lemma HappenKeepsFollows(b: Bus, e: Event, g: Ledger)
    requires Follows(b, g)
    ensures Follows(Happen(b, e), g)
  {
    hide Tracks, Happen;
    HappenKeepsSound(b, e);
    HappenKeepsAccount(b, e, g.since);
    if Fresh(g.found) { HappenKeepsTracks(b, e, g); }
  }

  lemma FeedKeepsFollows(b: Bus, g: Ledger, value: Byte)
    requires Follows(b, g) && !b.cmd.read && b.cmd.size > 0 && b.txis
    ensures Follows(b.(tx := Full(value), txis := false), g.(fed := g.fed + [value]))
  {
    hide Tracks;
    if Fresh(g.found) { FeedKeepsTracks(b, g, value); }
  }

  lemma DrainKeepsFollows(b: Bus, g: Ledger)
    requires Follows(b, g) && b.cmd.read && b.rx.Full?
    ensures Follows(b.(rx := Empty), g.(got := g.got + [b.rx.b]))
  {
    hide Tracks;
    if Fresh(g.found) { DrainKeepsTracks(b, g); }
  }

  lemma GivingUpKeepsFollows(b: Bus, g: Ledger)
    requires Follows(b, g)
    ensures Follows(b, g.(over := true))
  {
    hide Tracks;
    if Fresh(g.found) { GivingUpKeepsTracks(b, g); }
  }

  lemma RecoveryKeepsFollows(b: Bus, g: Ledger, nack: bool, stop: bool, error: bool)
    requires Follows(b, g) && g.over
    ensures Follows(StopRequested(b), g)
    ensures Follows(b.(nackf := b.nackf && nack, stopf := b.stopf && stop, error := b.error && error), g)
  {
    hide Tracks;
    if Fresh(g.found) { RecoveryKeepsTracks(b, g, nack, stop, error); }
  }

  lemma EndKeepsFollows(b: Bus, g: Ledger)
    requires Follows(b, g) && !g.over && !b.nackf && !b.error && if b.cmd.autoend then b.stopf else b.stage.Held?
    ensures (Fresh(g.found) ==> Finished(b)) && Follows(b.(stopf := false), g)
  {
    hide Tracks;
    if Fresh(g.found) { FinishedStays(b, g); }
  }

  // ---------- What a phase has put on the bus ----------

  /** A phase that ran to its end carried exactly what was written, with nothing left over. */
  lemma FinishedWriteIsExact(b: Bus, g: Ledger)
    requires Tracks(b, g) && Finished(b) && !b.cmd.read && |g.fed| == b.cmd.size
    ensures b.moved == g.fed && b.rx == g.found.rx
    ensures b.trace == g.found.trace + Sent(true, b.cmd, g.fed) + (if b.cmd.autoend then [Stop] else [])
    ensures b.cmd.size > 0 ==> g.found.tx.Empty?
  {
    hide Data;
    if b.cmd.size > 0 { assert Bytes(g.found.tx) + g.fed == g.fed; } else { assert b.moved == g.fed == []; }
  }

  /** A finished read carried `moved`; the driver's bytes are those, behind one left from before. */
  lemma FinishedReadIsExact(b: Bus, g: Ledger)
    requires Tracks(b, g) && Finished(b) && b.cmd.read && |g.got| == b.cmd.size
    ensures |b.moved| == b.cmd.size && g.got == (Bytes(g.found.rx) + b.moved)[..b.cmd.size]
    ensures g.found.rx.Empty? ==> g.got == b.moved && b.rx.Empty?
    ensures b.trace == g.found.trace + Sent(true, b.cmd, b.moved) + (if b.cmd.autoend then [Stop] else [])
  {
    hide Data;
    assert g.got == (g.got + Bytes(b.rx))[..b.cmd.size];
    if g.found.rx.Empty? {
      assert [] + b.moved == b.moved;
      assert |g.got + Bytes(b.rx)| == |b.moved|;
      assert g.got + [] == g.got;
    }
  }

  /** The bus since `from` shows the beginning of `whole`, then at most a NACK and a STOP. */
  ghost predicate CutShort(from: seq<Symbol>, b: Bus, whole: seq<Symbol>) {
    && b.tail in TAILS && |from| + |b.tail| <= |b.trace|
    && b.trace == from + b.trace[|from|..|b.trace| - |b.tail|] + b.tail
    && b.trace[|from|..|b.trace| - |b.tail|] <= whole
  }

  /** A phase that did not end well, at whatever later moment one looks, has begun what was asked and no more. */
  lemma PhaseIsCutShort(b: Bus, g: Ledger, bytes: seq<Byte>)
    requires Tracks(b, g) && b.moved <= bytes
    ensures CutShort(g.found.trace, b, Sent(true, b.cmd, bytes))
  {
    var cut := Sent(b.started, b.cmd, b.moved);
    assert b.trace[|g.found.trace|..|b.trace| - |b.tail|] == cut;
    assert Data(b.cmd.read, b.moved) <= Data(b.cmd.read, bytes) by {
      assert forall i :: 0 <= i < |b.moved| ==> b.moved[i] == bytes[i];
    }
    assert cut <= Sent(true, b.cmd, bytes);
  }

  /** What a write of these bytes puts on the bus: a byte left in TXDR goes first. */
  function Queued(tx: Slot, data: seq<Byte>): (bytes: seq<Byte>)
    ensures |bytes| == |data| && (tx.Empty? ==> bytes == data)
  {
    (Bytes(tx) + data)[..|data|]
  }

  lemma WriteIsQueued(b: Bus, g: Ledger, data: seq<Byte>)
    requires Tracks(b, g) && !b.cmd.read && g.fed <= data && |data| == b.cmd.size
    ensures b.moved <= Queued(g.found.tx, data)
  {
    assert b.moved <= Bytes(g.found.tx) + g.fed <= Bytes(g.found.tx) + data;
  }

  lemma LaterPhaseIsCutShort(from: seq<Symbol>, first: seq<Symbol>, b: Bus, second: seq<Symbol>)
    requires CutShort(from + first, b, second)
    ensures CutShort(from, b, first + second)
  {
    var cut := b.trace[|from + first|..|b.trace| - |b.tail|];
    assert b.trace == from + (first + cut) + b.tail;
    assert b.trace[|from|..|b.trace| - |b.tail|] == first + cut;
  }

  // ---------- Whole runs of a phase ----------

  /** One step of a phase: of the hardware, or an access of the driver. */
  datatype Turn = Hardware(e: Event) | Feed(value: Byte) | Drain | GiveUp | AskStop
                | Acknowledge(nack: bool, stop: bool, error: bool)

  datatype Phase = Phase(bus: Bus, ledger: Ledger)

  function Turned(p: Phase, t: Turn): Phase {
    var Phase(b, g) := p;
    match t
    case Hardware(e) => Phase(Happen(b, e), g)
    case Feed(value) =>
      if !b.cmd.read && b.cmd.size > 0 && b.txis
      then Phase(b.(tx := Full(value), txis := false), g.(fed := g.fed + [value])) else p
    case Drain => if b.cmd.read && b.rx.Full? then Phase(b.(rx := Empty), g.(got := g.got + [b.rx.b])) else p
    case GiveUp => Phase(b, g.(over := true))
    case AskStop => if g.over then Phase(StopRequested(b), g) else p
    case Acknowledge(nack, stop, error) =>
      if g.over then Phase(b.(nackf := b.nackf && nack, stopf := b.stopf && stop, error := b.error && error), g) else p
  }

  function Play(p: Phase, ts: seq<Turn>): Phase
    decreases |ts|
  {
    if ts == [] then p else Play(Turned(p, ts[0]), ts[1..])
  }

  function HappenAll(b: Bus, es: seq<Event>): Bus
    decreases |es|
  {
    if es == [] then b else HappenAll(Happen(b, es[0]), es[1..])
  }

  /** ICR, whatever the hardware does then, and CR2 with START. */
  function Opened(b: Bus, es: seq<Event>, c: Command): Phase {
    var found := HappenAll(Cleared(b), es);
    Phase(Commanded(found, c), Ledger(found, b.troubles, c, [], [], false))
  }

  lemma {:induction false} RestStaysQuiet(b: Bus, es: seq<Event>, since: nat)
    requires Fresh(b) && Accounted(b, since)
    ensures var c := HappenAll(b, es);
      Fresh(c) && Accounted(c, since) && c.trace == b.trace && c.tx == b.tx && c.rx == b.rx
    decreases |es|
  {
    if es != [] {
      RestIsQuiet(b, es[0]);
      HappenKeepsAccount(b, es[0], since);
      RestStaysQuiet(Happen(b, es[0]), es[1..], since);
    }
  }

  lemma TurnKeepsTracks(p: Phase, t: Turn)
    requires Tracks(p.bus, p.ledger)
    ensures var q := Turned(p, t); Tracks(q.bus, q.ledger) && q.ledger.found == p.ledger.found && q.ledger.cmd == p.ledger.cmd
  {
    hide Tracks, Happen;
    match t
    case Hardware(e) => HappenKeepsTracks(p.bus, e, p.ledger);
    case Feed(value) => if !p.bus.cmd.read && p.bus.cmd.size > 0 && p.bus.txis { FeedKeepsTracks(p.bus, p.ledger, value); }
    case Drain => if p.bus.cmd.read && p.bus.rx.Full? { DrainKeepsTracks(p.bus, p.ledger); }
    case GiveUp => GivingUpKeepsTracks(p.bus, p.ledger);
    case AskStop => if p.ledger.over { RecoveryKeepsTracks(p.bus, p.ledger, true, true, true); }
    case Acknowledge(nack, stop, error) => if p.ledger.over { RecoveryKeepsTracks(p.bus, p.ledger, nack, stop, error); }
  }

  lemma {:induction false} PlayKeepsTracks(p: Phase, ts: seq<Turn>)
    requires Tracks(p.bus, p.ledger)
    ensures var q := Play(p, ts); Tracks(q.bus, q.ledger) && q.ledger.found == p.ledger.found && q.ledger.cmd == p.ledger.cmd
    decreases |ts|
  {
    hide Tracks, Turned;
    if ts != [] {
      TurnKeepsTracks(p, ts[0]);
      PlayKeepsTracks(Turned(p, ts[0]), ts[1..]);
    }
  }

  /** Every run of a phase that finds the controller at rest is accounted for. */
  lemma RunTracks(b: Bus, es: seq<Event>, c: Command, ts: seq<Turn>)
    requires AtRest(b)
    ensures var p := Play(Opened(b, es, c), ts);
      && Tracks(p.bus, p.ledger) && p.bus.cmd == c
      && p.ledger.found.trace == b.trace && p.ledger.found.tx == b.tx && p.ledger.found.rx == b.rx
  {
    RestStaysQuiet(Cleared(b), es, b.troubles);
    CommandOpensPhase(HappenAll(Cleared(b), es), c, b.troubles);
    PlayKeepsTracks(Opened(b, es, c), ts);
  }

  lemma PlayFirst(p: Phase, t: Turn, ts: seq<Turn>)
    ensures Play(p, [t] + ts) == Play(Turned(p, t), ts)
  {
    assert ([t] + ts)[1..] == ts;
  }

  // ---------- What an earlier call can leave behind, and exactly when it matters ----------

  /** Whatever happens in a write, the bus shows the beginning of what was asked. */
  ghost predicate WritesOwn(b: Bus, c: Command) {
    forall es, ts, data: seq<Byte> ::
      |data| == c.size && Play(Opened(b, es, c), ts).ledger.fed <= data ==>
        CutShort(b.trace, Play(Opened(b, es, c), ts).bus, Sent(true, c, data))
  }

  /** However a read comes to its end, the driver has got the bytes that were on the bus. */
  ghost predicate ReadsOwn(b: Bus, c: Command) {
    forall es, ts ::
      var p := Play(Opened(b, es, c), ts);
      Finished(p.bus) && |p.ledger.got| == c.size ==> p.ledger.got == p.bus.moved
  }

  /** Whatever happens in a phase, the bus shows START and address once, the bytes moved, and an end. */
  ghost predicate PhaseIsOwn(b: Bus, c: Command) {
    forall es, ts ::
      var p := Play(Opened(b, es, c), ts);
      CutShort(b.trace, p.bus, Sent(true, c, p.bus.moved))
  }

  /** A write puts nothing but its own bytes on the bus exactly when TXDR was empty. */
  lemma OwnPrefixExactlyWhenEmpty(b: Bus, c: Command)
    requires AtRest(b) && !c.read && c.size > 0
    ensures WritesOwn(b, c) <==> b.tx.Empty?
  {
    if b.tx.Empty? {
      forall es, ts, data: seq<Byte> | |data| == c.size && Play(Opened(b, es, c), ts).ledger.fed <= data
        ensures CutShort(b.trace, Play(Opened(b, es, c), ts).bus, Sent(true, c, data))
      {
        var p := Play(Opened(b, es, c), ts);
        RunTracks(b, es, c, ts);
        WriteIsQueued(p.bus, p.ledger, data);
        PhaseIsCutShort(p.bus, p.ledger, data);
      }
    } else {
      StaleByteGoesFirst(b, c);
    }
  }

  lemma StaleByteGoesFirst(b: Bus, c: Command)
    requires AtRest(b) && !c.read && c.size > 0 && b.tx.Full?
    ensures !WritesOwn(b, c)
  {
    var p := Opened(b, [], c);
    var ts := [Hardware(Address(true))] + ([Hardware(LoadShift)] + ([Hardware(ShiftDone(true))] + []));
    PlayFirst(p, Hardware(Address(true)), ts[1..]);
    var p1 := Turned(p, Hardware(Address(true)));
    PlayFirst(p1, Hardware(LoadShift), [Hardware(ShiftDone(true))] + []);
    var p2 := Turned(p1, Hardware(LoadShift));
    PlayFirst(p2, Hardware(ShiftDone(true)), []);
    var q := Play(p, ts);
    var other: Byte := if b.tx.b == 0 then 1 else 0;
    var data: seq<Byte> := seq(c.size, _ => other);
    assert q.ledger.fed <= data;
    assert q.bus.trace[|b.trace| + 2] == Out(b.tx.b) && Sent(true, c, data)[2] == Out(other);
    assert !CutShort(b.trace, q.bus, Sent(true, c, data));
  }

  /** A read delivers the target's own bytes, whatever they are, exactly when RXDR was empty. */
  lemma OwnBytesExactlyWhenEmpty(b: Bus, c: Command)
    requires AtRest(b) && c.read && c.size > 0
    ensures ReadsOwn(b, c) <==> b.rx.Empty?
  {
    if b.rx.Empty? {
      forall es, ts | Finished(Play(Opened(b, es, c), ts).bus) && |Play(Opened(b, es, c), ts).ledger.got| == c.size
        ensures Play(Opened(b, es, c), ts).ledger.got == Play(Opened(b, es, c), ts).bus.moved
      {
        var p := Play(Opened(b, es, c), ts);
        RunTracks(b, es, c, ts);
        FinishedReadIsExact(p.bus, p.ledger);
      }
    } else {
      var other: Byte := if b.rx.b == 0 then 1 else 0;
      var p := Turned(Opened(b, [], c), Hardware(Address(true)));
      var ts := [Hardware(Address(true))] + Rounds(other, c.size);
      PlayFirst(Opened(b, [], c), Hardware(Address(true)), Rounds(other, c.size));
      RoundsFinish(p, other, c.size);
      RunTracks(b, [], c, ts);
      var q := Play(Opened(b, [], c), ts);
      FinishedReadIsExact(q.bus, q.ledger);
      assert q.ledger.got[0] == b.rx.b && q.bus.moved[0] == other;
    }
  }

  /** The driver takes a byte, and the next one comes in. */
  function Rounds(value: Byte, k: nat): seq<Turn> {
    if k == 0 then [] else [Drain] + ([Hardware(ShiftIn(value))] + Rounds(value, k - 1))
  }

  lemma RoundMoves(p: Phase, value: Byte)
    requires p.bus.stage.Active? && p.bus.cmd.read && p.bus.started && p.bus.rx.Full? && |p.bus.moved| < p.bus.cmd.size
    ensures var q := Turned(Turned(p, Drain), Hardware(ShiftIn(value)));
      && q.bus.cmd == p.bus.cmd && q.bus.started && q.bus.rx.Full? && q.bus.moved == p.bus.moved + [value]
      && |q.ledger.got| == |p.ledger.got| + 1 && (if |q.bus.moved| < q.bus.cmd.size then q.bus.stage.Active? else Finished(q.bus))
  {
  }

  lemma {:induction false} RoundsFinish(p: Phase, value: Byte, k: nat)
    requires p.bus.stage.Active? && p.bus.cmd.read && p.bus.started && p.bus.rx.Full? && 0 < k == p.bus.cmd.size - |p.bus.moved|
    ensures var q := Play(p, Rounds(value, k));
      Finished(q.bus) && |q.ledger.got| == |p.ledger.got| + k && q.bus.moved == p.bus.moved + seq(k, _ => value)
    decreases k
  {
    hide Turned;
    var p1 := Turned(p, Drain);
    var p2 := Turned(p1, Hardware(ShiftIn(value)));
    RoundMoves(p, value);
    PlayFirst(p, Drain, [Hardware(ShiftIn(value))] + Rounds(value, k - 1));
    PlayFirst(p1, Hardware(ShiftIn(value)), Rounds(value, k - 1));
    if k > 1 { RoundsFinish(p2, value, k - 1); }
    assert p.bus.moved + [value] + seq(k - 1, _ => value) == p.bus.moved + seq(k, _ => value);
  }

  /** On a bus found free, a phase is the only thing that goes out exactly when no earlier START was waiting. */
  lemma OwnPhaseExactlyWhenNonePending(b: Bus, c: Command)
    requires Sound(b) && !Owns(b)
    ensures PhaseIsOwn(b, c) <==> !b.stage.Pending?
  {
    if !b.stage.Pending? {
      forall es, ts
        ensures var p := Play(Opened(b, es, c), ts); CutShort(b.trace, p.bus, Sent(true, c, p.bus.moved))
      {
        var p := Play(Opened(b, es, c), ts);
        RunTracks(b, es, c, ts);
        PhaseIsCutShort(p.bus, p.ledger, p.bus.moved);
      }
    } else {
      var p := Opened(b, [Address(true)], c);
      assert HappenAll(Cleared(b), [Address(true)]) == Happen(Cleared(b), Address(true));
      PlayFirst(p, Hardware(Address(true)), []);
      var q := Play(p, [Hardware(Address(true))] + []);
      assert |q.bus.trace| - |q.bus.tail| >= |b.trace| + 4 && q.bus.moved == [];
      assert !CutShort(b.trace, q.bus, Sent(true, c, q.bus.moved));
    }
  }

  /** An abort can leave a byte in RXDR: it comes in between the last poll and the STOP, and a later read delivers it. */
  lemma AbortCanLeaveByte(b: Bus, c: Command, value: Byte, later: Command)
    requires AtRest(b) && b.rx.Empty? && c.read && c.size > 1 && later.read && later.size > 0
    ensures exists ts ::
      var left := Play(Opened(b, [], c), ts).bus;
      left.stage.Idle? && AtRest(left) && left.rx == Full(value) && !ReadsOwn(left, later)
  {
    hide ReadsOwn;
    var p := Opened(b, [], c);
    var p1 := Turned(p, Hardware(Address(true)));
    var p2 := Turned(p1, Hardware(ShiftIn(value)));
    var p3 := Turned(p2, GiveUp);
    var p4 := Turned(p3, AskStop);
    var t5 := [Hardware(StopNow)] + [];
    PlayFirst(p, Hardware(Address(true)), [Hardware(ShiftIn(value))] + ([GiveUp] + ([AskStop] + t5)));
    PlayFirst(p1, Hardware(ShiftIn(value)), [GiveUp] + ([AskStop] + t5));
    PlayFirst(p2, GiveUp, [AskStop] + t5);
    PlayFirst(p3, AskStop, t5);
    PlayFirst(p4, Hardware(StopNow), []);
    var ts := [Hardware(Address(true))] + ([Hardware(ShiftIn(value))] + ([GiveUp] + ([AskStop] + t5)));
    var left := Play(p, ts).bus;
    OwnBytesExactlyWhenEmpty(left, later);
  }

  /** A NACK can leave a byte in TXDR: it was written while the refused one was on the wire, and a later write sends it. */
  lemma NackCanLeaveByte(b: Bus, c: Command, first: Byte, second: Byte, later: Command)
    requires AtRest(b) && b.tx.Empty? && !c.read && c.size > 1 && !later.read && later.size > 0
    ensures exists ts ::
      var left := Play(Opened(b, [], c), ts).bus;
      left.stage.Idle? && AtRest(left) && left.tx == Full(second) && !WritesOwn(left, later)
  {
    hide WritesOwn, CutShort, Finished;
    var p := Opened(b, [], c);
    var p1 := Turned(p, Hardware(Address(true)));
    var p2 := Turned(p1, Hardware(AskByte));
    var p3 := Turned(p2, Feed(first));
    var p4 := Turned(p3, Hardware(LoadShift));
    var p5 := Turned(p4, Hardware(AskByte));
    var p6 := Turned(p5, Feed(second));
    var t6 := [Feed(second)] + ([Hardware(ShiftDone(false))] + []);
    var t4 := [Hardware(LoadShift)] + ([Hardware(AskByte)] + t6);
    var t2 := [Hardware(AskByte)] + ([Feed(first)] + t4);
    var ts := [Hardware(Address(true))] + t2;
    PlayFirst(p, Hardware(Address(true)), t2);
    PlayFirst(p1, Hardware(AskByte), [Feed(first)] + t4);
    PlayFirst(p2, Feed(first), t4);
    PlayFirst(p3, Hardware(LoadShift), [Hardware(AskByte)] + t6);
    PlayFirst(p4, Hardware(AskByte), t6);
    PlayFirst(p5, Feed(second), [Hardware(ShiftDone(false))] + []);
    PlayFirst(p6, Hardware(ShiftDone(false)), []);
    var left := Play(p, ts).bus;
    OwnPrefixExactlyWhenEmpty(left, later);
  }

  /** A call that times out while another master holds the bus leaves its START waiting; it goes out later. */
  lemma AbortCanLeaveStart(b: Bus, c: Command, later: Command)
    requires AtRest(b) && b.stage.Idle?
    ensures var left := Cleared(StopRequested(Commanded(b, c)));
      && Sound(left) && left.stage == Pending(false) && left.trace == b.trace
      && b.trace + [Start, Addr(c.address, c.read)] <= Happen(left, Address(true)).trace
      && !PhaseIsOwn(left, later)
  {
    OwnPhaseExactlyWhenNonePending(Cleared(StopRequested(Commanded(b, c))), later);
  }

  /** A waiting START of a probe that is answered between ICR and CR2 makes the next phase look finished before it began. */
  lemma WaitingStartCanFeignEnd(b: Bus, c: Command)
    requires Sound(b) && b.stage == Pending(false) && b.cmd.size == 0 && b.cmd.autoend && c.autoend
    ensures var p := Opened(b, [Address(true)], c);
      p.bus.stopf && !p.bus.nackf && !p.bus.error && !p.bus.started && !Finished(p.bus)
  {
    assert HappenAll(Cleared(b), [Address(true)]) == Happen(Cleared(b), Address(true));
  }
}
