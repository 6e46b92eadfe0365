/** Polled I2C transfers: write, read, probe and the combined write-read with a repeated START. */
module I2cTransfer {
  import opened Results
  import opened TimeBase
  import opened I2cBus

  const MAX_PHASE := 255

  /** ISR as one read shows it. */
  datatype Isr = Isr(busy: bool, nackf: bool, error: bool, txis: bool, rxne: bool, tc: bool, stopf: bool)

  datatype Flag = WantTxis | WantRxne | WantTc | WantStopf

  predicate Shows(isr: Isr, f: Flag) {
    match f
    case WantTxis => isr.txis
    case WantRxne => isr.rxne
    case WantTc => isr.tc
    case WantStopf => isr.stopf
  }

  predicate Raised(b: Bus, f: Flag) {
    match f
    case WantTxis => b.txis
    case WantRxne => b.rx.Full?
    case WantTc => b.stage.Held?
    case WantStopf => b.stopf
  }

  predicate IsrOf(isr: Isr, b: Bus) {
    && isr.nackf == b.nackf && isr.error == b.error && isr.txis == b.txis && isr.rxne == b.rx.Full?
    && isr.tc == b.stage.Held? && isr.stopf == b.stopf && (Owns(b) ==> isr.busy)
  }

  predicate SameData(a: Bus, b: Bus) { a.trace == b.trace && a.tx == b.tx && a.rx == b.rx }

  predicate WaitIs(w: Wait, timeout: Word) {
    (w.finite <==> timeout != FOREVER) && (w.finite ==> w.timeout == timeout <= MAX_INTERVAL)
  }

  function Take(a: array?<Byte>, size: nat): seq<Byte>
    requires a != null ==> size <= a.Length
    reads a
  {
    if a == null then [] else a[..size]
  }

  /** The symbols of a combined transfer up to its STOP. */
  function Whole(address: nat, write: seq<Byte>, reading: bool, read: seq<Byte>): seq<Symbol> {
    (if write == [] then [] else Part(address, false, write)) + (if reading then Part(address, true, read) else [])
  }

  function Part(address: nat, read: bool, bytes: seq<Byte>): seq<Symbol> {
    [Start, Addr(address, read)] + Data(read, bytes)
  }

  lemma WholeOfOne(address: nat, write: seq<Byte>, read: seq<Byte>)
    ensures write == [] ==> Whole(address, write, true, read) == Part(address, true, read)
    ensures write != [] ==> Whole(address, write, false, read) == Part(address, false, write)
  {
  }

  lemma WholeOfBoth(from: seq<Symbol>, address: nat, write: seq<Byte>, read: seq<Byte>)
    requires write != []
    ensures Whole(address, write, true, read) == Part(address, false, write) + Part(address, true, read)
    ensures from + Part(address, false, write) + Part(address, true, read) + [Stop]
            == from + Whole(address, write, true, read) + [Stop]
  {
    hide Part;
  }

  lemma NoData(address: nat)
    ensures Part(address, false, []) == [Start, Addr(address, false)]
    ensures forall t: seq<Symbol> :: t + [Start, Addr(address, false)] + [Stop] == t + [Start, Addr(address, false), Stop]
  {
  }

  lemma EndOfProbe(b: Bus, g: Ledger)
    requires Tracks(b, g) && !g.cmd.read && g.cmd.autoend && g.cmd.size == 0 && g.fed == []
    ensures CutShort(g.found.trace, b, [Start, Addr(g.cmd.address, false)])
    ensures Finished(b) ==> AtRest(b) && b.stage.Idle? && b.rx == g.found.rx
                            && b.trace == g.found.trace + [Start, Addr(g.cmd.address, false), Stop]
  {
    assert b.moved == [];
    assert Sent(true, b.cmd, []) == [Start, Addr(g.cmd.address, false)];
    PhaseIsCutShort(b, g, []);
    if Finished(b) { FinishedWriteIsExact(b, g); }
  }

  lemma EndOfWrite(b: Bus, g: Ledger, data: seq<Byte>)
    requires Tracks(b, g) && !g.cmd.read && g.fed <= data && |data| == g.cmd.size > 0
    ensures CutShort(g.found.trace, b, Part(g.cmd.address, false, Queued(g.found.tx, data)))
    ensures Finished(b) && !g.over ==> AtRest(b)
    ensures Finished(b) && g.fed == data ==>
              && b.trace == g.found.trace + Part(g.cmd.address, false, data) + (if g.cmd.autoend then [Stop] else [])
              && b.rx == g.found.rx && g.found.tx.Empty? && (g.cmd.autoend ==> b.stage.Idle?)
  {
    WriteIsQueued(b, g, data);
    PhaseIsCutShort(b, g, Queued(g.found.tx, data));
    if Finished(b) && g.fed == data {
      FinishedWriteIsExact(b, g);
    }
  }

  lemma EndOfRead(b: Bus, g: Ledger)
    requires Tracks(b, g) && g.cmd.read
    ensures g.got <= Bytes(g.found.rx) + b.moved && (Finished(b) && g.cmd.autoend ==> AtRest(b) && b.stage.Idle?)
    ensures var whole := Part(g.cmd.address, true, b.moved);
      && CutShort(g.found.trace, b, whole)
      && (Finished(b) && |g.got| == g.cmd.size ==>
            && |b.moved| == g.cmd.size && b.trace == g.found.trace + whole + (if g.cmd.autoend then [Stop] else [])
            && (g.found.rx.Empty? ==> g.got == b.moved && b.rx.Empty?))
  {
    assert g.got <= g.got + Bytes(b.rx);
    PhaseIsCutShort(b, g, b.moved);
    if Finished(b) && |g.got| == g.cmd.size { FinishedReadIsExact(b, g); }
  }

  lemma FrontGrows(front: seq<Byte>, rest: seq<Byte>, value: Byte)
    requires |front| < |rest|
    ensures (front + rest[|front|..])[|front| := value] == front + [value] + rest[|front| + 1..]
  {
  }

  class I2c {
    const clock: TimeSource
    var bus: Bus
    var enabled: bool
    var budget: nat
    ghost var looks: nat     // reads of ISR
    ghost var unready: nat   // those of the current wait, when none has shown what it waits for, nor an error

    constructor (clock: TimeSource)
      ensures this.clock == clock && AtRest(bus) && bus.tx.Empty? && bus.rx.Empty?
    {
      this.clock := clock;
      bus := Bus(Idle, Command(0, 0, false, true), false, [], [], false, Empty, Empty, Empty, false, false, false, false, 0, []);
      enabled, budget, looks, unready := true, 0, 0, 0;
    }

    /** The hardware moves on, in the middle of a phase. */
    method Interfere(ghost g: Ledger)
      requires Follows(bus, g)
      modifies `bus
      ensures (old(bus.started) ==> bus.started) && (old(Leaving(bus)) ==> Leaving(bus))
      ensures Follows(bus, g) && bus.troubles >= old(bus.troubles)
      ensures (old(bus.txis) ==> bus.txis) && (old(bus.rx.Full?) ==> bus.rx == old(bus.rx))
    {
      hide Follows, Happen;
      var n: nat := *;
      while n > 0
        invariant (old(bus.started) ==> bus.started) && (old(Leaving(bus)) ==> Leaving(bus))
        invariant Follows(bus, g) && bus.troubles >= old(bus.troubles)
        invariant (old(bus.txis) ==> bus.txis) && (old(bus.rx.Full?) ==> bus.rx == old(bus.rx))
      {
        var e: Event := *;
        HappenKeepsFollows(bus, e, g);
        HappenKeepsOffers(bus, e);
        TroublesOnlyGrow(bus, e);
        LeavingGoesOn(bus, e);
        bus := Happen(bus, e);
        n := n - 1;
      }
    }

    /**
     The hardware moves on while this call has commanded nothing yet: at rest it changes no data, but an earlier phase
     may still run out, or start, if its START is still waiting.
     */
    method RunOut(ghost since: nat)
      requires Sound(bus) && since <= bus.troubles
      modifies `bus
      ensures Sound(bus) && bus.troubles >= old(bus.troubles) && (old(Accounted(bus, since)) ==> Accounted(bus, since))
      ensures !old(bus.stage.Pending?) ==> !bus.stage.Pending?
      ensures old(AtRest(bus)) ==> AtRest(bus) && SameData(old(bus), bus) && (old(bus.stage.Idle?) ==> bus.stage.Idle?)
      ensures old(Fresh(bus)) ==> Fresh(bus)
    {
      hide Happen, Accounted;
      var n: nat := *;
      while n > 0
        invariant Sound(bus) && bus.troubles >= old(bus.troubles) && (old(Accounted(bus, since)) ==> Accounted(bus, since))
        invariant !old(bus.stage.Pending?) ==> !bus.stage.Pending?
        invariant old(AtRest(bus)) ==> AtRest(bus) && SameData(old(bus), bus) && (old(bus.stage.Idle?) ==> bus.stage.Idle?)
        invariant old(Fresh(bus)) ==> Fresh(bus)
      {
        var e: Event := *;
        HappenKeepsSound(bus, e);
        TroublesOnlyGrow(bus, e);
        if Accounted(bus, since) { HappenKeepsAccount(bus, e, since); }
        if AtRest(bus) { RestIsQuiet(bus, e); }
        bus := Happen(bus, e);
        n := n - 1;
      }
    }

    /** Another master may make the bus busy while this controller is idle. */
    method ReadIsr() returns (isr: Isr)
      modifies `looks
      ensures IsrOf(isr, bus) && looks == old(looks) + 1
    {
      looks := looks + 1;
      var others: bool := *;
      isr := Isr(Owns(bus) || others, bus.nackf, bus.error, bus.txis, bus.rx.Full?, bus.stage.Held?, bus.stopf);
    }

    /** One look for a flag, or for an error. */
    method LookFor(f: Flag) returns (isr: Isr)
      modifies `looks, `unready
      ensures IsrOf(isr, bus) && looks == old(looks) + 1
      ensures unready == if Shows(isr, f) || isr.nackf || isr.error then 0 else old(unready) + 1
    {
      isr := ReadIsr();
      unready := if Shows(isr, f) || isr.nackf || isr.error then 0 else unready + 1;
    }

    /** One look for a free bus. */
    method LookForFree() returns (free: bool)
      modifies `looks, `unready
      ensures (free ==> !Owns(bus)) && looks == old(looks) + 1 && unready == if free then 0 else old(unready) + 1
    {
      var isr := ReadIsr();
      free := !isr.busy;
      unready := if free then 0 else unready + 1;
    }

    method ClearStatus()
      modifies `bus
      ensures bus == Cleared(old(bus))
    {
      bus := Cleared(bus);
    }

    method AbortTransfer(ghost g: Ledger)
      requires Follows(bus, g) && g.over
      modifies `bus, `looks
      ensures looks >= old(looks)
      ensures Follows(bus, g)
      ensures old(bus.started) ==> Leaving(bus)
      ensures !bus.nackf && !bus.stopf && !bus.error
    {
      hide Follows;
      Interfere(g);
      FollowsFacts(bus, g);
      var isr := ReadIsr();
      if isr.busy {
        Interfere(g);
        FollowsFacts(bus, g);
        RecoveryKeepsFollows(bus, g, true, true, true);
        bus := StopRequested(bus);
      }
      Interfere(g);
      RecoveryKeepsFollows(bus, g, false, false, false);
      ClearStatus();
    }

    /** NACK first, then the bus errors; each error clears its own flags. */
    method StatusError(isr: Isr, ghost g: Ledger) returns (r: Status)
      requires Follows(bus, g)
      modifies `bus
      ensures r == if isr.nackf || isr.error then IoError else Ok
      ensures r == Ok ==> bus == old(bus)
      ensures (isr.nackf ==> !bus.nackf && !bus.stopf) && (!isr.nackf && isr.error ==> !bus.error)
      ensures r != Ok ==> Follows(bus, g.(over := true)) && (IsrOf(isr, old(bus)) ==> g.since < bus.troubles)
    {
      hide Follows;
      FollowsFacts(bus, g);
      if isr.nackf {
        GivingUpKeepsFollows(bus, g);
        Interfere(g.(over := true));
        RecoveryKeepsFollows(bus, g.(over := true), false, false, true);
        bus := bus.(nackf := false, stopf := false);
        return IoError;
      }
      if isr.error {
        GivingUpKeepsFollows(bus, g);
        Interfere(g.(over := true));
        RecoveryKeepsFollows(bus, g.(over := true), true, true, false);
        bus := bus.(error := false);
        return IoError;
      }
      return Ok;
    }

    /** What a wait inside a phase owes its caller. */
    ghost predicate WaitEnd(c: Call, g: Ledger, h: Ledger, w: Wait, begin: nat, total: nat)
      reads this, clock
    {
      && Follows(bus, h) && budget <= total && Began(w, clock, begin)
      && h == g.(over := c.Returned? && c.status != Ok)
      && (c == Polling ==> budget == 0 && InTime(w, clock, begin, total))
      && (c.Returned? ==> c.status in {Ok, IoError, Timeout}) && (c == Returned(IoError) ==> g.since < bus.troubles)
      && (c == Returned(Ok) ==> InTime(w, clock, begin, total - budget))
      && (c == Returned(Timeout) ==> w.finite && clock.now - begin >= w.timeout)
    }

    method WaitForSet(f: Flag, w: Wait, ghost begin: nat, ghost total: nat, ghost g: Ledger) returns (c: Call, ghost h: Ledger)
      requires Follows(bus, g) && !g.over && budget <= total && Began(w, clock, begin) && InTime(w, clock, begin, total - budget)
      modifies `bus, `budget, `looks, `unready, clock`now
      ensures WaitEnd(c, g, h, w, begin, total) && clock.now >= old(clock.now)
      ensures c == Returned(Ok) ==> !bus.nackf && !bus.error && Raised(bus, f)
      ensures (c == Returned(Timeout) ==> unready > 0) && looks + budget >= old(looks + budget)
      ensures c == Returned(Timeout) && old(bus.started) ==> Leaving(bus)
    {
      hide Follows, Began, InTime;
      unready := 0;
      while true
        invariant Follows(bus, g) && (old(bus.started) ==> bus.started) && looks + budget >= old(looks + budget)
        invariant budget <= total && Began(w, clock, begin) && InTime(w, clock, begin, total - budget)
        invariant clock.now >= old(clock.now)
        decreases budget
      {
        if budget == 0 { return Polling, g; }
        Interfere(g);
        var isr := LookFor(f);
        var r := StatusError(isr, g);
        if r != Ok {
          return Returned(r), g.(over := true);
        }
        if Shows(isr, f) {
          return Returned(Ok), g;
        }
        var expired := Expired(clock, w, begin, total - budget);
        if expired {
          GivingUpKeepsFollows(bus, g);
          AbortTransfer(g.(over := true));
          return Returned(Timeout), g.(over := true);
        }
        budget := budget - 1;
      }
    }

    /** The account of a phase starts where the caller found the controller, if that was at rest. */
    ghost predicate OpensAt(g: Ledger, found: Bus) {
      && g.since == found.troubles
      && (AtRest(found) ==> Fresh(g.found) && g.found.trace == found.trace && g.found.tx == found.tx && g.found.rx == found.rx)
    }

    /** ICR, then CR2 with START. */
    method StartPhase(c: Command) returns (ghost g: Ledger)
      requires Sound(bus)
      modifies `bus
      ensures Follows(bus, g) && g.cmd == c && g.fed == [] && g.got == [] && !g.over && OpensAt(g, old(bus))
    {
      hide Follows;
      RunOut(bus.troubles);
      ClearStatus();
      RunOut(old(bus.troubles));
      g := Ledger(bus, old(bus.troubles), c, [], [], false);
      CommandOpensAny(bus, c, old(bus.troubles));
      bus := Commanded(bus, c);
    }

    /** What a phase owes its caller: its account, and a finished phase if all went well. */
    ghost predicate PhaseEnd(c: Call, cmd: Command, found: Bus, g: Ledger, w: Wait, begin: nat, total: nat)
      reads this, clock
    {
      && Follows(bus, g) && g.cmd == cmd && OpensAt(g, found)
      && found.troubles <= bus.troubles && (c == Returned(IoError) ==> found.troubles < bus.troubles)
      && budget <= total && Began(w, clock, begin)
      && (g.over <==> c.Returned? && c.status != Ok)
      && (c == Polling ==> budget == 0 && InTime(w, clock, begin, total))
      && (c.Returned? ==> c.status in {Ok, IoError, Timeout})
      && (c == Returned(Ok) ==> !bus.nackf && (cmd.autoend ==> !bus.stopf))
      && (c == Returned(Ok) ==> (Fresh(g.found) ==> Finished(bus)) && InTime(w, clock, begin, total - budget))
      && (c == Returned(Timeout) ==> w.finite && clock.now - begin >= w.timeout && unready > 0)
    }

    /** The end of a phase: STOPF for one with autoend, TC for one that keeps the bus. */
    method FinishPhase(cmd: Command, w: Wait, ghost begin: nat, ghost total: nat, ghost g: Ledger, ghost found: Bus)
      returns (c: Call, ghost h: Ledger)
      requires Follows(bus, g) && !g.over && g.cmd == cmd && OpensAt(g, found)
      requires budget <= total && Began(w, clock, begin) && InTime(w, clock, begin, total - budget)
      modifies `bus, `budget, `looks, `unready, clock`now
      ensures PhaseEnd(c, cmd, found, h, w, begin, total) && h == g.(over := h.over) && clock.now >= old(clock.now)
      ensures looks + budget >= old(looks + budget)
    {
      hide Began, InTime;
      c, h := WaitForSet(if cmd.autoend then WantStopf else WantTc, w, begin, total, g);
      if c == Returned(Ok) && cmd.autoend {
        EndKeepsFollows(bus, h);
        bus := bus.(stopf := false);
      }
    }

    method WritePhase(address: nat, data: array<Byte>, size: nat, autoend: bool, w: Wait, ghost begin: nat, ghost total: nat)
      returns (c: Call, ghost g: Ledger)
      requires Sound(bus) && size <= data.Length
      requires budget <= total && Began(w, clock, begin) && InTime(w, clock, begin, total - budget)
      modifies `bus, `budget, `looks, `unready, clock`now
      ensures PhaseEnd(c, Command(address, size, false, autoend), old(bus), g, w, begin, total) && clock.now >= old(clock.now)
      ensures looks + budget >= old(looks + budget)
      ensures g.fed <= data[..size] && (c == Returned(Ok) ==> g.fed == data[..size])
    {
      hide Follows, Began, InTime;
      var cmd := Command(address, size, false, autoend);
      g := StartPhase(cmd);
      var index := 0;
      while index < size
        invariant 0 <= index <= size && Follows(bus, g) && !g.over && g.cmd == cmd && g.fed == data[..index]
        invariant OpensAt(g, old(bus)) && looks + budget >= old(looks + budget)
        invariant budget <= total && Began(w, clock, begin) && InTime(w, clock, begin, total - budget)
        invariant clock.now >= old(clock.now)
      {
        c, g := WaitForSet(WantTxis, w, begin, total, g);
        if c != Returned(Ok) {
          FollowsFacts(bus, g);
          return;
        }
        Interfere(g);
        FollowsFacts(bus, g);
        FeedKeepsFollows(bus, g, data[index]);
        bus := bus.(tx := Full(data[index]), txis := false);
        g := g.(fed := g.fed + [data[index]]);
        index := index + 1;
      }
      c, g := FinishPhase(cmd, w, begin, total, g, old(bus));
    }

    /** RXDR gives up its byte to the caller's buffer. */
    method TakeByte(data: array<Byte>, index: nat, ghost g: Ledger) returns (ghost h: Ledger)
      requires Follows(bus, g) && g.cmd.read && bus.rx.Full? && index < data.Length
      modifies `bus, data
      ensures Follows(bus, h) && h == g.(got := g.got + [old(bus.rx.b)]) && data[..] == old(data[..])[index := old(bus.rx.b)]
    {
      hide Follows;
      Interfere(g);
      FollowsFacts(bus, g);
      DrainKeepsFollows(bus, g);
      data[index] := bus.rx.b;
      h := g.(got := g.got + [bus.rx.b]);
      bus := bus.(rx := Empty);
    }

    method ReadPhase(address: nat, data: array<Byte>, size: nat, autoend: bool, w: Wait, ghost begin: nat, ghost total: nat)
      returns (c: Call, ghost g: Ledger)
      requires Sound(bus) && size <= data.Length
      requires budget <= total && Began(w, clock, begin) && InTime(w, clock, begin, total - budget)
      modifies `bus, `budget, `looks, `unready, clock`now, data
      ensures PhaseEnd(c, Command(address, size, true, autoend), old(bus), g, w, begin, total) && clock.now >= old(clock.now)
      ensures looks + budget >= old(looks + budget)
      ensures |g.got| <= size && (c == Returned(Ok) ==> |g.got| == size)
      ensures data[..] == g.got + old(data[..])[|g.got|..]
    {
      hide Follows, Began, InTime;
      var cmd := Command(address, size, true, autoend);
      g := StartPhase(cmd);
      var index := 0;
      while index < size
        invariant 0 <= index <= size && Follows(bus, g) && !g.over && g.cmd == cmd && |g.got| == index
        invariant data[..] == g.got + old(data[..])[index..]
        invariant OpensAt(g, old(bus)) && looks + budget >= old(looks + budget)
        invariant budget <= total && Began(w, clock, begin) && InTime(w, clock, begin, total - budget)
        invariant clock.now >= old(clock.now)
      {
        c, g := WaitForSet(WantRxne, w, begin, total, g);
        if c != Returned(Ok) {
          FollowsFacts(bus, g);
          return;
        }
        FrontGrows(g.got, old(data[..]), bus.rx.b);
        g := TakeByte(data, index, g);
        index := index + 1;
      }
      c, g := FinishPhase(cmd, w, begin, total, g, old(bus));
    }

    // ---------- Calls ----------

    method WaitBusIdle(w: Wait, ghost begin: nat, ghost total: nat) returns (c: Call)
      requires Sound(bus) && budget <= total && Began(w, clock, begin) && InTime(w, clock, begin, total - budget)
      modifies `bus, `budget, `looks, `unready, clock`now
      ensures Sound(bus) && clock.now >= old(clock.now) && bus.troubles >= old(bus.troubles)
      ensures !old(bus.stage.Pending?) ==> !bus.stage.Pending?
      ensures old(AtRest(bus) && bus.stage.Idle?) ==> SameData(old(bus), bus)
      ensures c in {Returned(Ok), Returned(Timeout), Polling} && looks + budget >= old(looks + budget)
      ensures c == Returned(Ok) ==>
                !Owns(bus) && budget <= total && Began(w, clock, begin) && InTime(w, clock, begin, total - budget)
      ensures c == Returned(Timeout) ==> w.finite && clock.now - begin >= w.timeout && unready > 0
      ensures c == Polling ==> budget == 0 && InTime(w, clock, begin, total)
    {
      hide Began, InTime;
      unready := 0;
      while true
        invariant looks + budget >= old(looks + budget)
        invariant Sound(bus) && bus.troubles >= old(bus.troubles) && (!old(bus.stage.Pending?) ==> !bus.stage.Pending?)
        invariant budget <= total && Began(w, clock, begin) && InTime(w, clock, begin, total - budget)
        invariant old(AtRest(bus) && bus.stage.Idle?) ==> AtRest(bus) && bus.stage.Idle? && SameData(old(bus), bus)
        invariant clock.now >= old(clock.now)
        decreases budget
      {
        if budget == 0 { return Polling; }
        RunOut(bus.troubles);
        var free := LookForFree();
        if free { return Returned(Ok); }
        var expired := Expired(clock, w, begin, total - budget);
        if expired {
          RunOut(bus.troubles);
          var isr := ReadIsr();
          RunOut(bus.troubles);
          if isr.busy { bus := StopRequested(bus); }
          RunOut(bus.troubles);
          ClearStatus();
          return Returned(Timeout);
        }
        budget := budget - 1;
      }
    }

    /** What every call promises about time, and that it has looked before it gives up. */
    ghost predicate CallEnd(c: Call, timeout: Word, from: nat, polls: nat)
      reads this, clock
    {
      && (c == Returned(Timeout) ==> timeout <= MAX_INTERVAL && clock.now - from >= timeout && unready > 0)
      && (c == Polling ==> budget == 0 && (timeout == FOREVER || !clock.steady || polls < timeout || polls == 0))
    }

    /** What a call that has got to the bus can answer. */
    predicate Worked(c: Call) { c.Returned? ==> c.status in {Ok, IoError, Timeout} }

    /** What can be wrong with a wait before it begins. */
    predicate BadTime(timeout: Word)
      reads this
    {
      enabled && timeout != FOREVER && timeout > MAX_INTERVAL
    }

    predicate NoTime(timeout: Word)
      reads this, clock
    {
      !enabled || (timeout <= MAX_INTERVAL && !clock.installed)
    }

    /** The start of every call whose arguments are in order: the controller is on, time is set, the bus is free. */
    method Prepare(timeout: Word, ghost total: nat) returns (c: Call, w: Wait, ghost begin: nat)
      requires Sound(bus) && budget == total
      modifies `bus, `budget, `looks, `unready, clock`now
      ensures Sound(bus) && clock.now >= old(clock.now) && bus.troubles >= old(bus.troubles)
      ensures !old(bus.stage.Pending?) ==> !bus.stage.Pending?
      ensures old(AtRest(bus) && bus.stage.Idle?) ==> SameData(old(bus), bus)
      ensures c == Returned(InvalidArgument) <==> BadTime(timeout)
      ensures c == Returned(NotReady) <==> old(NoTime(timeout))
      ensures c != Returned(Unsupported) && looks + budget >= old(looks + budget)
      ensures c != Returned(Ok) ==> CallEnd(c, timeout, old(clock.now), total) && c != Returned(IoError)
      ensures c == Returned(Ok) ==> begin >= old(clock.now) && !Owns(bus) && budget <= total && WaitIs(w, timeout)
                                    && Began(w, clock, begin) && InTime(w, clock, begin, total - budget)
    {
      begin, w := clock.now, Wait(false, 0, 0);
      if !enabled { return Returned(NotReady), w, begin; }
      var r;
      r, w, begin := PrepareWait(clock, timeout);
      if r != Ok { return Returned(r), w, begin; }
      c := WaitBusIdle(w, begin, total);
    }

    lemma PhaseEndsCall(c: Call, cmd: I2cBus.Command, found: Bus, g: Ledger, w: Wait, begin: nat, total: nat,
                        timeout: Word, from: nat)
      requires PhaseEnd(c, cmd, found, g, w, begin, total) && WaitIs(w, timeout) && begin >= from
      ensures CallEnd(c, timeout, from, total)
    {
      hide Follows;
    }

    /** A write phase as its caller sees it. */
    method WriteHalf(address: nat, data: array<Byte>, size: nat, autoend: bool, w: Wait, ghost begin: nat, ghost total: nat,
                     timeout: Word, ghost from: nat)
      returns (c: Call)
      requires Sound(bus) && 0 < size <= data.Length && WaitIs(w, timeout) && begin >= from
      requires budget <= total && Began(w, clock, begin) && InTime(w, clock, begin, total - budget)
      modifies `bus, `budget, `looks, `unready, clock`now
      ensures CallEnd(c, timeout, from, total) && Sound(bus) && !bus.cmd.read && clock.now >= old(clock.now)
      ensures Worked(c) && looks + budget >= old(looks + budget)
      ensures bus.troubles >= old(bus.troubles) && (c == Returned(IoError) ==> bus.troubles > old(bus.troubles))
      ensures c == Returned(Ok) ==> budget <= total && Began(w, clock, begin) && InTime(w, clock, begin, total - budget)
      ensures old(AtRest(bus)) ==> CutShort(old(bus.trace), bus, Part(address, false, Queued(old(bus.tx), data[..size])))
      ensures old(AtRest(bus)) && c == Returned(Ok) ==>
                && AtRest(bus) && (autoend ==> Fresh(bus) && bus.stage.Idle?) && bus.rx == old(bus.rx) && old(bus.tx.Empty?)
                && bus.trace == old(bus.trace) + Part(address, false, data[..size]) + (if autoend then [Stop] else [])
    {
      hide Follows, Tracks, Began, InTime, CutShort, Part, CallEnd, Queued;
      ghost var found := bus;
      ghost var g;
      c, g := WritePhase(address, data, size, autoend, w, begin, total);
      PhaseEndsCall(c, g.cmd, found, g, w, begin, total, timeout, from);
      FollowsFacts(bus, g);
      if AtRest(found) { EndOfWrite(bus, g, data[..size]); }
    }

    /** A read phase, always with autoend, as its caller sees it. */
    method ReadHalf(address: nat, data: array<Byte>, size: nat, w: Wait, ghost begin: nat, ghost total: nat,
                    timeout: Word, ghost from: nat)
      returns (c: Call, ghost got: seq<Byte>)
      requires Sound(bus) && 0 < size <= data.Length && WaitIs(w, timeout) && begin >= from
      requires budget <= total && Began(w, clock, begin) && InTime(w, clock, begin, total - budget)
      modifies `bus, `budget, `looks, `unready, clock`now, data
      ensures CallEnd(c, timeout, from, total) && Sound(bus) && bus.cmd.read && clock.now >= old(clock.now)
      ensures Worked(c) && looks + budget >= old(looks + budget)
      ensures bus.troubles >= old(bus.troubles) && (c == Returned(IoError) ==> bus.troubles > old(bus.troubles))
      ensures |got| <= size && data[..] == got + old(data[..])[|got|..] && (c == Returned(Ok) ==> |got| == size)
      ensures old(AtRest(bus)) ==>
                && CutShort(old(bus.trace), bus, Part(address, true, bus.moved)) && got <= Bytes(old(bus.rx)) + bus.moved
                && (c == Returned(Ok) ==>
                      && Fresh(bus) && bus.stage.Idle? && |bus.moved| == size
                      && bus.trace == old(bus.trace) + Part(address, true, bus.moved) + [Stop]
                      && (old(bus.rx.Empty?) ==> got == bus.moved && bus.rx.Empty?))
    {
      hide Follows, Tracks, Began, InTime, CutShort, Part, CallEnd;
      ghost var found := bus;
      ghost var g;
      c, g := ReadPhase(address, data, size, true, w, begin, total);
      PhaseEndsCall(c, g.cmd, found, g, w, begin, total, timeout, from);
      FollowsFacts(bus, g);
      if AtRest(found) { EndOfRead(bus, g); }
      got := g.got;
    }

    /**
     Probes an address. `found` is the bus as the call found it free; nothing is claimed of the bus when the call
     never got that far, or when a START of an earlier call was still waiting then.
     */
    method ProbeTimeout(valid: bool, address: nat, timeout: Word) returns (c: Call, ghost found: Bus, ghost begun: bool)
      requires Sound(bus)
      modifies `bus, `budget, `looks, `unready, clock`now
      ensures CallEnd(c, timeout, old(clock.now), old(budget)) && Sound(bus) && looks + budget >= old(looks + budget)
      ensures c == Returned(IoError) ==> begun && bus.troubles > old(bus.troubles)
      ensures c == Returned(InvalidArgument) <==> !valid || address > 0x7f || BadTime(timeout)
      ensures c == Returned(NotReady) <==> valid && address <= 0x7f && old(NoTime(timeout))
      ensures c != Returned(Unsupported)
      ensures old(AtRest(bus) && bus.stage.Idle?) ==> SameData(old(bus), if begun then found else bus)
      ensures !old(bus.stage.Pending?) ==> !(if begun then found else bus).stage.Pending?
      ensures begun ==> !bus.cmd.read && Sound(found) && !Owns(found)
      ensures c == Returned(Ok) ==> begun
      ensures begun && !found.stage.Pending? ==>
                && CutShort(found.trace, bus, [Start, Addr(address, false)])
                && (c == Returned(Ok) ==> Fresh(bus) && bus.stage.Idle? && bus.rx == found.rx
                                          && bus.trace == found.trace + [Start, Addr(address, false), Stop])
    {
      hide Follows, Tracks, Began, InTime;
      found, begun := bus, false;
      if !valid || address > 0x7f { return Returned(InvalidArgument), found, begun; }
      ghost var total, from := budget, clock.now;
      var w;
      ghost var begin;
      c, w, begin := Prepare(timeout, total);
      if c != Returned(Ok) { return; }
      found, begun := bus, true;
      var cmd := Command(address, 0, false, true);
      ghost var g := StartPhase(cmd);
      c, g := FinishPhase(cmd, w, begin, total, g, found);
      PhaseEndsCall(c, cmd, found, g, w, begin, total, timeout, from);
      FollowsFacts(bus, g);
      if AtRest(found) { EndOfProbe(bus, g); }
    }

    method WriteTimeout(valid: bool, address: nat, data: array?<Byte>, size: nat, timeout: Word)
      returns (c: Call, ghost found: Bus, ghost begun: bool)
      requires Sound(bus) && (data != null ==> size <= data.Length)
      modifies `bus, `budget, `looks, `unready, clock`now
      ensures CallEnd(c, timeout, old(clock.now), old(budget)) && Sound(bus) && looks + budget >= old(looks + budget)
      ensures c == Returned(IoError) ==> begun && bus.troubles > old(bus.troubles)
      ensures var fit := valid && address <= 0x7f && (size == 0 || data != null);
        && (c == Returned(InvalidArgument) <==> !fit || (size <= 255 && BadTime(timeout)))
        && (c == Returned(Unsupported) <==> fit && size > 255)
        && (c == Returned(NotReady) <==> fit && size <= 255 && old(NoTime(timeout)))
      ensures old(AtRest(bus) && bus.stage.Idle?) ==> SameData(old(bus), if begun then found else bus)
      ensures !old(bus.stage.Pending?) ==> !(if begun then found else bus).stage.Pending?
      ensures begun ==> !bus.cmd.read && Sound(found) && !Owns(found)
      ensures c == Returned(Ok) ==> begun
      ensures begun && !found.stage.Pending? ==>
                var data := Take(data, size);
                && CutShort(found.trace, bus, Part(address, false, Queued(found.tx, data)))
                && (c == Returned(Ok) ==> && Fresh(bus) && bus.stage.Idle? && bus.rx == found.rx
                                          && (size > 0 ==> found.tx.Empty?)
                                          && bus.trace == found.trace + Part(address, false, data) + [Stop])
    {
      hide Follows, Tracks, Began, InTime;
      found, begun := bus, false;
      if !valid || address > 0x7f || (size != 0 && data == null) { return Returned(InvalidArgument), found, begun; }
      if size > MAX_PHASE { return Returned(Unsupported), found, begun; }
      if !enabled { return Returned(NotReady), found, begun; }
      if size == 0 {
        c, found, begun := ProbeTimeout(valid, address, timeout);
        NoData(address);
        return;
      }
      ghost var total, from := budget, clock.now;
      var w;
      ghost var begin;
      c, w, begin := Prepare(timeout, total);
      if c != Returned(Ok) { return; }
      found, begun := bus, true;
      c := WriteHalf(address, data, size, true, w, begin, total, timeout, from);
    }

    /** The bytes read are those of this transfer, behind one that an earlier call may have left in RXDR. */
    method ReadTimeout(valid: bool, address: nat, data: array?<Byte>, size: nat, timeout: Word)
      returns (c: Call, ghost found: Bus, ghost begun: bool, ghost got: seq<Byte>)
      requires Sound(bus) && (data != null ==> size <= data.Length)
      modifies `bus, `budget, `looks, `unready, clock`now, data
      ensures CallEnd(c, timeout, old(clock.now), old(budget)) && Sound(bus) && looks + budget >= old(looks + budget)
      ensures c == Returned(IoError) ==> begun && bus.troubles > old(bus.troubles)
      ensures var fit := valid && address <= 0x7f && (size == 0 || data != null);
        && (c == Returned(InvalidArgument) <==> !fit || (0 < size <= 255 && BadTime(timeout)))
        && (c == Returned(Unsupported) <==> fit && size > 255)
        && (c == Returned(NotReady) <==> fit && 0 < size <= 255 && old(NoTime(timeout)))
        && (fit && size == 0 ==> c == Returned(Ok))
      ensures old(AtRest(bus) && bus.stage.Idle?) ==> SameData(old(bus), if begun then found else bus)
      ensures !old(bus.stage.Pending?) ==> !(if begun then found else bus).stage.Pending?
      ensures |got| <= size && (data != null ==> data[..] == got + old(Take(data, data.Length))[|got|..])
      ensures c == Returned(Ok) && size == 0 ==> bus == old(bus)
      ensures (begun ==> size > 0 && bus.cmd.read && Sound(found) && !Owns(found))
      ensures c == Returned(Ok) && size > 0 ==> begun && |got| == size
      ensures begun && !found.stage.Pending? ==>
                var whole := Part(address, true, bus.moved);
                && got <= Bytes(found.rx) + bus.moved && CutShort(found.trace, bus, whole)
                && (c == Returned(Ok) ==> && Fresh(bus) && bus.stage.Idle? && |bus.moved| == size
                                          && bus.trace == found.trace + whole + [Stop]
                                          && (found.rx.Empty? ==> got == bus.moved && bus.rx.Empty?))
    {
      hide Follows, Tracks, Began, InTime;
      found, begun, got := bus, false, [];
      if !valid || address > 0x7f || (size != 0 && data == null) { return Returned(InvalidArgument), found, begun, got; }
      if size == 0 { return Returned(Ok), found, begun, got; }
      if size > MAX_PHASE { return Returned(Unsupported), found, begun, got; }
      ghost var total, from := budget, clock.now;
      var w;
      ghost var begin;
      c, w, begin := Prepare(timeout, total);
      if c != Returned(Ok) { return; }
      found, begun := bus, true;
      c, got := ReadHalf(address, data, size, w, begin, total, timeout, from);
    }

    /** Both phases of the combined transfer. */
    method WriteThenRead(address: nat, writeData: array<Byte>, writeSize: nat, readData: array<Byte>, readSize: nat, w: Wait,
                         ghost begin: nat, ghost total: nat, timeout: Word, ghost from: nat)
      returns (c: Call, ghost found: Bus, ghost got: seq<Byte>)
      requires Sound(bus) && 0 < writeSize <= writeData.Length && 0 < readSize <= readData.Length
      requires WaitIs(w, timeout) && begin >= from
      requires budget <= total && Began(w, clock, begin) && InTime(w, clock, begin, total - budget)
      modifies `bus, `budget, `looks, `unready, clock`now, readData
      ensures CallEnd(c, timeout, from, total) && Sound(bus) && found == old(bus)
      ensures Worked(c) && looks + budget >= old(looks + budget)
      ensures c == Returned(IoError) ==> bus.troubles > old(bus.troubles)
      ensures |got| <= readSize && readData[..] == got + old(readData[..])[|got|..]
      ensures c == Returned(Ok) ==> bus.cmd.read && |got| == readSize
      ensures AtRest(found) ==>
                var data := old(writeData[..writeSize]);
                && CutShort(found.trace, bus, Whole(address, Queued(found.tx, data), bus.cmd.read, bus.moved))
                && (c == Returned(Ok) ==> && Fresh(bus) && bus.stage.Idle? && |bus.moved| == readSize && found.tx.Empty?
                                          && bus.trace == found.trace + Whole(address, data, true, bus.moved) + [Stop]
                                          && got <= Bytes(found.rx) + bus.moved
                                          && (found.rx.Empty? ==> got == bus.moved && bus.rx.Empty?))
    {
      hide Follows, Tracks, Began, InTime, CutShort, Part, CallEnd, Whole, Queued;
      found, got := bus, [];
      ghost var data := writeData[..writeSize];
      ghost var first := Part(address, false, data);
      c := WriteHalf(address, writeData, writeSize, false, w, begin, total, timeout, from);
      WholeOfOne(address, Queued(found.tx, data), bus.moved);
      if c != Returned(Ok) { return; }
      c, got := ReadHalf(address, readData, readSize, w, begin, total, timeout, from);
      if AtRest(found) {
        assert found.trace + first + [] == found.trace + first;
        LaterPhaseIsCutShort(found.trace, first, bus, Part(address, true, bus.moved));
        WholeOfBoth(found.trace, address, data, bus.moved);
      }
    }

    /**
     The combined transfer. When it succeeds the bus has carried START, address and write, the bytes of
     `writeData`, repeated START, address and read, as many bytes, and STOP, with no STOP in between; when it
     does not, the bus has carried the beginning of that, then at most a NACK and a STOP. A byte left in TXDR goes
     before those of `writeData`, and then the call does not succeed.
     */
    method WriteReadTimeout(valid: bool, address: nat, writeData: array?<Byte>, writeSize: nat,
                            readData: array?<Byte>, readSize: nat, timeout: Word)
      returns (c: Call, ghost found: Bus, ghost begun: bool, ghost got: seq<Byte>)
      requires Sound(bus)
      requires (writeData != null ==> writeSize <= writeData.Length) && (readData != null ==> readSize <= readData.Length)
      modifies `bus, `budget, `looks, `unready, clock`now, readData
      ensures CallEnd(c, timeout, old(clock.now), old(budget)) && Sound(bus) && looks + budget >= old(looks + budget)
      ensures c == Returned(IoError) ==> begun && bus.troubles > old(bus.troubles)
      ensures
        var fit := valid && address <= 0x7f && (writeSize == 0 || writeData != null) && (readSize == 0 || readData != null);
        var asks := fit && writeSize <= 255 && readSize <= 255 && (writeSize > 0 || readSize > 0);
        && (c == Returned(InvalidArgument) <==> !fit || (asks && BadTime(timeout)))
        && (c == Returned(Unsupported) <==> fit && (writeSize > 255 || readSize > 255))
        && (c == Returned(NotReady) <==> asks && old(NoTime(timeout)))
        && (fit && writeSize == readSize == 0 ==> c == Returned(Ok))
      ensures old(AtRest(bus) && bus.stage.Idle?) ==> SameData(old(bus), if begun then found else bus)
      ensures !old(bus.stage.Pending?) ==> !(if begun then found else bus).stage.Pending?
      ensures |got| <= readSize && (readData != null ==> readData[..] == got + old(Take(readData, readData.Length))[|got|..])
      ensures c == Returned(Ok) ==> |got| == readSize && (begun || writeSize == readSize == 0)
      ensures begun ==> Sound(found) && !Owns(found) && (c == Returned(Ok) ==> (bus.cmd.read <==> readSize > 0))
      ensures begun && !found.stage.Pending? ==>
                var data := old(Take(writeData, writeSize));
                && CutShort(found.trace, bus, Whole(address, Queued(found.tx, data), bus.cmd.read, bus.moved))
                && (c == Returned(Ok) ==>
                      && Fresh(bus) && bus.stage.Idle? && (writeSize > 0 ==> found.tx.Empty?)
                      && bus.trace == found.trace + Whole(address, data, bus.cmd.read, bus.moved) + [Stop]
                      && (readSize > 0 ==> |bus.moved| == readSize && got <= Bytes(found.rx) + bus.moved)
                      && (readSize > 0 && found.rx.Empty? ==> got == bus.moved && bus.rx.Empty?))
    {
      hide Follows, Tracks, Began, InTime, CutShort, Part, Whole, Queued;
      found, begun, got := bus, false, [];
      if !valid || address > 0x7f || (writeSize != 0 && writeData == null) || (readSize != 0 && readData == null) {
        return Returned(InvalidArgument), found, begun, got;
      }
      if writeSize > MAX_PHASE || readSize > MAX_PHASE { return Returned(Unsupported), found, begun, got; }
      if writeSize == 0 {
        c, found, begun, got := ReadTimeout(valid, address, readData, readSize, timeout);
        WholeOfOne(address, [], bus.moved);
        return;
      }
      if readSize == 0 {
        c, found, begun := WriteTimeout(valid, address, writeData, writeSize, timeout);
        WholeOfOne(address, Queued(found.tx, Take(writeData, writeSize)), bus.moved);
        return;
      }
      ghost var total, from := budget, clock.now;
      var w;
      ghost var begin;
      c, w, begin := Prepare(timeout, total);
      if c != Returned(Ok) { return; }
      c, found, got := WriteThenRead(address, writeData, writeSize, readData, readSize, w, begin, total, timeout, from);
      begun := true;
    }
  }
}
