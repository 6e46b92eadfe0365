/**
 One DMA1 controller with its eight streams: allocation, configuration and transfer state. A live handle has
 one owner; the hardware may act between any two register accesses.
 */
module DmaController {
  import opened Results
  import opened DmaHandle
  import opened DmaAllocator
  import opened DmaFlags
  import opened TimeBase

  const MAX_COUNT := 0xffff
  const DISABLE_SPINS := 100_000
  const REQUEST_LIMIT := 0x80      // DMAREQ_ID is a 7-bit field

  datatype Direction = PeripheralToMemory | MemoryToPeripheral | MemoryToMemory

  datatype Config = Config(direction: Direction, sourceWidth: nat, destinationWidth: nat,
                           sourceIncrement: bool, destinationIncrement: bool)

  datatype State = Idle | Busy | Complete | Error

  /** The stream control fields: DIR, PINC, MINC, PSIZE, MSIZE. */
  datatype Control = Control(dir: nat, pinc: bool, minc: bool, psize: nat, msize: nat)

  datatype Stream = Stream(enabled: bool, control: Control, count: Word, par: Word, m0ar: Word, request: nat)

  /** PSIZE and MSIZE select 1, 2 or 4 bytes. */
  function BytesOf(size: nat): nat { if size == 0 then 1 else if size == 1 then 2 else if size == 2 then 4 else 0 }

  /** What the stream moves, whichever register the driver put it in: DIR 1 reads memory, the others read PAR. */
  datatype Flow = Flow(source: Word, destination: Word, sourceIncrement: bool, destinationIncrement: bool,
                       sourceBytes: nat, destinationBytes: nat)

  function FlowOf(s: Stream): Flow {
    var c := s.control;
    if c.dir == 1 then Flow(s.m0ar, s.par, c.minc, c.pinc, BytesOf(c.msize), BytesOf(c.psize))
    else Flow(s.par, s.m0ar, c.pinc, c.minc, BytesOf(c.psize), BytesOf(c.msize))
  }

  predicate WidthValid(w: nat) { w == 1 || w == 2 || w == 4 }
  function WidthCode(w: nat): nat { if w == 2 then 1 else if w == 4 then 2 else 0 }
  predicate ConfigValid(c: Config) {
    WidthValid(c.sourceWidth) && WidthValid(c.destinationWidth) && c.sourceWidth == c.destinationWidth
  }

  predicate AddressAligned(address: Word, width: nat)
    requires WidthValid(width)
  {
    address % width == 0
  }

  datatype HardwareEvent = Raise(stream: nat, flags: Bits) | Stop(stream: nat) | Count(stream: nat, left: Word)

  /** Streams 0..3 keep their flags in the low register, 4..7 in the high one. */
  function StreamFlags(low: Bits, high: Bits, i: nat): Bits {
    GroupAt(if i < 4 then low else high, FlagShift(i))
  }

  /** The bits of LISR and HISR that belong to a stream: five of every six, from bit 0, 6, 16 and 22. */
  lemma FlagPlaces(low: Bits, high: Bits, i: nat, bit: nat)
    requires i < STREAMS
    ensures bit in StreamFlags(low, high, i) <==>
              && bit in {0, 2, 3, 4, 5}
              && bit + 6 * (i % 2) + 16 * (i / 2 % 2) in (if i < 4 then low else high)
  {
  }

  /** A write for stream i leaves the flags of every other stream alone, in its own register and in the other. */
  lemma RegisterKeepsGroups(low: Bits, high: Bits, i: nat, j: nat, flags: Bits)
    requires i < STREAMS && j < STREAMS
    ensures var s := FlagShift(i);
      var raisedLow, raisedHigh := if i < 4 then RaiseAt(low, s, flags) else low, if i < 4 then high else RaiseAt(high, s, flags);
      var clearedLow, clearedHigh := if i < 4 then ClearAt(low, s) else low, if i < 4 then high else ClearAt(high, s);
      && StreamFlags(raisedLow, raisedHigh, j) == StreamFlags(low, high, j) + (if i == j then flags * ALL_FLAGS else {})
      && StreamFlags(clearedLow, clearedHigh, j) == (if i == j then {} else StreamFlags(low, high, j))
  {
    hide GroupAt, RaiseAt, ClearAt;
    RaisingIsLocal(if j < 4 then low else high, FlagShift(i), FlagShift(j), flags);
    ClearingIsLocal(if j < 4 then low else high, FlagShift(i), FlagShift(j));
  }

  /** What a poll reports for these flags. */
  function Report(flags: Bits, active: bool): State {
    if TRANSFER_ERROR in flags then Error else if TRANSFER_COMPLETE in flags then Complete else if active then Busy else Idle
  }

  /** The driver's and the hardware's state of one stream. */
  datatype Channel = Channel(configured: bool, active: bool, config: Config, stream: Stream)

  /**
   All streams at one moment. `raised` are the flags the hardware raised in a stream since the driver last
   cleared it, `since` those it raised since the last start's clear; `started` is an Ok start not yet followed
   by configure, abort, release or acquire; `stuck` counts the times a stream refused to stop within the spin limit.
   */
  datatype Snapshot = Snapshot(channels: seq<Channel>, raised: seq<Bits>, since: seq<Bits>, started: seq<bool>, stuck: nat)

  ghost predicate Full(s: Snapshot) {
    |s.channels| == |s.raised| == |s.since| == |s.started| == STREAMS
  }

  /** Only the hardware acted on the stream: it stopped it, or counted down while it ran. */
  predicate Evolved(p: Channel, q: Channel) {
    && q == p.(stream := p.stream.(enabled := q.stream.enabled, count := q.stream.count))
    && (q.stream.enabled ==> p.stream.enabled)
    && q.stream.count <= p.stream.count && (!p.stream.enabled ==> q.stream.count == p.stream.count)
  }

  /** The driver acted on stream i at most; on the others the hardware may have moved on and raised flags. */
  ghost predicate Touches(a: Snapshot, b: Snapshot, i: nat) {
    && Full(a) && Full(b) && a.stuck <= b.stuck
    && forall j :: 0 <= j < STREAMS && j != i ==>
         Evolved(a.channels[j], b.channels[j]) && b.started[j] == a.started[j] && a.raised[j] <= b.raised[j]
         && a.since[j] <= b.since[j]
  }

  lemma TouchesCompose(a: Snapshot, b: Snapshot, c: Snapshot, i: nat)
    requires Touches(a, b, i) || Touches(a, b, STREAMS)
    requires Touches(b, c, i) || Touches(b, c, STREAMS)
    ensures Touches(a, c, i)
    ensures Touches(a, b, STREAMS) && Touches(b, c, STREAMS) ==> Touches(a, c, STREAMS)
  {
  }

  class Controller {
    var book: Book
    var channels: seq<Channel>
    var lisr: Bits
    var hisr: Bits
    ghost var raised: seq<Bits>
    ghost var since: seq<Bits>
    ghost var started: seq<bool>
    ghost var stuck: nat
    ghost var spins: nat           // looks of the current stop, when none has shown the stream stopped
    ghost var reported: State      // what the last poll reported, and how many there were
    ghost var polled: nat

    function Flags(i: nat): Bits
      reads this
    {
      StreamFlags(lisr, hisr, i)
    }

    ghost function Now(): Snapshot
      reads this
    {
      Snapshot(channels, raised, since, started, stuck)
    }

    ghost predicate Valid()
      reads this
    {
      && Shape(book) && BookOk(book) && Full(Now())
      && forall i :: 0 <= i < STREAMS ==>
           && Flags(i) == raised[i]
           && (channels[i].configured ==>
                 ConfigValid(channels[i].config) && channels[i].stream.control == ControlFor(channels[i].config))
           && (!book.claimed[i] ==> !channels[i].stream.enabled)
           && (started[i] ==> book.claimed[i] && raised[i] == since[i] && (channels[i].active || Terminal(raised[i])))
    }

    constructor ()
      ensures Valid() && book == START && stuck == 0 && forall i :: 0 <= i < STREAMS ==> !channels[i].stream.enabled
    {
      book := START;
      channels := Zeros(Channel(false, false, Config(PeripheralToMemory, 0, 0, false, false),
                                Stream(false, Control(0, false, false, 0, 0), 0, 0, 0, 0)));
      lisr, hisr, stuck, spins, reported, polled := {}, {}, 0, 0, Idle, 0;
      raised, since, started := Zeros({}), Zeros({}), Zeros(false);
      RunKeepsBook([]);
    }

    // ---------- Hardware ----------

    method RaiseFlags(i: nat, flags: Bits)
      requires Valid() && i < STREAMS
      modifies `lisr, `hisr, `raised, `since
      ensures Valid() && Touches(old(Now()), Now(), STREAMS)
    {
      var s := FlagShift(i);
      ghost var low, high := lisr, hisr;
      if i < 4 { lisr := RaiseAt(lisr, s, flags); } else { hisr := RaiseAt(hisr, s, flags); }
      raised := raised[i := raised[i] + flags * ALL_FLAGS];
      since := since[i := since[i] + flags * ALL_FLAGS];
      forall j | 0 <= j < STREAMS ensures Flags(j) == raised[j] {
        RegisterKeepsGroups(low, high, i, j, flags);
      }
    }

    method HardwareStep(e: HardwareEvent)
      requires Valid()
      modifies `channels, `lisr, `hisr, `raised, `since
      ensures Valid() && Touches(old(Now()), Now(), STREAMS)
    {
      hide BookOk, StreamFlags, Matches, Step;
      match e {
        case Raise(i, flags) =>
          if i < STREAMS { RaiseFlags(i, flags); }
        case Stop(i) =>
          if i < STREAMS {
            channels := channels[i := channels[i].(stream := channels[i].stream.(enabled := false))];
          }
        case Count(i, left) =>
          if i < STREAMS && channels[i].stream.enabled && left <= channels[i].stream.count {
            channels := channels[i := channels[i].(stream := channels[i].stream.(count := left))];
          }
      }
    }

    /** Any amount of hardware activity on any stream. */
    method Hardware()
      requires Valid()
      modifies `channels, `lisr, `hisr, `raised, `since
      ensures Valid() && Touches(old(Now()), Now(), STREAMS)
    {
      hide BookOk, StreamFlags, Matches, Step;
      var n: nat := *;
      while n > 0
        invariant Valid() && Touches(old(Now()), Now(), STREAMS)
      {
        var e: HardwareEvent := *;
        ghost var before := Now();
        HardwareStep(e);
        TouchesCompose(old(Now()), before, Now(), STREAMS);
        n := n - 1;
      }
    }

    /** LIFCR or HIFCR. */
    method ClearStreamFlags(i: nat)
      requires Valid() && i < STREAMS && !started[i]
      modifies `channels, `lisr, `hisr, `raised, `since
      ensures Valid() && Touches(old(Now()), Now(), i) && raised[i] == {}
      ensures Evolved(old(channels[i]), channels[i]) && started == old(started) && stuck == old(stuck)
    {
      Hardware();
      var s := FlagShift(i);
      ghost var low, high := lisr, hisr;
      if i < 4 { lisr := ClearAt(lisr, s); } else { hisr := ClearAt(hisr, s); }
      raised := raised[i := {}];
      forall j | 0 <= j < STREAMS ensures Flags(j) == raised[j] {
        RegisterKeepsGroups(low, high, i, j, {});
      }
    }

    // ---------- Driver ----------

    function StreamEnabled(i: nat): bool
      requires i < |channels|
      reads this
    {
      channels[i].stream.enabled
    }

    /** One look at EN. */
    method LookStopped(i: nat) returns (stopped: bool)
      requires Valid() && i < STREAMS
      modifies `channels, `lisr, `hisr, `raised, `since, `spins
      ensures Valid() && Touches(old(Now()), Now(), STREAMS) && stuck == old(stuck)
      ensures stopped == !StreamEnabled(i) && spins == if stopped then 0 else old(spins) + 1
    {
      Hardware();
      stopped := !StreamEnabled(i);
      spins := if stopped then 0 else spins + 1;
    }

    /** Asks the stream to stop and spins until it has. */
    method StopStream(i: nat) returns (r: Status)
      requires Valid() && i < STREAMS
      modifies `channels, `lisr, `hisr, `raised, `since, `stuck, `spins
      ensures Valid() && Touches(old(Now()), Now(), STREAMS)
      ensures r == Ok || (r == Timeout && stuck == old(stuck) + 1 && StreamEnabled(i) && spins == DISABLE_SPINS)
      ensures r == Ok ==> !StreamEnabled(i) && stuck == old(stuck)
    {
      hide BookOk, StreamFlags, Matches, Step;
      Hardware();
      spins := 0;
      var spin := 0;
      while spin < DISABLE_SPINS
        invariant Valid() && Touches(old(Now()), Now(), STREAMS) && stuck == old(stuck)
        invariant 0 <= spin <= DISABLE_SPINS && spins == spin && (spin > 0 ==> StreamEnabled(i))
      {
        ghost var before := Now();
        var stopped := LookStopped(i);
        TouchesCompose(old(Now()), before, Now(), STREAMS);
        if stopped {
          return Ok;
        }
        spin := spin + 1;
      }
      stuck := stuck + 1;
      return Timeout;
    }

    /** A newly claimed stream starts unconfigured, idle and without stale flags. */
    method GrantStream(i: nat)
      requires Valid() && i < STREAMS && !started[i]
      modifies `channels, `lisr, `hisr, `raised, `since
      ensures Valid() && Touches(old(Now()), Now(), i) && !channels[i].active && !channels[i].configured && raised[i] == {}
      ensures channels[i].stream.request == 0 && (old(!StreamEnabled(i)) ==> !StreamEnabled(i))
    {
      hide StreamFlags, Matches, BookOk, Step;
      channels := channels[i := channels[i].(configured := false, active := false)];
      ClearStreamFlags(i);
      channels := channels[i := channels[i].(stream := channels[i].stream.(request := 0))];
    }

    method Acquire() returns (r: Status, h: Word)
      requires Valid()
      modifies this
      ensures Valid() && stuck == old(stuck)
      ensures book == Step(old(book), AcquireSection).0
      ensures r == Ok ==>
                && Step(old(book), AcquireSection).1 == Granted(h) && Accepts(book, h)
                && book == Claim(old(book), Index(h)) && !old(book).claimed[Index(h)]
                && Touches(old(Now()), Now(), Index(h)) && !channels[Index(h)].active && !channels[Index(h)].configured
                && channels[Index(h)].stream.request == 0 && raised[Index(h)] == {} && !StreamEnabled(Index(h))
      ensures r != Ok ==> r == NotReady && h == INVALID && book == old(book) && unchanged(this)
      ensures r != Ok <==> forall i :: 0 <= i < STREAMS ==> old(book).claimed[i]
    {
      hide StreamFlags, Matches, MakeHandle, BookOk, Step;
      h := INVALID;
      AcquireOutcome(book);
      StepKeepsBook(book, AcquireSection);
      var (next, reply) := Step(book, AcquireSection);
      if reply == Refused {
        return NotReady, h;
      }
      h := reply.h;
      var i := Index(h);
      assert !StreamEnabled(i);
      book := next;
      GrantStream(i);
      return Ok, h;
    }

    /** Stops a stream and forgets its transfer, leaving the bookkeeping to the caller. */
    method CloseStream(i: nat) returns (r: Status)
      requires Valid() && i < STREAMS
      modifies this
      ensures Valid() && book == old(book) && Touches(old(Now()), Now(), i)
      ensures r == Ok || (r == Timeout && stuck == old(stuck) + 1 && StreamEnabled(i) && spins == DISABLE_SPINS)
      ensures r == Ok ==> stuck == old(stuck) && !StreamEnabled(i) && !started[i]
      ensures Evolved(old(channels[i]), channels[i]) && reported == old(reported) && polled == old(polled)
    {
      hide BookOk, StreamFlags, Matches, Step;
      r := StopStream(i);
      if r != Ok { return; }
      started := started[i := false];
      ClearStreamFlags(i);
    }

    method Release(h: Word) returns (r: Status)
      requires Valid()
      modifies this
      ensures Valid()
      ensures !Accepts(old(book), h) ==> r == InvalidArgument && unchanged(this)
      ensures Accepts(old(book), h) ==>
                && Touches(old(Now()), Now(), Index(h))
                && (r == Ok || (r == Timeout && stuck == old(stuck) + 1 && StreamEnabled(Index(h)) && spins == DISABLE_SPINS))
      ensures r == Ok ==> book == Step(old(book), ReleaseSection(h)).0 && stuck == old(stuck) && !StreamEnabled(Index(h))
                          && !channels[Index(h)].active && !channels[Index(h)].configured && channels[Index(h)].stream.request == 0
      ensures r != Ok ==> book == old(book)
    {
      hide BookOk, StreamFlags, Matches;
      if !Accepts(book, h) {
        return InvalidArgument;
      }
      var i := Index(h);
      r := CloseStream(i);
      if r != Ok { return; }
      channels := channels[i := channels[i].(stream := channels[i].stream.(request := 0))];
      // The second handle check of the critical section: with one owner nothing has changed since the first.
      StepKeepsBook(book, ReleaseSection(h));
      channels := channels[i := channels[i].(active := false, configured := false)];
      book := Step(book, ReleaseSection(h)).0;
    }

    method IsValid(h: Word) returns (valid: bool)
      requires Valid()
      ensures valid == Accepts(book, h)
    {
      valid := Matches(h, book.generation[Index(h)], book.claimed[Index(h)]);
    }

    method SetRequest(h: Word, request: Word) returns (r: Status)
      requires Valid()
      modifies `channels, `lisr, `hisr, `raised, `since
      ensures Valid()
      ensures !Accepts(book, h) || request >= 128 ==> r == InvalidArgument && unchanged(this)
      ensures Accepts(book, h) && request < 128 ==>
                && Touches(old(Now()), Now(), Index(h)) && r in {Ok, NotReady}
                && (r == NotReady ==> old(StreamEnabled(Index(h))))
                && (r == Ok ==> !StreamEnabled(Index(h)) && channels[Index(h)].stream.request == request)
                && var p, q := old(channels[Index(h)]), channels[Index(h)];
                   Evolved(p.(stream := p.stream.(request := q.stream.request)), q)
    {
      hide BookOk, StreamFlags, Matches, Step;
      if !Accepts(book, h) || request >= REQUEST_LIMIT {
        return InvalidArgument;
      }
      var i := Index(h);
      Hardware();
      if StreamEnabled(i) {
        return NotReady;
      }
      channels := channels[i := channels[i].(stream := channels[i].stream.(request := request))];
      Hardware();
      return Ok;
    }

    /** The CR fields for a configuration: peripheral and memory side swap with the direction. */
    static function ControlFor(c: Config): Control {
      match c.direction
      case PeripheralToMemory =>
        Control(0, c.sourceIncrement, c.destinationIncrement, WidthCode(c.sourceWidth), WidthCode(c.destinationWidth))
      case MemoryToPeripheral =>
        Control(1, c.destinationIncrement, c.sourceIncrement, WidthCode(c.destinationWidth), WidthCode(c.sourceWidth))
      case MemoryToMemory =>
        Control(2, c.sourceIncrement, c.destinationIncrement, WidthCode(c.sourceWidth), WidthCode(c.destinationWidth))
    }

    method ProgramStream(i: nat, c: Config)
      requires Valid() && i < STREAMS && ConfigValid(c)
      modifies `channels, `lisr, `hisr, `raised, `since, `started
      ensures Valid() && Touches(old(Now()), Now(), i)
      ensures var ch := channels[i];
        && ch.configured && ch.config == c && !ch.active && !ch.stream.enabled && ch.stream.control == ControlFor(c)
    {
      hide BookOk, StreamFlags, Matches, Step;
      // The hardware does not see the driver's copy of the configuration: it is kept with the registers it describes.
      channels := channels[i := channels[i].(
        config := c, stream := Stream(false, ControlFor(c), 0, 0, 0, channels[i].stream.request))];
      started := started[i := false];
      ClearStreamFlags(i);
      channels := channels[i := channels[i].(active := false, configured := true)];
    }

    method Configure(h: Word, c: Config) returns (r: Status)
      requires Valid()
      modifies this
      ensures Valid() && book == old(book) && stuck == old(stuck)
      ensures !Accepts(book, h) || c.sourceWidth != c.destinationWidth || c.sourceWidth !in {1, 2, 4} ==>
                r == InvalidArgument && unchanged(this)
      ensures Accepts(book, h) && c.sourceWidth == c.destinationWidth && c.sourceWidth in {1, 2, 4} ==>
                && Touches(old(Now()), Now(), Index(h)) && r in {Ok, NotReady}
                && (r == NotReady ==> old(StreamEnabled(Index(h))))
      ensures r == Ok ==>
                var ch := channels[Index(h)];
                && ch.configured && ch.config == c && !ch.active && !ch.stream.enabled && ch.stream.request == 0
                && ch.stream.control == ControlFor(c)
    {
      hide BookOk, StreamFlags, Matches, Step;
      if !Accepts(book, h) || !ConfigValid(c) {
        return InvalidArgument;
      }
      var i := Index(h);
      Hardware();
      if StreamEnabled(i) {
        return NotReady;
      }
      ProgramStream(i, c);
      r := SetRequest(h, 0);
    }

    /** The addresses go where the direction needs them. */
    method LoadStream(i: nat, source: Word, destination: Word, count: Word)
      requires Valid() && i < STREAMS && channels[i].configured
      modifies `channels
      ensures Valid() && Touches(old(Now()), Now(), i)
      ensures channels[i] == old(channels[i]).(stream := channels[i].stream)
      ensures channels[i].stream.control == old(channels[i].stream.control) && channels[i].stream.count == count
      ensures channels[i].stream.enabled == old(channels[i].stream.enabled)
      ensures var c := channels[i].config;
        FlowOf(channels[i].stream)
        == Flow(source, destination, c.sourceIncrement, c.destinationIncrement, c.sourceWidth, c.destinationWidth)
    {
      hide BookOk, StreamFlags, Matches, Step;
      var par, m0ar := source, destination;
      if channels[i].config.direction == MemoryToPeripheral {
        par, m0ar := destination, source;
      }
      channels := channels[i := channels[i].(stream := channels[i].stream.(count := count, par := par, m0ar := m0ar))];
    }

    /** Old flags go before a transfer starts: from here on the stream's flags are this transfer's. */
    method ClearForStart(i: nat)
      requires Valid() && i < STREAMS
      modifies `channels, `lisr, `hisr, `raised, `since, `started
      ensures Valid() && Touches(old(Now()), Now(), i) && raised[i] == since[i] == {} && !started[i]
      ensures Evolved(old(channels[i]), channels[i]) && stuck == old(stuck)
    {
      hide BookOk, StreamFlags, Matches, Step;
      started := started[i := false];
      ClearStreamFlags(i);
      since := since[i := {}];
    }

    method EnableStream(i: nat)
      requires Valid() && i < STREAMS && channels[i].configured && book.claimed[i] && !StreamEnabled(i) && raised[i] == since[i]
      modifies `channels, `lisr, `hisr, `raised, `since, `started
      ensures Valid() && Touches(old(Now()), Now(), i) && started[i]
      ensures channels[i] == old(channels[i]).(active := true, stream := old(channels[i].stream).(enabled := true))
    {
      hide BookOk, StreamFlags, Matches, Step;
      channels := channels[i := channels[i].(active := true)];
      started := started[i := true];
      Hardware();
      channels := channels[i := channels[i].(stream := channels[i].stream.(enabled := true))];
    }

    /** Clears the old flags first, then enables the stream: flags seen later belong to this transfer. */
    method StartStream(i: nat, source: Word, destination: Word, count: Word)
      requires Valid() && i < STREAMS && channels[i].configured && book.claimed[i] && !StreamEnabled(i)
      modifies `channels, `lisr, `hisr, `raised, `since, `started
      ensures Valid() && Touches(old(Now()), Now(), i)
      ensures started[i] && channels[i].active && channels[i].configured && channels[i].config == old(channels[i].config)
      ensures StreamEnabled(i) && channels[i].stream.count == count
      ensures var c := channels[i].config;
        FlowOf(channels[i].stream)
        == Flow(source, destination, c.sourceIncrement, c.destinationIncrement, c.sourceWidth, c.destinationWidth)
    {
      hide BookOk, StreamFlags, Matches, Step, ControlFor;
      ClearForStart(i);
      LoadStream(i, source, destination, count);
      EnableStream(i);
    }

    /**
     Starts a transfer. Whatever the direction, the stream then moves data from `source` to `destination`; the
     transfer counts as busy until the hardware raises a terminal flag after this call's clear.
     */
    method Start(h: Word, source: Word, destination: Word, count: nat) returns (r: Status)
      requires Valid()
      modifies this
      ensures Valid() && book == old(book) && stuck == old(stuck)
      ensures r == InvalidArgument ==> unchanged(this)
      ensures r == InvalidArgument <==>
                || !Accepts(book, h) || !old(channels[Index(h)].configured)
                || source == 0 || destination == 0 || !(1 <= count <= 65535)
                || !AddressAligned(source, old(channels[Index(h)].config.sourceWidth))
                || !AddressAligned(destination, old(channels[Index(h)].config.destinationWidth))
      ensures r != InvalidArgument ==>
                && Touches(old(Now()), Now(), Index(h)) && r in {Ok, NotReady}
                && (r == NotReady ==> old(StreamEnabled(Index(h)) || channels[Index(h)].active))
                && (r == Ok ==> !old(channels[Index(h)].active))
      ensures r == Ok ==>
                var ch := channels[Index(h)];
                && started[Index(h)] && ch.active && ch.configured && ch.config == old(channels[Index(h)].config)
                && ch.stream.enabled && ch.stream.count == count
                && FlowOf(ch.stream) == Flow(source, destination, ch.config.sourceIncrement, ch.config.destinationIncrement,
                                             ch.config.sourceWidth, ch.config.destinationWidth)
    {
      hide BookOk, StreamFlags, Step;
      if !Accepts(book, h) {
        return InvalidArgument;
      }
      var i := Index(h);
      var c := channels[i].config;
      if !channels[i].configured || source == 0 || destination == 0 || count == 0 {
        return InvalidArgument;
      }
      if count > MAX_COUNT {
        return InvalidArgument;
      }
      if !AddressAligned(source, c.sourceWidth) || !AddressAligned(destination, c.destinationWidth) {
        return InvalidArgument;
      }
      Hardware();
      if StreamEnabled(i) || channels[i].active {
        return NotReady;
      }
      StartStream(i, source, destination, count);
      return Ok;
    }

    /**
     Polls a transfer. A started one is never reported idle; complete and error are reported exactly from flags
     the hardware raised since the start's clear, and once such a flag is up the report stays terminal.
     */
    method GetState(h: Word) returns (r: Status, state: State)
      requires Valid()
      modifies `channels, `lisr, `hisr, `raised, `since, `reported, `polled
      ensures Valid()
      ensures !Accepts(book, h) ==> r == InvalidArgument && unchanged(this)
      ensures Accepts(book, h) ==> reported == state && polled == old(polled) + 1
      ensures Accepts(book, h) ==>
                state == if 3 in raised[Index(h)] then Error else if 5 in raised[Index(h)] then Complete
                         else if old(channels[Index(h)].active) then Busy else Idle
      ensures Accepts(book, h) ==>
                var i := Index(h);
                && r == Ok && Touches(old(Now()), Now(), i) && state == Report(raised[i], old(channels[i].active))
                && (started[i] ==> state == Report(since[i], old(channels[i].active)))
                && old(raised[i]) <= raised[i]
                && Evolved(old(channels[i]).(active := channels[i].active), channels[i])
                && (started[i] ==> state != Idle)
                && (old(Terminal(raised[i])) ==> state in {Complete, Error})
                && channels[i].active == (old(channels[i].active) && state == Busy)
    {
      hide BookOk, StreamFlags, Matches, Step;
      state := Idle;
      if !Accepts(book, h) {
        return InvalidArgument, state;
      }
      var i := Index(h);
      Hardware();
      var flags := Flags(i);
      state := Report(flags, channels[i].active);
      if state == Error || state == Complete {
        channels := channels[i := channels[i].(active := false)];
      }
      reported, polled := state, polled + 1;
      return Ok, state;
    }

    /**
     Waits for a transfer. It reports success and failure from the flags of this transfer alone, and a timeout
     only once the time has passed; a started transfer is never found idle.
     */
    method WaitTimeout(h: Word, timeout: Word, clock: TimeSource, budget: nat) returns (c: Call)
      requires Valid()
      modifies this, clock`now
      ensures Valid() && book == old(book)
      ensures c == Returned(InvalidArgument) <==> !Accepts(book, h) || (timeout != FOREVER && timeout > MAX_INTERVAL)
      ensures c == Returned(InvalidArgument) ==> unchanged(this)
      ensures Accepts(book, h) ==> Touches(old(Now()), Now(), Index(h)) && c != Returned(Unsupported)
      ensures c == Returned(Ok) ==> TRANSFER_COMPLETE in raised[Index(h)] && TRANSFER_ERROR !in raised[Index(h)]
      ensures old(started[Index(h)]) && c == Returned(Ok) ==> TRANSFER_COMPLETE in since[Index(h)]
      ensures c == Returned(IoError) ==> TRANSFER_ERROR in raised[Index(h)]
      ensures c == Returned(NotReady) ==>
                || (timeout <= MAX_INTERVAL && !clock.installed)
                || (reported == Idle && polled > old(polled) && !old(started[Index(h)]) && !channels[Index(h)].active)
      ensures c == Returned(Timeout) ==> reported == Busy && polled > old(polled)
      ensures c == Returned(Timeout) ==> timeout <= MAX_INTERVAL && clock.now - old(clock.now) >= timeout
                                         && (stuck == old(stuck) + 1 || (!started[Index(h)] && !channels[Index(h)].active))
      ensures c == Polling ==> timeout == FOREVER || !clock.steady || budget < timeout || budget == 0
      ensures c == Polling ==> polled == old(polled) + budget && (budget > 0 ==> reported == Busy)
    {
      hide BookOk, StreamFlags, Matches, Step;
      if !Accepts(book, h) {
        return Returned(InvalidArgument);
      }
      var r, w, begin := PrepareWait(clock, timeout);
      if r != Ok {
        return Returned(r);
      }
      var i := Index(h);
      var polls := 0;
      while polls < budget
        invariant Valid() && book == old(book) && Touches(old(Now()), Now(), i) && started[i] == old(started[i])
        invariant stuck == old(stuck) && polled == old(polled) + polls && (polls > 0 ==> reported == Busy)
        invariant polls <= budget && Began(w, clock, begin) && InTime(w, clock, begin, polls)
      {
        ghost var before := Now();
        var status, state := GetState(h);
        TouchesCompose(old(Now()), before, Now(), i);
        if status != Ok {
          assert false;      // the driver's exit for a handle that went stale
        }
        if state == Complete { return Returned(Ok); }
        if state == Error { return Returned(IoError); }
        if state == Idle { return Returned(NotReady); }
        var expired := Expired(clock, w, begin, polls);
        if expired {
          before := Now();
          var aborted := Abort(h);
          TouchesCompose(old(Now()), before, Now(), i);
          return Returned(Timeout);
        }
        polls := polls + 1;
      }
      return Polling;
    }

    /** NDTR as it stands: never more than the transfer was started with. */
    method GetRemaining(h: Word) returns (r: Status, remaining: nat)
      requires Valid()
      modifies `channels, `lisr, `hisr, `raised, `since
      ensures Valid()
      ensures !Accepts(book, h) ==> r == InvalidArgument && remaining == 0 && unchanged(this)
      ensures Accepts(book, h) ==>
                && r == Ok && Touches(old(Now()), Now(), STREAMS)
                && remaining == channels[Index(h)].stream.count <= old(channels[Index(h)].stream.count)
    {
      hide BookOk, StreamFlags, Matches, Step;
      if !Accepts(book, h) {
        return InvalidArgument, 0;
      }
      Hardware();
      return Ok, channels[Index(h)].stream.count;
    }

    /** Line k stands for the interrupt of stream k. */
    method GetIrq(h: Word) returns (r: Status, line: nat)
      requires Valid()
      ensures !Accepts(book, h) ==> r == InvalidArgument
      ensures Accepts(book, h) ==> r == Ok && line == Index(h)
    {
      if !Accepts(book, h) {
        return InvalidArgument, 0;
      }
      return Ok, Index(h);
    }

    method Abort(h: Word) returns (r: Status)
      requires Valid()
      modifies this
      ensures Valid() && book == old(book)
      ensures !Accepts(book, h) ==> r == InvalidArgument && unchanged(this)
      ensures Accepts(book, h) ==>
                && Touches(old(Now()), Now(), Index(h))
                && (r == Ok || (r == Timeout && stuck == old(stuck) + 1 && StreamEnabled(Index(h)) && spins == DISABLE_SPINS))
      ensures reported == old(reported) && polled == old(polled)
      ensures r == Ok ==> stuck == old(stuck) && !channels[Index(h)].active && !started[Index(h)]
    {
      hide BookOk, StreamFlags, Matches, Step;
      if !Accepts(book, h) {
        return InvalidArgument;
      }
      var i := Index(h);
      r := CloseStream(i);
      if r != Ok { return; }
      channels := channels[i := channels[i].(active := false)];
    }
  }
}
