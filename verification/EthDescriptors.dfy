/** Ethernet descriptors, frame buffers, and the addresses through which DMA reaches them. */
module EthDescriptors {
  import opened Results
  import opened Cache

  const SLOTS := 4
  const BUFFER_SIZE := 1536
  const BUFFER_LINES := 48
  const MIN_FRAME := 14
  const MAX_FRAME := 1518
  const DESCRIPTOR_SIZE := 32

  const OWN := 0x8000_0000
  const FIRST := 0x2000_0000
  const LAST := 0x1000_0000
  const BUFFER1_VALID := 0x0100_0000
  const ERROR_SUMMARY := 0x8000
  const LENGTH_LIMIT := 0x8000      // PL and TX FL are 15-bit fields
  const BUFFER1_LIMIT := 0x4000     // TX B1L is a 14-bit field

  type Block = b: seq<Byte> | |b| == LINE_SIZE witness seq(LINE_SIZE, _ => 0)

  const UNKNOWN: Block := [0, 0, 0, 0, 0, 0, 0, 0, 0, 0, 0, 0, 0, 0, 0, 0,
                           0, 0, 0, 0, 0, 0, 0, 0, 0, 0, 0, 0, 0, 0, 0, 0]

  /** The four words of a descriptor; its padding words are never read by either side. */
  datatype Descriptor = Descriptor(d0: Word, d1: Word, d2: Word, d3: Word)

  predicate Owned(d: Descriptor) { d.d3 >= OWN }
  predicate HasFirst(w: Word) { (w / FIRST) % 2 == 1 }
  predicate HasLast(w: Word) { (w / LAST) % 2 == 1 }
  predicate HasError(w: Word) { (w / ERROR_SUMMARY) % 2 == 1 }
  function FrameLength(w: Word): nat { w % LENGTH_LIMIT }

  /** Every bit of a status word that the driver reads, by its place in the word. */
  lemma StatusBits(w: Word)
    ensures w % 0x1_0000 == FrameLength(w) + (if HasError(w) then 0x8000 else 0)
    ensures (w / 0x1000_0000) % 4 == (if HasFirst(w) then 2 else 0) + (if HasLast(w) then 1 else 0)
    ensures w / 0x8000_0000 == (if Owned(Descriptor(0, 0, 0, w)) then 1 else 0)
  {
  }

  function SetWord(d: Descriptor, word: nat, value: Word): Descriptor
    requires word < 4
  {
    if word == 0 then d.(d0 := value) else if word == 1 then d.(d1 := value)
    else if word == 2 then d.(d2 := value) else d.(d3 := value)
  }

  type DescriptorLine = Line<Descriptor>
  type Buffer = seq<Line<Block>>

  ghost predicate BufferShape(b: Buffer) { |b| == BUFFER_LINES }

  ghost predicate Quiet(b: Buffer) {
    BufferShape(b) && forall k :: 0 <= k < BUFFER_LINES ==> !b[k].Dirty()
  }

  /** Memory content of the lines of a buffer, as DMA sees it. */
  function BlocksInMemory(b: Buffer): seq<Block> {
    seq(|b|, k requires 0 <= k < |b| => b[k].mem)
  }

  function ByteOf(blocks: seq<Block>, j: nat): Byte
    requires j < LINE_SIZE * |blocks|
  {
    blocks[j / LINE_SIZE][j % LINE_SIZE]
  }

  /** The first `length` bytes laid out in consecutive lines. */
  function Bytes(blocks: seq<Block>, length: nat): (r: seq<Byte>)
    requires length <= LINE_SIZE * |blocks|
    ensures |r| == length
  {
    seq(length, j requires 0 <= j < length => ByteOf(blocks, j))
  }

  function BufferAddress(base: int, slot: nat): int { base + BUFFER_SIZE * slot }

  /** The arrays are line-aligned and lie inside the address space with a line to spare. */
  ghost predicate Placed(descBase: int, bufBase: int) {
    && 0 < descBase && Aligned(descBase) && descBase + SLOTS * DESCRIPTOR_SIZE <= ADDRESS_MAX - LINE_SIZE
    && 0 < bufBase && Aligned(bufBase) && bufBase + SLOTS * BUFFER_SIZE <= ADDRESS_MAX - LINE_SIZE
  }

  function SlotAt(base: int, address: int): int { (address - base) / BUFFER_SIZE }
  function LineAt(base: int, address: int): int { ((address - base) % BUFFER_SIZE) / LINE_SIZE }
  predicate InBuffers(base: int, address: int) {
    base <= address < base + SLOTS * BUFFER_SIZE && (address - base) % LINE_SIZE == 0
  }

  lemma AddressDecodes(base: int, slot: nat, k: nat)
    requires slot < SLOTS && k < BUFFER_LINES
    ensures var a := BufferAddress(base, slot) + LINE_SIZE * k;
      InBuffers(base, a) && SlotAt(base, a) == slot && LineAt(base, a) == k
  {
    var offset := BUFFER_SIZE * slot + LINE_SIZE * k;
    assert offset / BUFFER_SIZE == slot && offset % BUFFER_SIZE == LINE_SIZE * k;
  }

  /** One line of one of the buffers, addressed as DMA addresses it; what lies outside them is not modelled. */
  function BlockAt(base: int, bufs: seq<Buffer>, address: int): Block {
    if InBuffers(base, address) && SlotAt(base, address) < |bufs| && LineAt(base, address) < |bufs[SlotAt(base, address)]|
    then bufs[SlotAt(base, address)][LineAt(base, address)].mem
    else UNKNOWN
  }

  /** The 48 lines DMA finds at an address. */
  function BlocksAt(base: int, bufs: seq<Buffer>, address: int): (r: seq<Block>)
    ensures |r| == BUFFER_LINES
  {
    seq(BUFFER_LINES, k requires 0 <= k < BUFFER_LINES => BlockAt(base, bufs, address + LINE_SIZE * k))
  }

  lemma BlocksAtSlot(base: int, bufs: seq<Buffer>, slot: nat)
    requires |bufs| == SLOTS && slot < SLOTS && BufferShape(bufs[slot])
    ensures BlocksAt(base, bufs, BufferAddress(base, slot)) == BlocksInMemory(bufs[slot])
  {
    forall k | 0 <= k < BUFFER_LINES
      ensures BlocksAt(base, bufs, BufferAddress(base, slot))[k] == BlocksInMemory(bufs[slot])[k]
    {
      AddressDecodes(base, slot, k);
    }
  }
}
