/**
 The status flags of eight streams, packed four to a 32-bit register. A register is the set of its set bits:
 a mask is a set of bit numbers, a shift adds to them.
 */
module DmaFlags {
  type Bits = set<nat>

  const ALL_FLAGS: Bits := {0, 2, 3, 4, 5}   // 0x3d
  const TRANSFER_ERROR := 3                  // 0x08
  const TRANSFER_COMPLETE := 5               // 0x20

  function FlagShift(stream: nat): nat {
    var g := stream % 4;
    if g == 0 then 0 else if g == 1 then 6 else if g == 2 then 16 else 22
  }

  predicate IsShift(s: nat) { s in {0, 6, 16, 22} }

  function ShiftUp(flags: Bits, s: nat): (r: Bits)
    ensures forall b :: b in r <==> b >= s && b - s in flags
  {
    set b | b in flags :: b + s
  }

  /** (word >> s) & ALL_FLAGS */
  function GroupAt(word: Bits, s: nat): Bits {
    set b | b in ALL_FLAGS && b + s in word
  }

  /** Writing ALL_FLAGS << s to the clear register. */
  function ClearAt(word: Bits, s: nat): Bits {
    word - ShiftUp(ALL_FLAGS, s)
  }

  function RaiseAt(word: Bits, s: nat, flags: Bits): Bits {
    word + ShiftUp(flags * ALL_FLAGS, s)
  }

  lemma GroupsDoNotOverlap(s: nat, t: nat, b: nat)
    requires IsShift(s) && IsShift(t) && b in ALL_FLAGS
    ensures b + t in ShiftUp(ALL_FLAGS, s) <==> s == t
  {
  }

  /** Clearing one group changes that group alone. */
  lemma ClearingIsLocal(word: Bits, s: nat, t: nat)
    requires IsShift(s) && IsShift(t)
    ensures GroupAt(ClearAt(word, s), t) == if s == t then {} else GroupAt(word, t)
  {
    forall b | b in ALL_FLAGS ensures b in GroupAt(ClearAt(word, s), t) <==> s != t && b in GroupAt(word, t) {
      GroupsDoNotOverlap(s, t, b);
    }
  }

  /** So does raising flags in it. */
  lemma RaisingIsLocal(word: Bits, s: nat, t: nat, flags: Bits)
    requires IsShift(s) && IsShift(t)
    ensures GroupAt(RaiseAt(word, s, flags), t) == if s == t then GroupAt(word, t) + flags * ALL_FLAGS else GroupAt(word, t)
  {
    forall b | b in ALL_FLAGS
      ensures b in GroupAt(RaiseAt(word, s, flags), t) <==> b in GroupAt(word, t) || (s == t && b in flags)
    {
      GroupsDoNotOverlap(s, t, b);
    }
  }

  predicate Terminal(flags: Bits) { TRANSFER_ERROR in flags || TRANSFER_COMPLETE in flags }
}
