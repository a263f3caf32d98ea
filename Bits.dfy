/** 32-bit register words.

    A word is represented by the set of the positions of its one bits, which
    makes the C bitwise idioms of the drivers set operations:

      `w | m`   is `w + m`          `w & ~m`  is `w - m`
      `w & m`   is `w * m`          `1 << k`  is `{k}` (k < 32)
      `p << k`  is `Shl(p, k)`      `0`       is `{}`

    A hexadecimal constant of the drivers is written as the set of its one bits,
    with the constant beside it. */
module Bits {

  /** A bit position of a 32-bit word. */
  type BitIndex = i: nat | i < 32

  /** A 32-bit word, as the set of positions of its one bits. */
  type Word = set<BitIndex>

  /** 0xFFFF_FFFF. */
  const AllBits: Word := set i: BitIndex | i < 32

  /** 0x7: the words whose value is below 8 are the subsets of `Low3`. */
  const Low3: Word := {0, 1, 2}

  /** 0xFF: the words whose value fits a `uint8` are the subsets of `Low8`. */
  const Low8: Word := set i: BitIndex | i < 8

  /** Bit j of `p << k` is bit j - k of p. */
  predicate ShiftedIn(p: Word, k: nat, j: BitIndex)
  {
    k <= j && (j - k) as BitIndex in p
  }

  /** `p << k` on a 32-bit word: every one bit moves k places up, and the ones
      moved past bit 31 are lost. */
  function Shl(p: Word, k: nat): (r: Word)
    ensures forall j :: j in r ==> k <= j
    ensures k == 0 ==> r == p
    ensures k >= 32 ==> r == {}
  {
    set j: BitIndex | ShiftedIn(p, k, j)
  }

  /** The lowest bit of a 3-bit field that fits in a 32-bit word. */
  type FieldPos = k: nat | k <= 29

  /** `7 << pos`: the mask of the 3-bit field whose lowest bit is `pos`. */
  function FieldMask(pos: FieldPos): Word
  {
    {pos as BitIndex, (pos + 1) as BitIndex, (pos + 2) as BitIndex}
  }

  /** `(w >> pos) & 7`: the 3-bit field of `w` whose lowest bit is `pos`. */
  function Field3(w: Word, pos: FieldPos): (r: Word)
    ensures r <= Low3
  {
    (if pos in w then {0} else {}) + (if pos + 1 in w then {1} else {}) + (if pos + 2 in w then {2} else {})
  }

  /** The read-modify-write `(w & ~mask) | bits` of every priority setter of the
      interrupt controller, with `bits` the priority already shifted into place.
      The drivers do not mask the priority before shifting it, so bits of `bits`
      outside `mask` are ORed into the rest of the word. */
  function PlaceField(w: Word, mask: Word, bits: Word): Word
  {
    (w - mask) + bits
  }

  /** `REG & KEEP` with a constant keep mask is `REG & ~MASK` for its complement. */
  lemma KeepIsClear(w: Word, mask: Word)
    ensures w * (AllBits - mask) == w - mask
  {
  }

  /** Shifting p to `pos` puts the low three bits of p in the field at `pos`. */
  lemma ShlField(p: Word, pos: FieldPos)
    ensures Field3(Shl(p, pos), pos) == p * Low3
    ensures p <= Low3 ==> Shl(p, pos) <= FieldMask(pos)
  {
    assert pos + 0 == pos;
    forall i | i in Low3
      ensures i in Field3(Shl(p, pos), pos) <==> i in p
    {
      assert (pos + i) - pos == i;
    }
  }

  /** When the mask is exactly the field the priority is shifted into, the field
      reads back as the low three bits of the priority, whatever its width. */
  lemma PlaceFieldReadBack(w: Word, pos: FieldPos, p: Word)
    ensures Field3(PlaceField(w, FieldMask(pos), Shl(p, pos)), pos) == p * Low3
  {
    ShlField(p, pos);
    assert Field3(PlaceField(w, FieldMask(pos), Shl(p, pos)), pos) == Field3(Shl(p, pos), pos);
  }

  /** A priority below 8 reads back unchanged, and no bit outside its field
      changes. */
  lemma PlaceFieldExact(w: Word, pos: FieldPos, p: Word)
    requires p <= Low3
    ensures Field3(PlaceField(w, FieldMask(pos), Shl(p, pos)), pos) == p
    ensures PlaceField(w, FieldMask(pos), Shl(p, pos)) - FieldMask(pos) == w - FieldMask(pos)
  {
    PlaceFieldReadBack(w, pos, p);
    ShlField(p, pos);
  }

  /** A second write of the same field discards the first, provided the first
      priority fitted the field. */
  lemma PlaceFieldOverwrite(w: Word, pos: FieldPos, p: Word, q: Word)
    requires p <= Low3
    ensures PlaceField(PlaceField(w, FieldMask(pos), Shl(p, pos)), FieldMask(pos), Shl(q, pos)) ==
            PlaceField(w, FieldMask(pos), Shl(q, pos))
  {
    ShlField(p, pos);
  }

  /** A priority that fits a byte, shifted to `pos`, stays within the byte that
      starts at `pos`: it reaches no bit below `pos` and none from `pos + 8` on. */
  lemma ShlByte(p: Word, pos: nat)
    requires p <= Low8
    ensures forall j :: j in Shl(p, pos) ==> pos <= j < pos + 8
  {
  }

  /** Writing a priority that fits a byte into the field at `a` leaves the field at
      `b` as it was, when `b` lies wholly outside the byte that starts at `a`: the
      unmasked bits 3-7 of the priority reach only bits `a + 3` to `a + 7`. */
  lemma ByteWriteKeepsField(w: Word, a: FieldPos, b: FieldPos, p: Word)
    requires p <= Low8 && (a + 8 <= b || b + 3 <= a)
    ensures Field3(PlaceField(w, FieldMask(a), Shl(p, a)), b) == Field3(w, b)
  {
    var r := PlaceField(w, FieldMask(a), Shl(p, a));
    ShlByte(p, a);
    forall j | j in FieldMask(b)
      ensures j in r <==> j in w
    {
      assert j !in FieldMask(a) && j !in Shl(p, a);
    }
  }
}
