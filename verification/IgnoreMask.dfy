/** The 32-bit mask of variables that are not evented, and the set it stands for. */
module IgnoreMask {
  /** 1 << v */
  function Bit(v: nat): bv32
    requires v < 32
  {
    match v
    case 0 => 0x1
    case 1 => 0x2
    case 2 => 0x4
    case 3 => 0x8
    case 4 => 0x10
    case 5 => 0x20
    case 6 => 0x40
    case 7 => 0x80
    case 8 => 0x100
    case 9 => 0x200
    case 10 => 0x400
    case 11 => 0x800
    case 12 => 0x1000
    case 13 => 0x2000
    case 14 => 0x4000
    case 15 => 0x8000
    case 16 => 0x10000
    case 17 => 0x20000
    case 18 => 0x40000
    case 19 => 0x80000
    case 20 => 0x100000
    case 21 => 0x200000
    case 22 => 0x400000
    case 23 => 0x800000
    case 24 => 0x1000000
    case 25 => 0x2000000
    case 26 => 0x4000000
    case 27 => 0x8000000
    case 28 => 0x10000000
    case 29 => 0x20000000
    case 30 => 0x40000000
    case _ => 0x8000_0000
  }

  predicate InMask(mask: bv32, v: nat)
    requires v < 32
  {
    mask & Bit(v) != 0
  }

  ghost function MaskSet(mask: bv32): set<nat> {
    set v: nat | v < 32 && InMask(mask, v)
  }

  lemma BitsApartFrom(first: nat, v: nat, w: nat)
    requires first <= v < first + 8 <= 32 && w < 32 && v != w
    requires first == 0 || first == 8 || first == 16 || first == 24
    ensures Bit(v) & Bit(w) == 0
  {
  }

  lemma BitsApart(v: nat, w: nat)
    requires v < 32 && w < 32
    ensures Bit(v) != 0
    ensures v != w ==> Bit(v) & Bit(w) == 0
  {
    if v != w {
      BitsApartFrom(if v < 8 then 0 else if v < 16 then 8 else if v < 24 then 16 else 24, v, w);
    }
  }

  lemma OrThenAnd(mask: bv32, x: bv32, y: bv32)
    requires x & y == 0
    ensures (mask | x) & y == mask & y
  {
  }

  lemma OtherBit(mask: bv32, v: nat, w: nat)
    requires v < 32 && w < 32 && v != w
    ensures (mask | Bit(v)) & Bit(w) == mask & Bit(w)
  {
    BitsApart(v, w);
    OrThenAnd(mask, Bit(v), Bit(w));
  }

  lemma SameBit(mask: bv32, v: nat)
    requires v < 32
    ensures InMask(mask | Bit(v), v)
  {
  }

  lemma MaskAgrees(mask: bv32, other: bv32, w: nat)
    requires w < 32 && mask & Bit(w) == other & Bit(w)
    ensures InMask(mask, w) == InMask(other, w)
  {
  }

  lemma MaskOther(mask: bv32, v: nat, w: nat)
    requires v < 32 && w < 32 && v != w
    ensures InMask(mask | Bit(v), w) == InMask(mask, w)
  {
    OtherBit(mask, v, w);
    MaskAgrees(mask | Bit(v), mask, w);
  }

  lemma MaskBit(mask: bv32, v: nat, w: nat)
    requires v < 32 && w < 32
    ensures InMask(mask | Bit(v), w) <==> w == v || InMask(mask, w)
  {
    if v == w {
      SameBit(mask, v);
    } else {
      MaskOther(mask, v, w);
    }
  }

  /** Setting a bit of the mask adds just this variable to the set. */
  lemma MaskInsert(mask: bv32, v: nat)
    requires v < 32
    ensures MaskSet(mask | Bit(v)) == MaskSet(mask) + {v}
  {
    forall w: nat | w < 32
      ensures w in MaskSet(mask | Bit(v)) <==> w in MaskSet(mask) + {v}
    {
      MaskBit(mask, v, w);
    }
  }

  lemma MaskOfOne(v: nat)
    requires v < 32
    ensures MaskSet(Bit(v)) == {v}
  {
    assert 0 | Bit(v) == Bit(v);
    assert MaskSet(0) == {};
    MaskInsert(0, v);
  }
}
