/** The population bitmap of the ready queue: one bit per priority, eight per byte
    (Kernel/Sources/dispatcher/VirtualProcessorScheduler.h:34-37). */
module PriorityBitmap {

  const PRIORITY_COUNT := 64
  const PRIORITY_HIGHEST := 63
  const PRIORITY_LOWEST := 0
  const POP_BYTE_COUNT := 8

  /** `1 << b`. */
  function Mask(b: nat): bv8
    requires b < 8
  {
    match b
    case 0 => 0x01
    case 1 => 0x02
    case 2 => 0x04
    case 3 => 0x08
    case 4 => 0x10
    case 5 => 0x20
    case 6 => 0x40
    case 7 => 0x80
  }

  predicate HasBit(x: bv8, b: nat)
    requires b < 8
  {
    x & Mask(b) != 0
  }

  function WithBit(x: bv8, b: nat): bv8
    requires b < 8
  {
    x | Mask(b)
  }

  function WithoutBit(x: bv8, b: nat): bv8
    requires b < 8
  {
    x & !Mask(b)
  }

  predicate IsSet(populated: seq<bv8>, p: nat)
    requires |populated| == POP_BYTE_COUNT && p < PRIORITY_COUNT
  {
    HasBit(populated[p / 8], p % 8)
  }

  function SetBit(populated: seq<bv8>, p: nat): (r: seq<bv8>)
    requires |populated| == POP_BYTE_COUNT && p < PRIORITY_COUNT
    ensures |r| == POP_BYTE_COUNT
  {
    populated[p / 8 := WithBit(populated[p / 8], p % 8)]
  }

  function ClearBit(populated: seq<bv8>, p: nat): (r: seq<bv8>)
    requires |populated| == POP_BYTE_COUNT && p < PRIORITY_COUNT
    ensures |r| == POP_BYTE_COUNT
  {
    populated[p / 8 := WithoutBit(populated[p / 8], p % 8)]
  }

  lemma MaskBits(x: bv8, b: nat, c: nat)
    requires b < 8 && c < 8
    ensures HasBit(WithBit(x, b), c) <==> b == c || HasBit(x, c)
    ensures HasBit(WithoutBit(x, b), c) <==> b != c && HasBit(x, c)
  {
    if b == c {
      assert (x | Mask(c)) & Mask(c) == Mask(c);
      assert (x & !Mask(c)) & Mask(c) == 0;
    } else {
      assert Mask(b) & Mask(c) == 0;
      assert (x | Mask(b)) & Mask(c) == x & Mask(c);
      assert (x & !Mask(b)) & Mask(c) == x & Mask(c);
    }
  }

  lemma SameByte(p: nat, k: nat)
    requires k / 8 == p / 8
    ensures k % 8 == p % 8 <==> k == p
  {
  }

  lemma BitUpdate(populated: seq<bv8>, p: nat, k: nat)
    requires |populated| == POP_BYTE_COUNT && p < PRIORITY_COUNT && k < PRIORITY_COUNT
    ensures IsSet(SetBit(populated, p), k) == (k == p || IsSet(populated, k))
    ensures IsSet(ClearBit(populated, p), k) == (k != p && IsSet(populated, k))
  {
    hide HasBit, WithBit, WithoutBit;
    if k / 8 == p / 8 {
      SameByte(p, k);
      MaskBits(populated[p / 8], p % 8, k % 8);
    }
  }

  /** Setting or clearing one bit changes that bit and no other one. */
  lemma BitUpdates(populated: seq<bv8>, p: nat)
    requires |populated| == POP_BYTE_COUNT && p < PRIORITY_COUNT
    ensures forall k: nat | k < PRIORITY_COUNT ::
              IsSet(SetBit(populated, p), k) == (k == p || IsSet(populated, k))
    ensures forall k: nat | k < PRIORITY_COUNT ::
              IsSet(ClearBit(populated, p), k) == (k != p && IsSet(populated, k))
  {
    forall k: nat | k < PRIORITY_COUNT
      ensures IsSet(SetBit(populated, p), k) == (k == p || IsSet(populated, k))
      ensures IsSet(ClearBit(populated, p), k) == (k != p && IsSet(populated, k))
    {
      BitUpdate(populated, p, k);
    }
  }
}
