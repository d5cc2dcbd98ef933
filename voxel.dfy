/**
 * The voxel vocabulary of `src/world.h`: the block-type enumeration, the flat index
 * of a voxel inside a 32 x 256 x 32 chunk, and the 64-bit key under which a chunk
 * coordinate is stored in the chunk map.
 */
module Voxel {
  import opened Vk

  /** `Voxel::Type`, in declaration order; `Air` is the empty block. */
  datatype BlockType =
    | Air | Bedrock | Brick | OreCoal | Cobble | MossyCobble | OreDiamond | Dirt
    | Grass | OreIron | OreGold | OreLapis | Leaves | Log | Planks | Stone

  /** The number of enumerators of `Voxel::Type`. */
  const BlockTypeCount: nat := 16

  /** The integer value `(int)type` of an enumerator (its position in the declaration). */
  function Ordinal(t: BlockType): (n: nat)
    ensures n < BlockTypeCount
    ensures n == 0 <==> t == Air
  {
    match t
    case Air => 0
    case Bedrock => 1
    case Brick => 2
    case OreCoal => 3
    case Cobble => 4
    case MossyCobble => 5
    case OreDiamond => 6
    case Dirt => 7
    case Grass => 8
    case OreIron => 9
    case OreGold => 10
    case OreLapis => 11
    case Leaves => 12
    case Log => 13
    case Planks => 14
    case Stone => 15
  }

  /** The enumerator with a given value: `(Voxel::Type)n`. */
  function FromOrdinal(n: nat): (t: BlockType)
    requires n < BlockTypeCount
    ensures Ordinal(t) == n
  {
    [Air, Bedrock, Brick, OreCoal, Cobble, MossyCobble, OreDiamond, Dirt,
     Grass, OreIron, OreGold, OreLapis, Leaves, Log, Planks, Stone][n]
  }

  /** Distinct enumerators have distinct values, so the enumeration is a bijection onto 0..15. */
  lemma OrdinalRoundTrip(t: BlockType)
    ensures FromOrdinal(Ordinal(t)) == t
  {
    match t
    case Air =>
    case Bedrock =>
    case Brick =>
    case OreCoal =>
    case Cobble =>
    case MossyCobble =>
    case OreDiamond =>
    case Dirt =>
    case Grass =>
    case OreIron =>
    case OreGold =>
    case OreLapis =>
    case Leaves =>
    case Log =>
    case Planks =>
    case Stone =>
  }

  lemma OrdinalInjective(a: BlockType, b: BlockType)
    ensures Ordinal(a) == Ordinal(b) ==> a == b
  {
    OrdinalRoundTrip(a);
    OrdinalRoundTrip(b);
  }

  /** `Chunk::size` and `Chunk::height` of `src/world.h`. */
  const Size: nat := 32
  const Height: nat := 256
  const VoxelCount: nat := Size * Size * Height

  /**
   * The element of `voxels` that `Chunk::operator()(x, y, z)` returns. The operator
   * does no bounds check, so in-range coordinates are the caller's obligation; in
   * range the `uint32_t` arithmetic cannot wrap. The index decodes back to the three
   * coordinates, which is what makes it injective.
   */
  function VoxelIndex(x: nat, y: nat, z: nat): (i: nat)
    requires x < Size && y < Height && z < Size
    ensures i < VoxelCount
    ensures i % Size == x && (i / Size) % Size == z && i / (Size * Size) == y
  {
    var i := y * Size * Size + z * Size + x;
    DecodeIndex(x, y, z, i);
    i
  }

  lemma DecodeIndex(x: nat, y: nat, z: nat, i: nat)
    requires x < Size && y < Height && z < Size
    requires i == y * Size * Size + z * Size + x
    ensures i < VoxelCount
    ensures i % Size == x && (i / Size) % Size == z && i / (Size * Size) == y
  {
    assert i == (y * Size + z) * Size + x;
    assert i / Size == y * Size + z;
    assert i == y * (Size * Size) + (z * Size + x);
  }

  /** Two in-range coordinates with the same index are the same coordinate. */
  lemma VoxelIndexInjective(x1: nat, y1: nat, z1: nat, x2: nat, y2: nat, z2: nat)
    requires x1 < Size && y1 < Height && z1 < Size
    requires x2 < Size && y2 < Height && z2 < Size
    ensures VoxelIndex(x1, y1, z1) == VoxelIndex(x2, y2, z2) ==> x1 == x2 && y1 == y2 && z1 == z2
  {
  }

  predicate IsInt32(v: int) { -0x8000_0000 <= v < 0x8000_0000 }

  /** The `uint32_t` bit pattern of an `int32_t` (two's complement). */
  function Bits32(v: int): (u: nat)
    requires IsInt32(v)
    ensures IsUint32(u)
  {
    v % Two32
  }

  /** The `int32_t` whose bit pattern is the `uint32_t` value `u`. */
  function FromBits32(u: nat): (v: int)
    requires IsUint32(u)
    ensures IsInt32(v)
  {
    if u < 0x8000_0000 then u else u - Two32
  }

  /**
   * `ChunkMap::key(x, z)`. Widening `x` to 64 bits and shifting it left by 32 keeps its
   * low 32 bits in the high word (the mask then changes nothing); `(uint32_t)z` fills the
   * low word, and OR of the two disjoint words is their sum.
   */
  function Key(x: int, z: int): (k: nat)
    requires IsInt32(x) && IsInt32(z)
    ensures k < Two32 * Two32
    ensures k / Two32 == Bits32(x) && k % Two32 == Bits32(z)
  {
    var k := Bits32(x) * Two32 + Bits32(z);
    assert k / Two32 == Bits32(x) && k % Two32 == Bits32(z);
    k
  }

  /** The chunk x coordinate stored in the high word of a key. */
  function KeyX(k: nat): int
    requires k < Two32 * Two32
  {
    FromBits32(k / Two32)
  }

  /** The chunk z coordinate stored in the low word of a key. */
  function KeyZ(k: nat): int
  {
    FromBits32(k % Two32)
  }

  /** Both coordinates can be read back out of their key. */
  lemma KeyRoundTrip(x: int, z: int)
    requires IsInt32(x) && IsInt32(z)
    ensures KeyX(Key(x, z)) == x && KeyZ(Key(x, z)) == z
  {
  }

  /** Distinct `int32_t` coordinate pairs get distinct keys. */
  lemma {:induction false} KeyInjective(x1: int, z1: int, x2: int, z2: int)
    requires IsInt32(x1) && IsInt32(z1) && IsInt32(x2) && IsInt32(z2)
    requires Key(x1, z1) == Key(x2, z2)
    ensures x1 == x2 && z1 == z2
  {
    KeyRoundTrip(x1, z1);
    KeyRoundTrip(x2, z2);
  }
}
