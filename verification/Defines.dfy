/** Limits, type tags, heap layout and pointer packing (src/defines.h, src/vm.h). */
module Defines {
  datatype Option<+T> = None | Some(value: T)

  const STACK_SIZE := 2048
  const MAX_HEAP := 100000000
  const MAX_ARENAS := 64
  const MAX_SCOPES := 32

  // Tags of stack and heap cells.
  const T_NUM := 0
  const T_STR := 1
  const T_OBJ := 2
  const T_ENUM := 3

  // First header cell of a heap object; struct objects carry their id, which is >= 0.
  const TYPE_ARRAY := -1
  const TYPE_BYTES := -2
  const TYPE_MAP := -3
  const TYPE_I16_ARRAY := -10
  const TYPE_I32_ARRAY := -11
  const TYPE_I64_ARRAY := -12
  const TYPE_F16_ARRAY := -13
  const TYPE_F32_ARRAY := -14
  const TYPE_BOOL_ARRAY := -20

  // Pointer fields: 28 bits of offset, 6 of region, 14 of generation.
  const OFFSET_SPAN := 0x1000_0000
  const REGION_SPAN := 64
  const GEN_SPAN := 16384
  const GEN_UNIT := OFFSET_SPAN * REGION_SPAN

  /** PACK_PTR on fields that are in range, where `|` and `+` agree. */
  function Pack(gen: int, region: int, offset: int): int {
    offset + region * OFFSET_SPAN + gen * GEN_UNIT
  }

  function Off(p: int): int {
    p % OFFSET_SPAN
  }

  function Region(p: int): (r: int)
    ensures 0 <= r < MAX_ARENAS
  {
    (p / OFFSET_SPAN) % REGION_SPAN
  }

  function Gen(p: int): int {
    (p / GEN_UNIT) % GEN_SPAN
  }

  predicate PtrFields(gen: int, region: int, offset: int) {
    0 <= gen < GEN_SPAN && 0 <= region < REGION_SPAN && 0 <= offset < OFFSET_SPAN
  }

  /** Packing loses nothing, stays within 48 bits, and is never the null value 0 for a live
      generation (generations of initialised regions start at 1). */
  lemma PackRoundTrip(gen: int, region: int, offset: int)
    requires PtrFields(gen, region, offset)
    ensures Off(Pack(gen, region, offset)) == offset
    ensures Region(Pack(gen, region, offset)) == region
    ensures Gen(Pack(gen, region, offset)) == gen
    ensures 0 <= Pack(gen, region, offset) < 0x1_0000_0000_0000
    ensures gen >= 1 ==> Pack(gen, region, offset) > 0
  {
    var p := Pack(gen, region, offset);
    assert p / OFFSET_SPAN == region + gen * REGION_SPAN by {
      assert p == offset + (region + gen * REGION_SPAN) * OFFSET_SPAN;
    }
    assert p / GEN_UNIT == gen by {
      assert p == (offset + region * OFFSET_SPAN) + gen * GEN_UNIT;
      assert 0 <= offset + region * OFFSET_SPAN < GEN_UNIT;
    }
  }

  /** The offset is in the lowest 28 bits, then 6 bits of region, then the generation: the next cell, the same
      cell of the next region, and of the next generation. */
  lemma PackLayout(gen: int, region: int, offset: int, n: int)
    ensures Pack(0, 0, 0) == 0 && Pack(gen, region, offset + n) == Pack(gen, region, offset) + n
    ensures Pack(gen, region + 1, offset) == Pack(gen, region, offset) + 0x1000_0000
    ensures Pack(gen + 1, region, offset) == Pack(gen, region, offset) + 0x4_0000_0000
  {
  }

  /** Two pointers with the same three fields are the same 48-bit value. */
  lemma PackInjective(p: int)
    requires 0 <= p < 0x1_0000_0000_0000
    ensures PtrFields(Gen(p), Region(p), Off(p))
    ensures Pack(Gen(p), Region(p), Off(p)) == p
  {
  }
}
