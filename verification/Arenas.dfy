/** Bump arenas with generational pointers (src/vm.c:265-326, 469-515), and what it means for a
    cell to represent a value. */
module Arenas {
  import opened Defines

  datatype Cell = Cell(val: int, tag: int)

  /** One region: its cells, the bump pointer, and the generation that live pointers carry. */
  datatype Arena = Arena(mem: seq<Cell>, head: int, active: bool, gen: int)

  type Heap = seq<Arena>

  ghost predicate ValidArena(a: Arena) {
    && 0 <= a.gen < GEN_SPAN
    && 0 <= a.head < MAX_HEAP
    && (a.active ==> |a.mem| == MAX_HEAP && 1 <= a.gen)
  }

  ghost predicate ValidHeap(h: Heap) {
    |h| == MAX_ARENAS && forall i :: 0 <= i < MAX_ARENAS ==> ValidArena(h[i])
  }

  /** The conditions under which a packed pointer resolves (vm_resolve_ptr_safe). */
  predicate Live(h: Heap, p: int)
    requires |h| == MAX_ARENAS
  {
    p >= 0 && h[Region(p)].active && h[Region(p)].gen == Gen(p) && Off(p) < MAX_HEAP
  }

  // ---- Heap updates ----

  function WithHead(h: Heap, a: int, head: int): (r: Heap)
    requires 0 <= a < |h|
    ensures ValidHeap(h) && 0 <= head < MAX_HEAP ==> ValidHeap(r)
  {
    h[a := h[a].(head := head)]
  }

  function Write(h: Heap, a: int, at: int, c: Cell): Heap
    requires 0 <= a < |h| && 0 <= at < |h[a].mem|
  {
    h[a := h[a].(mem := h[a].mem[at := c])]
  }

  ghost predicate Room(h: Heap, a: int, n: int)
    requires 0 <= a < |h|
  {
    h[a].active && 0 <= n && h[a].head + n < MAX_HEAP
  }

  /** heap_alloc of |block| cells followed by filling them with `block`. */
  ghost function Append(h: Heap, a: int, block: seq<Cell>): (r: Heap)
    requires ValidHeap(h) && 0 <= a < MAX_ARENAS && Room(h, a, |block|)
    ensures ValidHeap(r) && Grown(h, r)
    ensures r[a].head == h[a].head + |block|
    ensures forall j :: 0 <= j < |block| ==> r[a].mem[h[a].head + j] == block[j]
    ensures forall i :: 0 <= i < MAX_ARENAS && i != a ==> r[i] == h[i]
  {
    var m := h[a].mem;
    var k := h[a].head;
    h[a := h[a].(mem := m[..k] + block + m[k + |block|..], head := k + |block|)]
  }

  ghost predicate SameArena(x: Arena, y: Arena) {
    x.active == y.active && x.gen == y.gen && |x.mem| == |y.mem|
  }

  /** `h'` extends `h`: no cell below a head of `h` changed, and no head went down. */
  ghost predicate Grown(h: Heap, h': Heap) {
    GrownBut(h, h', 0, 0, 0)
  }

  /** As Grown, except that cells [lo, hi) of region `a` may differ. */
  ghost predicate GrownBut(h: Heap, h': Heap, a: int, lo: int, hi: int) {
    && |h| == |h'|
    && forall i :: 0 <= i < |h| ==>
         && SameArena(h[i], h'[i])
         && h[i].head <= h'[i].head
         && forall j :: 0 <= j < h[i].head && j < |h[i].mem| && !(i == a && lo <= j < hi) ==> h'[i].mem[j] == h[i].mem[j]
  }

  // ---- Values and their representation ----

  /** The unfolding of a cell: a plain value; an array or struct with its elements; a packed
      array, whose cells are opaque words; a map with all 2 * cap cells of its data block. */
  datatype Value =
    | Leaf(val: int, tag: int)
    | Node(ty: int, kids: seq<Value>)
    | Blob(ty: int, len: int, words: seq<int>)
    | Dict(cap: int, count: int, slots: seq<Value>)

  /** Forbidden cells: [lo[i], hi[i]) in each region i. */
  datatype Gap = Gap(lo: seq<int>, hi: seq<int>)

  const HEAP_END := MAX_HEAP + 1

  ghost predicate WfGap(g: Gap) {
    |g.lo| == MAX_ARENAS && |g.hi| == MAX_ARENAS
  }

  ghost function NoGap(): (g: Gap)
    ensures WfGap(g)
  {
    Gap(seq(MAX_ARENAS, i => 0), seq(MAX_ARENAS, i => 0))
  }

  /** Only cells of region `a` below `b` are allowed. */
  ghost function Below(a: int, b: int): (g: Gap)
    ensures WfGap(g)
  {
    Gap(seq(MAX_ARENAS, i => if i == a then b else 0), seq(MAX_ARENAS, i => HEAP_END))
  }

  ghost function Heads(h: Heap): (s: seq<int>)
    ensures |s| == |h|
  {
    seq(|h|, i requires 0 <= i < |h| => h[i].head)
  }

  /** Cells [o, o + n) of region `a` are allocated and avoid the gap. */
  ghost predicate Clear(h: Heap, g: Gap, a: int, o: int, n: int)
    requires |h| == MAX_ARENAS && WfGap(g) && 0 <= a < MAX_ARENAS
  {
    0 <= o && o + n <= h[a].head && (o + n <= g.lo[a] || g.hi[a] <= o)
  }

  ghost predicate ObjAt(h: Heap, g: Gap, p: int, n: int)
    requires ValidHeap(h) && WfGap(g)
  {
    Live(h, p) && Clear(h, g, Region(p), Off(p), n)
  }

  ghost function At(h: Heap, p: int, i: int): Cell
    requires ValidHeap(h) && Live(h, p) && 0 <= i && Off(p) + i < MAX_HEAP
  {
    h[Region(p)].mem[Off(p) + i]
  }

  /** Packed element types that vm_evacuate_object recognises, with their element width. */
  predicate PackedType(ty: int) {
    ty == TYPE_BYTES || TYPE_BOOL_ARRAY <= ty <= TYPE_I64_ARRAY
  }

  /** i16[] and i32[] fall outside the range test of vm_evacuate_object. */
  predicate NarrowType(ty: int) {
    ty == TYPE_I16_ARRAY || ty == TYPE_I32_ARRAY
  }

  /** get_type_size (src/vm.c:96-107). */
  function ElemBytes(ty: int): (n: int)
    ensures 1 <= n <= 8
  {
    if ty == TYPE_BYTES || ty == TYPE_BOOL_ARRAY then 1
    else if ty == TYPE_I16_ARRAY || ty == TYPE_F16_ARRAY then 2
    else if ty == TYPE_I32_ARRAY || ty == TYPE_F32_ARRAY then 4
    else 8
  }

  function PackedCells(ty: int, len: nat): nat {
    (len * ElemBytes(ty) + 7) / 8
  }

  /** Cell `c` unfolds to `v` in heap `h`, through objects that all avoid gap `g`. */
  ghost predicate Rep(h: Heap, g: Gap, c: Cell, v: Value)
    requires ValidHeap(h) && WfGap(g)
    decreases v
  {
    match v
    case Leaf(x, t) => t != T_OBJ && c == Cell(x, t)
    case Node(ty, kids) =>
      && c.tag == T_OBJ
      && (ty == TYPE_ARRAY || ty >= 0)
      && ObjAt(h, g, c.val, 2 + |kids|)
      && At(h, c.val, 0).val == ty
      && At(h, c.val, 1).val == |kids|
      && (forall i :: 0 <= i < |kids| ==> Rep(h, g, At(h, c.val, 2 + i), kids[i]))
    case Blob(ty, len, words) =>
      && c.tag == T_OBJ
      && (PackedType(ty) || NarrowType(ty))
      && 0 <= len && |words| == PackedCells(ty, len)
      && ObjAt(h, g, c.val, 2 + |words|)
      && At(h, c.val, 0).val == ty
      && At(h, c.val, 1).val == len
      && (forall i :: 0 <= i < |words| ==> At(h, c.val, 2 + i).val == words[i])
    case Dict(cap, count, slots) =>
      && c.tag == T_OBJ
      && 0 <= count <= cap && 0 < cap && |slots| == 2 * cap
      && ObjAt(h, g, c.val, 4)
      && At(h, c.val, 0).val == TYPE_MAP
      && At(h, c.val, 1).val == cap
      && At(h, c.val, 2).val == count
      && (var d := At(h, c.val, 3).val;
          && ObjAt(h, g, d, |slots|)
          && (forall i :: 0 <= i < |slots| ==> Rep(h, g, At(h, d, i), slots[i])))
  }

  /** Everything allowed by `g` in `h` is allocated, unchanged and allowed by `g'` in `h'`. */
  ghost predicate Keeps(h: Heap, g: Gap, h': Heap, g': Gap)
    requires ValidHeap(h) && ValidHeap(h') && WfGap(g) && WfGap(g')
  {
    forall i :: 0 <= i < MAX_ARENAS ==>
      && SameArena(h[i], h'[i])
      && (forall o, n :: n > 0 && Clear(h, g, i, o, n) ==> Clear(h', g', i, o, n))
      && (forall j :: 0 <= j < h[i].head && j < |h[i].mem| && !(g.lo[i] <= j < g.hi[i]) ==> h'[i].mem[j] == h[i].mem[j])
  }

  lemma ObjKept(h: Heap, g: Gap, h': Heap, g': Gap, p: int, n: int)
    requires ValidHeap(h) && ValidHeap(h') && WfGap(g) && WfGap(g')
    requires Keeps(h, g, h', g')
    requires ObjAt(h, g, p, n) && n > 0
    ensures ObjAt(h', g', p, n)
    ensures forall i :: 0 <= i < n ==> At(h', p, i) == At(h, p, i)
  {
    var a, o := Region(p), Off(p);
    assert SameArena(h[a], h'[a]);
    assert Clear(h, g, a, o, n);
    forall i | 0 <= i < n ensures At(h', p, i) == At(h, p, i) {
      assert !(g.lo[a] <= o + i < g.hi[a]);
      assert h'[a].mem[o + i] == h[a].mem[o + i];
    }
  }

  /** The frame rule: a representation survives any change outside the cells it may use. */
  lemma {:induction false} RepKept(h: Heap, g: Gap, h': Heap, g': Gap, c: Cell, v: Value)
    requires ValidHeap(h) && ValidHeap(h') && WfGap(g) && WfGap(g')
    requires Keeps(h, g, h', g')
    requires Rep(h, g, c, v)
    ensures Rep(h', g', c, v)
    decreases v
  {
    match v
    case Leaf(_, _) =>
    case Node(ty, kids) =>
      ObjKept(h, g, h', g', c.val, 2 + |kids|);
      forall i | 0 <= i < |kids| ensures Rep(h', g', At(h', c.val, 2 + i), kids[i]) {
        RepKept(h, g, h', g', At(h, c.val, 2 + i), kids[i]);
      }
    case Blob(ty, len, words) =>
      ObjKept(h, g, h', g', c.val, 2 + |words|);
    case Dict(cap, count, slots) =>
      ObjKept(h, g, h', g', c.val, 4);
      var d := At(h, c.val, 3).val;
      ObjKept(h, g, h', g', d, |slots|);
      forall i | 0 <= i < |slots| ensures Rep(h', g', At(h', d, i), slots[i]) {
        RepKept(h, g, h', g', At(h, d, i), slots[i]);
      }
  }

  /** Growing the heap keeps every representation. */
  lemma RepGrown(h: Heap, h': Heap, g: Gap, c: Cell, v: Value)
    requires ValidHeap(h) && ValidHeap(h') && WfGap(g)
    requires Grown(h, h') && Rep(h, g, c, v)
    ensures Rep(h', g, c, v)
  {
    RepKept(h, g, h', g, c, v);
  }

  /** What lies wholly below a boundary is still there after the region is rewound to it, or to
      any higher point, whatever happened above the boundary meanwhile. */
  lemma RepRewound(h: Heap, a: int, b: int, head: int, c: Cell, v: Value)
    requires ValidHeap(h) && 0 <= a < MAX_ARENAS && 0 <= b <= head < MAX_HEAP
    requires Rep(h, Below(a, b), c, v)
    ensures ValidHeap(WithHead(h, a, head))
    ensures Rep(WithHead(h, a, head), Below(a, b), c, v)
    ensures Rep(WithHead(h, a, head), NoGap(), c, v)
  {
    var h' := WithHead(h, a, head);
    RepKept(h, Below(a, b), h', Below(a, b), c, v);
    RepKept(h, Below(a, b), h', NoGap(), c, v);
  }

  /** A pointer that represents anything is not null. */
  lemma LiveNotNull(h: Heap, p: int)
    requires ValidHeap(h) && Live(h, p)
    ensures p > 0
  {
  }
}
