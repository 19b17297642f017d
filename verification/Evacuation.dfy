/** vm_evacuate_object: the recursive deep copy that OP_RET and copy() use (src/vm.c:118-226). */
module Evacuation {
  import opened Defines
  import opened Arenas

  /** Cells an object occupies, header included; 0 for types the copy does not recognise. */
  function ObjSize(ty: int, len: nat): int {
    if ty == TYPE_MAP then 4
    else if PackedType(ty) then PackedCells(ty, len) + 2
    else if ty == TYPE_ARRAY || ty >= 0 then len + 2
    else 0
  }

  /** Space left above the heads of the first `n` regions: every copy uses some of it up. */
  ghost function Space(h: Heap, n: nat): nat
    requires ValidHeap(h) && n <= MAX_ARENAS
  {
    if n == 0 then 0 else Space(h, n - 1) + (MAX_HEAP - h[n - 1].head)
  }

  lemma {:induction false} SpaceShrinks(h: Heap, h': Heap, n: nat, a: int)
    requires ValidHeap(h) && ValidHeap(h') && n <= MAX_ARENAS
    requires forall i :: 0 <= i < MAX_ARENAS ==> h[i].head <= h'[i].head
    requires 0 <= a < MAX_ARENAS
    ensures Space(h', n) <= Space(h, n)
    ensures a < n && h[a].head < h'[a].head ==> Space(h', n) < Space(h, n)
  {
    if n > 0 {
      SpaceShrinks(h, h', n - 1, a);
    }
  }

  lemma AppendShrinks(h: Heap, a: int, block: seq<Cell>)
    requires ValidHeap(h) && 0 <= a < MAX_ARENAS && Room(h, a, |block|)
    ensures var h1 := Append(h, a, block);
      h1[a].active && |h1[a].mem| == |h[a].mem| && h1[a].gen == h[a].gen
      && (|block| > 0 ==> Space(h1, MAX_ARENAS) < Space(h, MAX_ARENAS))
  {
    hide Space;
    SpaceShrinks(h, Append(h, a, block), MAX_ARENAS, a);
  }

  lemma WriteGrown(h: Heap, h1: Heap, a: int, at: int, c: Cell)
    requires ValidHeap(h) && ValidHeap(h1) && Grown(h, h1)
    requires 0 <= a < MAX_ARENAS && h[a].active && 0 <= at < h[a].head
    ensures at < |h1[a].mem|
    ensures var h2 := Write(h1, a, at, c);
      ValidHeap(h2) && GrownBut(h, h2, a, at, at + 1) && h2[a].active && h[a].head <= h2[a].head
  {
    assert SameArena(h[a], h1[a]);
  }

  lemma GrownThen(h0: Heap, h: Heap, h': Heap, a: int, lo: int, hi: int)
    requires ValidHeap(h0) && ValidHeap(h) && ValidHeap(h') && 0 <= a < MAX_ARENAS
    requires Grown(h0, h) && GrownBut(h, h', a, lo, hi) && h0[a].head <= lo
    ensures Grown(h0, h')
    ensures h'[a].active == h[a].active && h'[a].gen == h[a].gen && h[a].head <= h'[a].head
  {
  }

  lemma GrownSelf(h: Heap)
    ensures Grown(h, h)
  {
  }

  /** The heap just after the block of `n` cells at `p` was copied to the head of region `a`. */
  ghost function Copied(h: Heap, a: int, p: int, n: nat): (h1: Heap)
    requires ValidHeap(h) && Live(h, p) && Off(p) + n <= MAX_HEAP
    requires 0 <= a < MAX_ARENAS && Room(h, a, n)
    ensures ValidHeap(h1) && h1[a].active && h1[a].head == h[a].head + n && h1[a].gen == h[a].gen && Grown(h, h1)
    ensures n > 0 ==> Space(h1, MAX_ARENAS) < Space(h, MAX_ARENAS)
  {
    AppendShrinks(h, a, h[Region(p)].mem[Off(p)..Off(p) + n]);
    Append(h, a, h[Region(p)].mem[Off(p)..Off(p) + n])
  }

  /** Evacuates the object at `p` unless it lies below `target`; None when the copy would run past
      the region. A dangling pointer, an object below `target` and an object of unrecognised type
      come back as they are. */
  ghost function Evac(h: Heap, p: int, target: int): (r: Option<(Heap, int)>)
    requires ValidHeap(h)
    ensures r.Some? ==> ValidHeap(r.value.0) && Grown(h, r.value.0)
    decreases Space(h, MAX_ARENAS), 0, 0
  {
    GrownSelf(h);
    hide Grown, GrownBut, Copied, Pack, Space;
    if p == 0 || !Live(h, p) || Off(p) < target then Some((h, p))
    else if Off(p) + 1 >= MAX_HEAP || At(h, p, 1).val < 0 then None
    else
      var a, len, ty := Region(p), At(h, p, 1).val, At(h, p, 0).val;
      var size := ObjSize(ty, len);
      if size <= 0 then Some((h, p))
      else if Off(p) + size > MAX_HEAP || !Room(h, a, size) then None
      else
        var head := h[a].head;
        var h1 := Copied(h, a, p, size);
        var q := Pack(h[a].gen, a, head);
        if ty == TYPE_MAP then
          match EvacData(h1, a, head, target)
          case None => None
          case Some(h2) => GrownThen(h, h1, h2, a, head + 3, head + 4); Some((h2, q))
        else if ty == TYPE_ARRAY || ty >= 0 then
          match EvacKids(h1, a, head + 2, len, target)
          case None => None
          case Some(h2) => GrownThen(h, h1, h2, a, head + 2, head + 2 + len); Some((h2, q))
        else Some((h1, q))
  }

  /** Evacuates the `n` cells of region `a` from `at` on that hold objects, left to right. */
  ghost function EvacKids(h: Heap, a: int, at: int, n: nat, target: int): (r: Option<Heap>)
    requires ValidHeap(h) && 0 <= a < MAX_ARENAS && h[a].active
    requires 0 <= at && at + n <= h[a].head
    ensures r.Some? ==> ValidHeap(r.value) && GrownBut(h, r.value, a, at, at + n)
    decreases Space(h, MAX_ARENAS), 1, n
  {
    if n == 0 then Some(h)
    else
      var c := h[a].mem[at];
      if c.tag != T_OBJ then EvacKids(h, a, at + 1, n - 1, target)
      else
        match Evac(h, c.val, target)
        case None => None
        case Some((h1, q)) =>
          var h2 := Write(h1, a, at, Cell(q, T_OBJ));
          SpaceShrinks(h, h2, MAX_ARENAS, a);
          WriteGrown(h, h1, a, at, Cell(q, T_OBJ));
          hide Evac, Off, Region, Gen, Space;
          EvacKids(h2, a, at + 1, n - 1, target)
  }

  /** Moves the headerless data block of the map header copied to `at`, and then its cells. */
  ghost function EvacData(h: Heap, a: int, at: int, target: int): (r: Option<Heap>)
    requires ValidHeap(h) && 0 <= a < MAX_ARENAS && h[a].active
    requires 0 <= at && at + 4 <= h[a].head
    ensures r.Some? ==> ValidHeap(r.value) && GrownBut(h, r.value, a, at + 3, at + 4)
    decreases Space(h, MAX_ARENAS), 2, 0
  {
    var n, d := h[a].mem[at + 1].val * 2, h[a].mem[at + 3].val;
    if !Live(h, d) || Off(d) < target then Some(h)
    else if n < 0 || Off(d) + n > MAX_HEAP || !Room(h, a, n) then None
    else
      var head := h[a].head;
      var h1 := Append(h, a, h[Region(d)].mem[Off(d)..Off(d) + n]);
      var h2 := Write(h1, a, at + 3, Cell(Pack(h[a].gen, a, head), h[a].mem[at + 3].tag));
      SpaceShrinks(h, h2, MAX_ARENAS, a);
      EvacKids(h2, a, head, n, target)
  }

  /** It holds the cells that `h0` had, and disturbs nothing. */
  lemma BlockCopied(h0: Heap, h: Heap, a: int, p: int, n: int)
    requires ValidHeap(h0) && ValidHeap(h) && Grown(h0, h) && n > 0
    requires ObjAt(h0, NoGap(), p, n) && Live(h, p) && Off(p) + n <= MAX_HEAP
    requires 0 <= a < MAX_ARENAS && Room(h, a, n)
    ensures var h1 := Copied(h, a, p, n);
      && Grown(h, h1) && Grown(h0, h1) && h0[a].head <= h[a].head && h1[a].gen == h[a].gen
      && forall i :: 0 <= i < n ==> h1[a].mem[h[a].head + i] == At(h0, p, i)
  {
    hide Off, Region, Gen, Pack;
    ObjKept(h0, NoGap(), h, NoGap(), p, n);
  }

  lemma ObjGrown(h0: Heap, h: Heap, p: int, n: int)
    requires ValidHeap(h0) && ValidHeap(h) && Grown(h0, h) && n > 0
    requires ObjAt(h0, NoGap(), p, n)
    ensures Live(h, p) && p > 0 && Off(p) + n <= MAX_HEAP && h[Region(p)].active
    ensures ObjAt(h, NoGap(), p, n)
    ensures forall i :: 0 <= i < n ==> At(h, p, i) == At(h0, p, i)
  {
    ObjKept(h0, NoGap(), h, NoGap(), p, n);
    LiveNotNull(h, p);
  }

  lemma Unchanged(h: Heap, h': Heap, a: int, lo: int, hi: int, j: int)
    requires ValidHeap(h) && ValidHeap(h') && GrownBut(h, h', a, lo, hi)
    requires 0 <= a < MAX_ARENAS && h[a].active && 0 <= j < h[a].head && !(lo <= j < hi)
    ensures h'[a].active && h'[a].mem[j] == h[a].mem[j]
  {
    assert SameArena(h[a], h'[a]);
  }

  lemma HeadsRise(h: Heap, h': Heap)
    requires ValidHeap(h) && ValidHeap(h') && Grown(h, h')
    ensures forall i :: 0 <= i < MAX_ARENAS ==> h[i].head <= h'[i].head && Heads(h)[i] <= Heads(h')[i]
  {
  }

  // ---- Building a representation out of copied parts ----

  ghost predicate Narrower(g: Gap, g1: Gap)
    requires WfGap(g) && WfGap(g1)
  {
    g1.lo == g.lo && forall i :: 0 <= i < MAX_ARENAS ==> g.hi[i] <= g1.hi[i]
  }

  lemma {:induction false} RepNarrower(h: Heap, g: Gap, g1: Gap, c: Cell, v: Value)
    requires ValidHeap(h) && WfGap(g) && WfGap(g1) && Narrower(g, g1)
    requires Rep(h, g1, c, v)
    ensures Rep(h, g, c, v)
  {
    hide Rep;
    RepKept(h, g1, h, g, c, v);
  }

  /** An array or struct assembled at offset `o` of region `a`. */
  lemma {:induction false} NodeBuilt(h: Heap, g: Gap, g1: Gap, a: int, o: int, ty: int, kids: seq<Value>)
    requires ValidHeap(h) && WfGap(g) && WfGap(g1) && Narrower(g, g1)
    requires 0 <= a < MAX_ARENAS && h[a].active
    requires 0 <= o && o + 2 + |kids| <= h[a].head && g.hi[a] <= o
    requires h[a].mem[o].val == ty && h[a].mem[o + 1].val == |kids| && (ty == TYPE_ARRAY || ty >= 0)
    requires forall i :: 0 <= i < |kids| ==> Rep(h, g1, h[a].mem[o + 2 + i], kids[i])
    ensures Rep(h, g, Cell(Pack(h[a].gen, a, o), T_OBJ), Node(ty, kids))
  {
    hide Off, Region, Gen, Pack;
    var q := Pack(h[a].gen, a, o);
    PackRoundTrip(h[a].gen, a, o);
    forall i | 0 <= i < |kids| ensures Rep(h, g, At(h, q, 2 + i), kids[i]) {
      assert At(h, q, 2 + i) == h[a].mem[o + 2 + i];
      RepNarrower(h, g, g1, h[a].mem[o + 2 + i], kids[i]);
    }
  }

  /** A map header at offset `o` of region `a` with its data block at `d`. */
  lemma {:induction false} DictBuilt(h: Heap, g: Gap, g1: Gap, a: int, o: int, d: int, cap: int, count: int, slots: seq<Value>)
    requires ValidHeap(h) && WfGap(g) && WfGap(g1) && Narrower(g, g1)
    requires 0 <= a < MAX_ARENAS && h[a].active
    requires 0 <= o && o + 4 <= h[a].head && g.hi[a] <= o
    requires h[a].mem[o].val == TYPE_MAP && h[a].mem[o + 1].val == cap
    requires h[a].mem[o + 2].val == count && h[a].mem[o + 3].val == d
    requires 0 <= count <= cap && 0 < cap && |slots| == 2 * cap
    requires ObjAt(h, g, d, |slots|)
    requires forall i :: 0 <= i < |slots| ==> Rep(h, g1, At(h, d, i), slots[i])
    ensures Rep(h, g, Cell(Pack(h[a].gen, a, o), T_OBJ), Dict(cap, count, slots))
  {
    hide Off, Region, Gen, Pack;
    var q := Pack(h[a].gen, a, o);
    PackRoundTrip(h[a].gen, a, o);
    assert At(h, q, 0) == h[a].mem[o] && At(h, q, 1) == h[a].mem[o + 1];
    assert At(h, q, 2) == h[a].mem[o + 2] && At(h, q, 3) == h[a].mem[o + 3];
    forall i | 0 <= i < |slots| ensures Rep(h, g, At(h, d, i), slots[i]) {
      RepNarrower(h, g, g1, At(h, d, i), slots[i]);
    }
  }

  // ---- The steps of the copy, one at a time ----

  lemma NodeSteps(h: Heap, p: int, target: int, n: nat) returns (h1: Heap, h2: Heap)
    requires ValidHeap(h) && Live(h, p) && p > 0 && target <= Off(p) && Off(p) + 2 + n <= MAX_HEAP
    requires (At(h, p, 0).val == TYPE_ARRAY || At(h, p, 0).val >= 0) && At(h, p, 1).val == n
    requires Evac(h, p, target).Some?
    ensures Room(h, Region(p), 2 + n)
    ensures h1 == Copied(h, Region(p), p, 2 + n)
    ensures EvacKids(h1, Region(p), h[Region(p)].head + 2, n, target) == Some(h2)
    ensures Evac(h, p, target) == Some((h2, Pack(h[Region(p)].gen, Region(p), h[Region(p)].head)))
    ensures ValidHeap(h2) && GrownBut(h1, h2, Region(p), h[Region(p)].head + 2, h[Region(p)].head + 2 + n)
  {
    hide Off, Region, Gen, Pack, EvacKids, GrownBut, Append, Space;
    h1 := Copied(h, Region(p), p, 2 + n);
    h2 := EvacKids(h1, Region(p), h[Region(p)].head + 2, n, target).value;
  }

  lemma BlobSteps(h: Heap, p: int, target: int, len: nat)
    requires ValidHeap(h) && Live(h, p) && p > 0 && target <= Off(p) && Off(p) + 2 <= MAX_HEAP
    requires PackedType(At(h, p, 0).val) && At(h, p, 1).val == len
    requires Off(p) + 2 + PackedCells(At(h, p, 0).val, len) <= MAX_HEAP
    requires Evac(h, p, target).Some?
    ensures var a, size := Region(p), 2 + PackedCells(At(h, p, 0).val, len);
      && Room(h, a, size)
      && Evac(h, p, target).value == (Copied(h, a, p, size), Pack(h[a].gen, a, h[a].head))
  {
    hide Off, Region, Gen, Pack, EvacKids, GrownBut, Append, Space;
  }

  lemma DictSteps(h: Heap, p: int, target: int)
    requires ValidHeap(h) && Live(h, p) && p > 0 && target <= Off(p) && Off(p) + 4 <= MAX_HEAP
    requires At(h, p, 0).val == TYPE_MAP && At(h, p, 1).val >= 0
    requires Evac(h, p, target).Some?
    ensures Room(h, Region(p), 4)
    ensures var a := Region(p);
      var h1 := Copied(h, a, p, 4);
      var r := EvacData(h1, a, h[a].head, target);
      && r.Some?
      && Evac(h, p, target).value == (r.value, Pack(h[a].gen, a, h[a].head))
  {
    hide Off, Region, Gen, Pack, EvacData, GrownBut, Append, Space;
  }

  /** The map header at `at` after its data block was moved to the head. */
  ghost function Repointed(h: Heap, a: int, at: int, d: int, n: nat): (h2: Heap)
    requires ValidHeap(h) && 0 <= a < MAX_ARENAS && Room(h, a, n) && 0 <= at && at + 4 <= h[a].head
    requires Live(h, d) && Off(d) + n <= MAX_HEAP
    ensures ValidHeap(h2) && h2[a].active && h2[a].head == h[a].head + n
  {
    Write(Copied(h, a, d, n), a, at + 3, Cell(Pack(h[a].gen, a, h[a].head), h[a].mem[at + 3].tag))
  }

  lemma DataSteps(h: Heap, a: int, at: int, target: int, d: int, n: nat)
    requires ValidHeap(h) && 0 <= a < MAX_ARENAS && h[a].active && 0 <= at && at + 4 <= h[a].head
    requires h[a].mem[at + 1].val * 2 == n && h[a].mem[at + 3].val == d
    requires Live(h, d) && target <= Off(d) && Off(d) + n <= MAX_HEAP
    requires EvacData(h, a, at, target).Some?
    ensures Room(h, a, n)
    ensures var h2 := Repointed(h, a, at, d, n);
      var r := EvacKids(h2, a, h[a].head, n, target);
      && EvacData(h, a, at, target) == r
      && ValidHeap(r.value) && GrownBut(h2, r.value, a, h[a].head, h[a].head + n)
  {
    hide Off, Region, Gen, Pack, EvacKids, GrownBut, Append, Space;
  }

  lemma RepointedCells(h0: Heap, h: Heap, a: int, at: int, d: int, n: nat)
    requires ValidHeap(h0) && ValidHeap(h) && Grown(h0, h) && n > 0
    requires 0 <= a < MAX_ARENAS && Room(h, a, n) && h0[a].head <= at && at + 4 <= h[a].head
    requires ObjAt(h0, NoGap(), d, n) && Live(h, d) && Off(d) + n <= MAX_HEAP
    ensures var h2 := Repointed(h, a, at, d, n);
      && Grown(h0, h2) && (forall i :: 0 <= i < MAX_ARENAS ==> h[i].head <= h2[i].head)
      && h2[a].mem[at] == h[a].mem[at] && h2[a].mem[at + 1] == h[a].mem[at + 1] && h2[a].mem[at + 2] == h[a].mem[at + 2]
      && h2[a].gen == h[a].gen && h2[a].mem[at + 3].val == Pack(h[a].gen, a, h[a].head)
      && forall i :: 0 <= i < n ==> h2[a].mem[h[a].head + i] == At(h0, d, i)
  {
    hide Off, Region, Gen, Pack, Copied;
    BlockCopied(h0, h, a, d, n);
    var h1 := Copied(h, a, d, n);
    assert h1[a].mem[at] == h[a].mem[at] && h1[a].mem[at + 1] == h[a].mem[at + 1] && h1[a].mem[at + 2] == h[a].mem[at + 2];
  }

  // ---- The copy is faithful ----

  /** No i16[] or i32[] anywhere: exactly the values of which every part is copied. */
  ghost predicate Copyable(v: Value)
    decreases v
  {
    match v
    case Leaf(_, _) => true
    case Node(_, kids) => forall i :: 0 <= i < |kids| ==> Copyable(kids[i])
    case Blob(ty, _, _) => !NarrowType(ty)
    case Dict(_, _, slots) => forall i :: 0 <= i < |slots| ==> Copyable(slots[i])
  }

  /** The parts of the result lie outside [lo, head of h): either nothing at all may be shared
      (lo = 0, target 0), or parts may be shared with the heap `h0` that copying began in. */
  ghost predicate Sharing(h0: Heap, lo: seq<int>, target: int, v: Value)
    requires |h0| == MAX_ARENAS && |lo| == MAX_ARENAS
  {
    || (forall i :: 0 <= i < MAX_ARENAS ==> lo[i] == h0[i].head)
    || (target <= 0 && Copyable(v) && forall i :: 0 <= i < MAX_ARENAS ==> lo[i] == 0)
  }

  lemma SharingLo(h0: Heap, lo: seq<int>, target: int, v: Value)
    requires ValidHeap(h0) && |lo| == MAX_ARENAS && Sharing(h0, lo, target, v)
    ensures forall i :: 0 <= i < MAX_ARENAS ==> lo[i] <= h0[i].head
  {
  }

  lemma KidsSharing(h0: Heap, lo: seq<int>, target: int, ty: int, kids: seq<Value>, i: int)
    requires |h0| == MAX_ARENAS && |lo| == MAX_ARENAS && 0 <= i < |kids|
    requires Sharing(h0, lo, target, Node(ty, kids))
    ensures Sharing(h0, lo, target, kids[i])
  {
  }

  /** A part that is not copied was there when copying began, so it avoids the gap. */
  lemma SharedRep(h0: Heap, h: Heap, g: Gap, p: int, target: int, v: Value)
    requires ValidHeap(h0) && ValidHeap(h) && WfGap(g) && Grown(h0, h)
    requires Rep(h0, NoGap(), Cell(p, T_OBJ), v)
    requires g.hi == Heads(h) && Sharing(h0, g.lo, target, v)
    requires Off(p) < target || (v.Blob? && NarrowType(v.ty))
    ensures Rep(h, g, Cell(p, T_OBJ), v)
  {
    hide Rep;
    assert forall i :: 0 <= i < MAX_ARENAS ==> g.lo[i] == h0[i].head by {
      assert target <= 0 ==> !(Off(p) < target);
    }
    RepKept(h0, NoGap(), h, g, Cell(p, T_OBJ), v);
  }

  lemma SharedEvac(h0: Heap, h: Heap, p: int, target: int, v: Value)
    requires ValidHeap(h0) && ValidHeap(h) && Grown(h0, h)
    requires Rep(h0, NoGap(), Cell(p, T_OBJ), v)
    requires Off(p) < target || (v.Blob? && NarrowType(v.ty))
    requires Evac(h, p, target).Some?
    ensures Evac(h, p, target).value == (h, p)
  {
    hide Off, Region, Gen, Pack, EvacKids, EvacData, Append, Space;
    if v.Blob? {
      ObjGrown(h0, h, p, 2 + |v.words|);
      assert At(h, p, 0) == At(h0, p, 0);
    }
  }

  /** The unfolding of the evacuated object equals the original's, in the heap it leaves behind. */
  lemma {:induction false} EvacRep(h0: Heap, h: Heap, g: Gap, p: int, target: int, v: Value)
    requires ValidHeap(h0) && ValidHeap(h) && WfGap(g) && Grown(h0, h)
    requires Rep(h0, NoGap(), Cell(p, T_OBJ), v)
    requires g.hi == Heads(h) && Sharing(h0, g.lo, target, v)
    requires Evac(h, p, target).Some?
    ensures var (h', q) := Evac(h, p, target).value; Rep(h', g, Cell(q, T_OBJ), v)
    decreases v, 1
  {
    if Off(p) < target || (v.Blob? && NarrowType(v.ty)) {
      SharedRep(h0, h, g, p, target, v);
      SharedEvac(h0, h, p, target, v);
    } else {
      hide Evac, Rep;
      match v
      case Node(ty, kids) => NodeCopied(h0, h, g, p, target, ty, kids);
      case Blob(ty, len, words) => BlobCopied(h0, h, g, p, target, ty, len, words);
      case Dict(cap, count, slots) => DictCopied(h0, h, g, p, target, cap, count, slots);
    }
  }

  lemma {:induction false} NodeCopied(h0: Heap, h: Heap, g: Gap, p: int, target: int, ty: int, kids: seq<Value>)
    requires ValidHeap(h0) && ValidHeap(h) && WfGap(g) && Grown(h0, h)
    requires Rep(h0, NoGap(), Cell(p, T_OBJ), Node(ty, kids))
    requires g.hi == Heads(h) && Sharing(h0, g.lo, target, Node(ty, kids))
    requires Evac(h, p, target).Some? && Off(p) >= target
    ensures var (h', q) := Evac(h, p, target).value; Rep(h', g, Cell(q, T_OBJ), Node(ty, kids))
    decreases Node(ty, kids), 0
  {
    hide Off, Region, Gen, Pack, Copied, GrownBut, Keeps, Space, Evac, EvacKids, Sharing;
    assert ObjAt(h0, NoGap(), p, 2 + |kids|);
    var a, size, head := Region(p), 2 + |kids|, h[Region(p)].head;
    ObjGrown(h0, h, p, size);
    var h1, h' := NodeSteps(h, p, target, |kids|);
    BlockCopied(h0, h, a, p, size);
    SharingLo(h0, g.lo, target, Node(ty, kids));
    forall i | 0 <= i < |kids|
      ensures Rep(h0, NoGap(), h1[a].mem[head + 2 + i], kids[i]) && Sharing(h0, g.lo, target, kids[i])
    {
      KidsSharing(h0, g.lo, target, ty, kids, i);
      assert h1[a].mem[head + (2 + i)] == At(h0, p, 2 + i);
    }
    EvacKidsRep(h0, h1, g.lo, a, head + 2, kids, target);
    GrownThen(h, h1, h', a, head + 2, head + size);
    Unchanged(h1, h', a, head + 2, head + size, head);
    Unchanged(h1, h', a, head + 2, head + size, head + 1);
    assert h1[a].mem[head + 0] == At(h0, p, 0) && h1[a].mem[head + 1] == At(h0, p, 1);
    HeadsRise(h, h1);
    NodeBuilt(h', g, Gap(g.lo, Heads(h1)), a, head, ty, kids);
  }

  lemma {:induction false} BlobCopied(h0: Heap, h: Heap, g: Gap, p: int, target: int, ty: int, len: int, words: seq<int>)
    requires ValidHeap(h0) && ValidHeap(h) && WfGap(g) && Grown(h0, h)
    requires Rep(h0, NoGap(), Cell(p, T_OBJ), Blob(ty, len, words)) && PackedType(ty)
    requires g.hi == Heads(h)
    requires Evac(h, p, target).Some? && Off(p) >= target
    ensures var (h', q) := Evac(h, p, target).value; Rep(h', g, Cell(q, T_OBJ), Blob(ty, len, words))
  {
    hide Off, Region, Gen, Pack, Copied, GrownBut, Keeps, Space, Evac, PackedCells;
    var a, size, head := Region(p), 2 + |words|, h[Region(p)].head;
    ObjGrown(h0, h, p, size);
    BlobSteps(h, p, target, len);
    BlockCopied(h0, h, a, p, size);
    var h1 := Copied(h, a, p, size);
    var q := Pack(h[a].gen, a, head);
    PackRoundTrip(h[a].gen, a, head);
    assert forall i :: 0 <= i < size ==> At(h1, q, i) == At(h0, p, i);
  }

  lemma {:induction false} DictCopied(h0: Heap, h: Heap, g: Gap, p: int, target: int, cap: int, count: int, slots: seq<Value>)
    requires ValidHeap(h0) && ValidHeap(h) && WfGap(g) && Grown(h0, h)
    requires Rep(h0, NoGap(), Cell(p, T_OBJ), Dict(cap, count, slots))
    requires g.hi == Heads(h) && Sharing(h0, g.lo, target, Dict(cap, count, slots))
    requires Evac(h, p, target).Some? && Off(p) >= target
    ensures var (h', q) := Evac(h, p, target).value; Rep(h', g, Cell(q, T_OBJ), Dict(cap, count, slots))
    decreases Dict(cap, count, slots), 0
  {
    hide Off, Region, Gen, Pack, Copied, GrownBut, Keeps, Space, Evac, EvacData, Sharing;
    var a, head, d := Region(p), h[Region(p)].head, At(h0, p, 3).val;
    assert ObjAt(h0, NoGap(), p, 4) && ObjAt(h0, NoGap(), d, |slots|);
    ObjGrown(h0, h, p, 4);
    DictSteps(h, p, target);
    BlockCopied(h0, h, a, p, 4);
    var h1 := Copied(h, a, p, 4);
    assert h1[a].mem[head + 0] == At(h0, p, 0) && h1[a].mem[head + 1] == At(h0, p, 1);
    assert h1[a].mem[head + 2] == At(h0, p, 2) && h1[a].mem[head + 3] == At(h0, p, 3);
    ObjGrown(h0, h1, d, |slots|);
    if Off(d) < target {
      DataShared(h0, h, h1, g, a, head, d, target, cap, count, slots);
    } else {
      HeadsRise(h, h1);
      DataCopied(h0, h1, g, a, head, d, target, cap, count, slots);
    }
  }

  lemma {:induction false} DataShared(h0: Heap, h: Heap, h1: Heap, g: Gap, a: int, at: int, d: int, target: int, cap: int, count: int, slots: seq<Value>)
    requires ValidHeap(h0) && ValidHeap(h) && ValidHeap(h1) && WfGap(g) && Grown(h0, h1)
    requires 0 <= a < MAX_ARENAS && h1[a].active && 0 <= at == h[a].head && at + 4 <= h1[a].head
    requires h1[a].mem[at].val == TYPE_MAP && h1[a].mem[at + 1].val == cap
    requires h1[a].mem[at + 2].val == count && h1[a].mem[at + 3].val == d
    requires 0 <= count <= cap && 0 < cap && |slots| == 2 * cap
    requires ObjAt(h0, NoGap(), d, |slots|) && Live(h1, d) && Off(d) < target
    requires forall i :: 0 <= i < |slots| ==> Rep(h0, NoGap(), At(h0, d, i), slots[i])
    requires g.hi == Heads(h) && Sharing(h0, g.lo, target, Dict(cap, count, slots))
    ensures EvacData(h1, a, at, target) == Some(h1)
    ensures Rep(h1, g, Cell(Pack(h1[a].gen, a, at), T_OBJ), Dict(cap, count, slots))
  {
    hide Off, Region, Gen, Pack, Rep;
    assert forall i :: 0 <= i < MAX_ARENAS ==> g.lo[i] == h0[i].head by {
      assert Off(d) >= 0;
    }
    ObjKept(h0, NoGap(), h1, g, d, |slots|);
    forall i | 0 <= i < |slots| ensures Rep(h1, g, At(h1, d, i), slots[i]) {
      RepKept(h0, NoGap(), h1, g, At(h0, d, i), slots[i]);
    }
    DictBuilt(h1, g, g, a, at, d, cap, count, slots);
  }

  lemma {:induction false} DataCopied(h0: Heap, h: Heap, g: Gap, a: int, at: int, d: int, target: int, cap: int, count: int, slots: seq<Value>)
    requires ValidHeap(h0) && ValidHeap(h) && WfGap(g) && Grown(h0, h)
    requires 0 <= a < MAX_ARENAS && h[a].active && h0[a].head <= at == g.hi[a] && at + 4 <= h[a].head
    requires forall i :: 0 <= i < MAX_ARENAS ==> g.hi[i] <= h[i].head
    requires h[a].mem[at].val == TYPE_MAP && h[a].mem[at + 1].val == cap
    requires h[a].mem[at + 2].val == count && h[a].mem[at + 3].val == d
    requires 0 <= count <= cap && 0 < cap && |slots| == 2 * cap
    requires ObjAt(h0, NoGap(), d, |slots|) && Live(h, d) && Off(d) >= target && Off(d) + |slots| <= MAX_HEAP
    requires forall i :: 0 <= i < |slots| ==> Rep(h0, NoGap(), At(h0, d, i), slots[i])
    requires Sharing(h0, g.lo, target, Dict(cap, count, slots))
    requires EvacData(h, a, at, target).Some?
    ensures var h' := EvacData(h, a, at, target).value;
      Rep(h', g, Cell(Pack(h[a].gen, a, at), T_OBJ), Dict(cap, count, slots))
    decreases slots, 1
  {
    hide Off, Region, Gen, Pack, Rep, Repointed, GrownBut, Keeps, Space, EvacData, EvacKids, Sharing;
    var n, head := |slots|, h[a].head;
    DataSteps(h, a, at, target, d, n);
    RepointedCells(h0, h, a, at, d, n);
    var h2 := Repointed(h, a, at, d, n);
    var h' := EvacKids(h2, a, head, n, target).value;
    SharingLo(h0, g.lo, target, Dict(cap, count, slots));
    forall i | 0 <= i < n
      ensures Rep(h0, NoGap(), h2[a].mem[head + i], slots[i]) && Sharing(h0, g.lo, target, slots[i])
    {
      SlotsSharing(h0, g.lo, target, cap, count, slots, i);
    }
    EvacKidsRep(h0, h2, g.lo, a, head, slots, target);
    GrownThen(h0, h2, h', a, head, head + n);
    Unchanged(h2, h', a, head, head + n, at);
    Unchanged(h2, h', a, head, head + n, at + 1);
    Unchanged(h2, h', a, head, head + n, at + 2);
    Unchanged(h2, h', a, head, head + n, at + 3);
    var e := Pack(h[a].gen, a, head);
    PackRoundTrip(h[a].gen, a, head);
    assert ObjAt(h', g, e, n);
    DictBuilt(h', g, Gap(g.lo, Heads(h2)), a, at, e, cap, count, slots);
  }

  lemma SlotsSharing(h0: Heap, lo: seq<int>, target: int, cap: int, count: int, slots: seq<Value>, i: int)
    requires |h0| == MAX_ARENAS && |lo| == MAX_ARENAS && 0 <= i < |slots|
    requires Sharing(h0, lo, target, Dict(cap, count, slots))
    ensures Sharing(h0, lo, target, slots[i])
  {
  }

  lemma {:induction false} EvacKidsRep(h0: Heap, h: Heap, lo: seq<int>, a: int, at: int, kids: seq<Value>, target: int)
    requires ValidHeap(h0) && ValidHeap(h) && Grown(h0, h) && |lo| == MAX_ARENAS
    requires 0 <= a < MAX_ARENAS && h[a].active && h0[a].head <= at && at + |kids| <= h[a].head
    requires forall i :: 0 <= i < MAX_ARENAS ==> lo[i] <= h0[i].head
    requires forall i :: 0 <= i < |kids| ==> Rep(h0, NoGap(), h[a].mem[at + i], kids[i])
    requires forall i :: 0 <= i < |kids| ==> Sharing(h0, lo, target, kids[i])
    requires EvacKids(h, a, at, |kids|, target).Some?
    ensures var h' := EvacKids(h, a, at, |kids|, target).value;
      forall i :: 0 <= i < |kids| ==> Rep(h', Gap(lo, Heads(h)), h'[a].mem[at + i], kids[i])
    decreases kids, 0
  {
    hide Off, Region, Gen, Pack, Rep, GrownBut, Keeps, Space, Sharing, EvacKids, Evac, Narrower;
    var h' := EvacKids(h, a, at, |kids|, target).value;
    CellsMoved(h0, h, lo, a, at, kids, target);
  }

  /** The cells from `at` on unfold to `kids`. */
  ghost predicate CellsRep(h: Heap, g: Gap, m: seq<Cell>, at: int, kids: seq<Value>)
    requires ValidHeap(h) && WfGap(g) && 0 <= at && at + |kids| <= |m|
  {
    forall i :: 0 <= i < |kids| ==> Rep(h, g, m[at + i], kids[i])
  }

  ghost predicate AllSharing(h0: Heap, lo: seq<int>, target: int, kids: seq<Value>)
    requires |h0| == MAX_ARENAS && |lo| == MAX_ARENAS
  {
    forall i :: 0 <= i < |kids| ==> Sharing(h0, lo, target, kids[i])
  }

  lemma {:induction false} CellsMoved(h0: Heap, h: Heap, lo: seq<int>, a: int, at: int, kids: seq<Value>, target: int)
    requires ValidHeap(h0) && ValidHeap(h) && Grown(h0, h) && |lo| == MAX_ARENAS
    requires 0 <= a < MAX_ARENAS && h[a].active && h0[a].head <= at && at + |kids| <= h[a].head
    requires forall i :: 0 <= i < MAX_ARENAS ==> lo[i] <= h0[i].head
    requires CellsRep(h0, NoGap(), h[a].mem, at, kids) && AllSharing(h0, lo, target, kids)
    requires EvacKids(h, a, at, |kids|, target).Some?
    ensures var h' := EvacKids(h, a, at, |kids|, target).value;
      at + |kids| <= |h'[a].mem| && CellsRep(h', Gap(lo, Heads(h)), h'[a].mem, at, kids)
    decreases kids, -1
  {
    hide Off, Region, Gen, Pack, Rep, GrownBut, Keeps, Space, Sharing, EvacKids, Evac, Narrower, Heads;
    var h' := EvacKids(h, a, at, |kids|, target).value;
    assert |h'[a].mem| == |h[a].mem| by { MovedSame(h, a, at, |kids|, target); }
    if |kids| == 0 {
      assert CellsRep(h', Gap(lo, Heads(h)), h'[a].mem, at, kids);
    } else {
      hide CellsRep, AllSharing;
      var v, rest := kids[0], kids[1..];
      FirstCell(h0, lo, target, h[a].mem, at, kids);
      var h2 := KidMoved(h0, h, lo, a, at, v, target, |kids|);
      RestCells(h0, h, h2, lo, a, at, kids, target);
      CellsMoved(h0, h2, lo, a, at + 1, rest, target);
      KidStays(h0, h, h2, h', lo, a, at, |rest|, v);
      ConsCells(h', lo, h, h2, h'[a].mem, at, kids);
    }
  }

  lemma MovedSame(h: Heap, a: int, at: int, n: nat, target: int)
    requires ValidHeap(h) && 0 <= a < MAX_ARENAS && h[a].active && 0 <= at && at + n <= h[a].head
    requires EvacKids(h, a, at, n, target).Some?
    ensures |EvacKids(h, a, at, n, target).value[a].mem| == |h[a].mem|
  {
    hide EvacKids, Evac;
    assert SameArena(h[a], EvacKids(h, a, at, n, target).value[a]);
  }

  lemma FirstCell(h0: Heap, lo: seq<int>, target: int, m: seq<Cell>, at: int, kids: seq<Value>)
    requires ValidHeap(h0) && |lo| == MAX_ARENAS && 0 <= at && at + |kids| <= |m| && |kids| > 0
    requires CellsRep(h0, NoGap(), m, at, kids) && AllSharing(h0, lo, target, kids)
    ensures Rep(h0, NoGap(), m[at], kids[0]) && Sharing(h0, lo, target, kids[0])
  {
    hide Rep, Sharing;
    assert m[at + 0] == m[at];
  }

  lemma RestCells(h0: Heap, h: Heap, h2: Heap, lo: seq<int>, a: int, at: int, kids: seq<Value>, target: int)
    requires ValidHeap(h0) && ValidHeap(h) && ValidHeap(h2) && GrownBut(h, h2, a, at, at + 1) && |lo| == MAX_ARENAS
    requires 0 <= a < MAX_ARENAS && |kids| > 0 && 0 <= at && at + |kids| <= h[a].head && h[a].active && h2[a].active
    requires CellsRep(h0, NoGap(), h[a].mem, at, kids) && AllSharing(h0, lo, target, kids)
    ensures at + |kids| <= |h2[a].mem|
    ensures CellsRep(h0, NoGap(), h2[a].mem, at + 1, kids[1..]) && AllSharing(h0, lo, target, kids[1..])
  {
    hide Rep, Sharing, GrownBut;
    forall i | 0 <= i < |kids[1..]| ensures Rep(h0, NoGap(), h2[a].mem[at + 1 + i], kids[1..][i]) {
      Unchanged(h, h2, a, at, at + 1, at + 1 + i);
      assert h[a].mem[at + 1 + i] == h[a].mem[at + (1 + i)];
    }
  }

  lemma ConsCells(h': Heap, lo: seq<int>, h: Heap, h2: Heap, m: seq<Cell>, at: int, kids: seq<Value>)
    requires ValidHeap(h') && |lo| == MAX_ARENAS && |h| == MAX_ARENAS && |h2| == MAX_ARENAS
    requires Narrower(Gap(lo, Heads(h)), Gap(lo, Heads(h2))) && |kids| > 0 && 0 <= at && at + |kids| <= |m|
    requires Rep(h', Gap(lo, Heads(h)), m[at], kids[0]) && CellsRep(h', Gap(lo, Heads(h2)), m, at + 1, kids[1..])
    ensures CellsRep(h', Gap(lo, Heads(h)), m, at, kids)
  {
    hide Rep, Narrower;
    forall i | 0 <= i < |kids| ensures Rep(h', Gap(lo, Heads(h)), m[at + i], kids[i]) {
      if i > 0 {
        assert m[at + i] == m[at + 1 + (i - 1)] && kids[i] == kids[1..][i - 1];
        RepNarrower(h', Gap(lo, Heads(h)), Gap(lo, Heads(h2)), m[at + i], kids[i]);
      }
    }
  }

  /** One cell of the block: a plain cell stays, an object is evacuated and the cell repointed. */
  lemma {:induction false} KidMoved(h0: Heap, h: Heap, lo: seq<int>, a: int, at: int, v: Value, target: int, n: nat) returns (h2: Heap)
    requires ValidHeap(h0) && ValidHeap(h) && Grown(h0, h) && |lo| == MAX_ARENAS
    requires 0 <= a < MAX_ARENAS && h[a].active && h0[a].head <= at && at + n <= h[a].head && n > 0
    requires forall i :: 0 <= i < MAX_ARENAS ==> lo[i] <= h0[i].head
    requires Rep(h0, NoGap(), h[a].mem[at], v) && Sharing(h0, lo, target, v)
    requires EvacKids(h, a, at, n, target).Some?
    ensures ValidHeap(h2) && h2[a].active && Grown(h0, h2) && GrownBut(h, h2, a, at, at + 1)
    ensures h[a].head <= h2[a].head && Narrower(Gap(lo, Heads(h)), Gap(lo, Heads(h2)))
    ensures EvacKids(h, a, at, n, target) == EvacKids(h2, a, at + 1, n - 1, target)
    ensures Rep(h2, Gap(lo, Heads(h)), h2[a].mem[at], v)
    ensures h[a].mem[at].tag != T_OBJ ==> h2 == h
    ensures h[a].mem[at].tag == T_OBJ ==>
      var r := Evac(h, h[a].mem[at].val, target);
      r.Some? && at < |r.value.0[a].mem| && h2 == Write(r.value.0, a, at, Cell(r.value.1, T_OBJ))
    decreases v, 2
  {
    var c, g := h[a].mem[at], Gap(lo, Heads(h));
    if c.tag == T_OBJ {
      hide Off, Region, Gen, Pack, Rep, Space, Sharing, Evac, GrownBut, Keeps;
      assert c == Cell(c.val, T_OBJ);
      EvacRep(h0, h, g, c.val, target, v);
      var (h1, q) := Evac(h, c.val, target).value;
      h2 := Repointing(h0, h, h1, lo, a, at, q, v);
    } else {
      h2 := h;
      LeafStays(h0, h, lo, a, at, v);
    }
  }

  lemma LeafStays(h0: Heap, h: Heap, lo: seq<int>, a: int, at: int, v: Value)
    requires ValidHeap(h0) && ValidHeap(h) && |lo| == MAX_ARENAS && 0 <= a < MAX_ARENAS && 0 <= at < |h[a].mem|
    requires Rep(h0, NoGap(), h[a].mem[at], v) && h[a].mem[at].tag != T_OBJ
    ensures Rep(h, Gap(lo, Heads(h)), h[a].mem[at], v)
    ensures GrownBut(h, h, a, at, at + 1)
  {
    assert v.Leaf?;
  }

  lemma {:induction false} Repointing(h0: Heap, h: Heap, h1: Heap, lo: seq<int>, a: int, at: int, q: int, v: Value) returns (h2: Heap)
    requires ValidHeap(h0) && ValidHeap(h) && ValidHeap(h1) && Grown(h0, h) && Grown(h, h1) && |lo| == MAX_ARENAS
    requires 0 <= a < MAX_ARENAS && h[a].active && h0[a].head <= at < h[a].head
    requires forall i :: 0 <= i < MAX_ARENAS ==> lo[i] <= h0[i].head
    requires Rep(h1, Gap(lo, Heads(h)), Cell(q, T_OBJ), v)
    ensures at < |h1[a].mem| && h2 == Write(h1, a, at, Cell(q, T_OBJ))
    ensures ValidHeap(h2) && h2[a].active && Grown(h0, h2) && GrownBut(h, h2, a, at, at + 1)
    ensures h[a].head <= h2[a].head && Narrower(Gap(lo, Heads(h)), Gap(lo, Heads(h2)))
    ensures Rep(h2, Gap(lo, Heads(h)), h2[a].mem[at], v)
  {
    hide Off, Region, Gen, Pack, Rep;
    assert SameArena(h[a], h1[a]);
    h2 := Write(h1, a, at, Cell(q, T_OBJ));
    RepKept(h1, Gap(lo, Heads(h)), h2, Gap(lo, Heads(h)), Cell(q, T_OBJ), v);
  }

  /** What later cells of the block do never touches a part that was already moved. */
  lemma {:induction false} KidStays(h0: Heap, h: Heap, h2: Heap, h': Heap, lo: seq<int>, a: int, at: int, n: nat, v: Value)
    requires ValidHeap(h0) && ValidHeap(h) && ValidHeap(h2) && ValidHeap(h') && |lo| == MAX_ARENAS
    requires 0 <= a < MAX_ARENAS && h2[a].active && h0[a].head <= at && at + 1 + n <= h[a].head <= h2[a].head
    requires forall i :: 0 <= i < MAX_ARENAS ==> lo[i] <= h0[i].head
    requires GrownBut(h2, h', a, at + 1, at + 1 + n)
    requires Rep(h2, Gap(lo, Heads(h)), h2[a].mem[at], v)
    ensures Rep(h', Gap(lo, Heads(h)), h'[a].mem[at], v)
  {
    hide Off, Region, Gen, Pack, Rep;
    RepKept(h2, Gap(lo, Heads(h)), h', Gap(lo, Heads(h)), h2[a].mem[at], v);
  }
}
