/** What evacuation and copy() promise: the same unfolding, an untouched original, and, for copy(), no
    cell in common, exactly when no i16[] or i32[] is reachable (src/vm.c:118-226;
    src/mylolib.c:147-171). */
module Copying {
  import opened Defines
  import opened Arenas
  import opened Evacuation
  import opened Sizing

  /** All of what was allocated in `h` is forbidden: only what is new may be used. */
  ghost function NewOnly(h: Heap): (g: Gap)
    requires ValidHeap(h)
    ensures WfGap(g)
  {
    Gap(seq(MAX_ARENAS, i => 0), Heads(h))
  }

  /** Whatever the boundary, the result unfolds to the same value, byte by byte for a packed array, and no
      cell below a head changed. */
  lemma EvacFaithful(h: Heap, p: int, target: int, v: Value)
    requires ValidHeap(h) && Rep(h, NoGap(), Cell(p, T_OBJ), v)
    requires Evac(h, p, target).Some?
    ensures var (h', q) := Evac(h, p, target).value;
      && Rep(h', NoGap(), Cell(q, T_OBJ), v) && Grown(h, h')
      && Rep(h', NoGap(), Cell(p, T_OBJ), v)
      && (v.Blob? ==> 0 <= v.len && forall w: nat :: Wide(v.ty, w) ==> SameBytes(h, p, h', q, v.len * w))
  {
    hide Evac, Rep, Grown;
    var (h', q) := Evac(h, p, target).value;
    var g := Gap(Heads(h), Heads(h));
    GrownSelf(h);
    EvacRep(h, h, g, p, target, v);
    RepAnywhere(h', g, Cell(q, T_OBJ), v);
    RepGrown(h, h', NoGap(), Cell(p, T_OBJ), v);
    if v.Blob? {
      LengthNat(h, p, v);
      hide Wide, SameBytes;
      forall w: nat | Wide(v.ty, w) ensures 0 <= v.len && SameBytes(h, p, h', q, v.len * w) {
        AlikeBytes(h, p, h', q, v, w);
      }
    }
  }

  lemma LengthNat(h: Heap, p: int, v: Value)
    requires ValidHeap(h) && v.Blob? && Rep(h, NoGap(), Cell(p, T_OBJ), v)
    ensures 0 <= v.len
  {
  }

  lemma RepAnywhere(h: Heap, g: Gap, c: Cell, v: Value)
    requires ValidHeap(h) && WfGap(g) && Rep(h, g, c, v)
    ensures Rep(h, NoGap(), c, v)
  {
    hide Rep;
    RepKept(h, g, h, NoGap(), c, v);
  }

  /** copy(): every cell reachable from the result is new. */
  lemma CopyIsDeep(h: Heap, p: int, v: Value)
    requires ValidHeap(h) && Rep(h, NoGap(), Cell(p, T_OBJ), v) && Copyable(v)
    requires Evac(h, p, 0).Some?
    ensures var (h', q) := Evac(h, p, 0).value; Rep(h', NewOnly(h), Cell(q, T_OBJ), v)
  {
    hide Evac, Rep;
    GrownSelf(h);
    EvacRep(h, h, NewOnly(h), p, 0, v);
  }

  // ---- Independence ----

  /** Writes to new cells, however many, and further allocation never show in the original. */
  lemma OriginalUnaffected(h: Heap, h2: Heap, p: int, v: Value)
    requires ValidHeap(h) && ValidHeap(h2) && Rep(h, NoGap(), Cell(p, T_OBJ), v)
    requires forall i :: 0 <= i < MAX_ARENAS ==>
      && SameArena(h[i], h2[i]) && h[i].head <= h2[i].head
      && forall j :: 0 <= j < h[i].head && j < |h[i].mem| ==> h2[i].mem[j] == h[i].mem[j]
    ensures Rep(h2, NoGap(), Cell(p, T_OBJ), v)
  {
    hide Rep;
    assert Grown(h, h2);
    RepGrown(h, h2, NoGap(), Cell(p, T_OBJ), v);
  }

  /** Writes to the cells that `h` had allocated never show in a deep copy made from `h`. */
  lemma CopyUnaffected(h: Heap, h1: Heap, h2: Heap, q: int, v: Value)
    requires ValidHeap(h) && ValidHeap(h1) && ValidHeap(h2) && Rep(h1, NewOnly(h), Cell(q, T_OBJ), v)
    requires forall i :: 0 <= i < MAX_ARENAS ==>
      && SameArena(h1[i], h2[i]) && h1[i].head <= h2[i].head
      && forall j :: h[i].head <= j < h1[i].head && 0 <= j < |h1[i].mem| ==> h2[i].mem[j] == h1[i].mem[j]
    ensures Rep(h2, NewOnly(h), Cell(q, T_OBJ), v)
  {
    hide Rep;
    RepKept(h1, NewOnly(h), h2, NewOnly(h), Cell(q, T_OBJ), v);
  }

  // ---- Exactly when ----

  /** Some i16[] or i32[] of the unfolding lies below `lim`. */
  ghost predicate Shares(h: Heap, lim: seq<int>, c: Cell, v: Value)
    requires ValidHeap(h) && |lim| == MAX_ARENAS
    decreases v
  {
    match v
    case Leaf(_, _) => false
    case Blob(ty, _, _) => NarrowType(ty) && Live(h, c.val) && Off(c.val) < lim[Region(c.val)]
    case Node(_, kids) =>
      && Live(h, c.val) && 0 <= Off(c.val) && Off(c.val) + 2 + |kids| <= MAX_HEAP
      && exists i :: 0 <= i < |kids| && Shares(h, lim, At(h, c.val, 2 + i), kids[i])
    case Dict(_, _, slots) =>
      && Live(h, c.val) && 0 <= Off(c.val) && Off(c.val) + 4 <= MAX_HEAP
      && var d := At(h, c.val, 3).val;
        && Live(h, d) && 0 <= Off(d) && Off(d) + |slots| <= MAX_HEAP
        && exists i :: 0 <= i < |slots| && Shares(h, lim, At(h, d, i), slots[i])
  }

  lemma {:induction false} SharesKept(h: Heap, g: Gap, h': Heap, g': Gap, lim: seq<int>, c: Cell, v: Value)
    requires ValidHeap(h) && ValidHeap(h') && WfGap(g) && WfGap(g') && |lim| == MAX_ARENAS
    requires Keeps(h, g, h', g') && Rep(h, g, c, v) && Shares(h, lim, c, v)
    ensures Shares(h', lim, c, v)
    decreases v
  {
    hide Keeps, Off, Region, Gen;
    match v
    case Node(ty, kids) =>
      ObjKept(h, g, h', g', c.val, 2 + |kids|);
      var i :| 0 <= i < |kids| && Shares(h, lim, At(h, c.val, 2 + i), kids[i]);
      SharesKept(h, g, h', g', lim, At(h, c.val, 2 + i), kids[i]);
      assert Shares(h', lim, At(h', c.val, 2 + i), kids[i]);
    case Blob(_, _, words) =>
      ObjKept(h, g, h', g', c.val, 2 + |words|);
    case Dict(cap, count, slots) =>
      ObjKept(h, g, h', g', c.val, 4);
      var d := At(h, c.val, 3).val;
      ObjKept(h, g, h', g', d, |slots|);
      var i :| 0 <= i < |slots| && Shares(h, lim, At(h, d, i), slots[i]);
      SharesKept(h, g, h', g', lim, At(h, d, i), slots[i]);
      assert Shares(h', lim, At(h', d, i), slots[i]);
  }

  /** What shares an old cell is not made of new cells only. */
  lemma {:induction false} SharesNotNew(h: Heap, h': Heap, c: Cell, v: Value)
    requires ValidHeap(h) && ValidHeap(h') && Shares(h', Heads(h), c, v)
    ensures !Rep(h', NewOnly(h), c, v)
    decreases v
  {
    hide Off, Region, Gen, Live;
    if Rep(h', NewOnly(h), c, v) {
      match v
      case Node(_, kids) =>
        var i :| 0 <= i < |kids| && Shares(h', Heads(h), At(h', c.val, 2 + i), kids[i]);
        SharesNotNew(h, h', At(h', c.val, 2 + i), kids[i]);
        assert false;
      case Blob(_, _, _) =>
        assert false;
      case Dict(_, _, slots) =>
        var d := At(h', c.val, 3).val;
        var i :| 0 <= i < |slots| && Shares(h', Heads(h), At(h', d, i), slots[i]);
        SharesNotNew(h, h', At(h', d, i), slots[i]);
        assert false;
    }
  }

  lemma HeadsSharing(h0: Heap, target: int, v: Value)
    requires ValidHeap(h0)
    ensures Sharing(h0, Heads(h0), target, v) && forall i :: 0 <= i < MAX_ARENAS ==> Heads(h0)[i] <= h0[i].head
  {
  }

  /** With boundary 0, a value with an i16[] or i32[] anywhere comes back sharing it. */
  lemma {:induction false} EvacShares(h0: Heap, h: Heap, p: int, v: Value)
    requires ValidHeap(h0) && ValidHeap(h) && Grown(h0, h)
    requires Rep(h0, NoGap(), Cell(p, T_OBJ), v) && !Copyable(v)
    requires Evac(h, p, 0).Some?
    ensures var (h', q) := Evac(h, p, 0).value; Shares(h', Heads(h0), Cell(q, T_OBJ), v)
    decreases v, 1
  {
    match v
    case Node(ty, kids) => NodeShares(h0, h, p, ty, kids);
    case Blob(ty, len, words) =>
      hide Evac, Off, Region, Gen, Pack;
      SharedEvac(h0, h, p, 0, v);
      ObjGrown(h0, h, p, 2 + |words|);
    case Dict(cap, count, slots) => DictShares(h0, h, p, cap, count, slots);
  }

  lemma {:induction false} NodeShares(h0: Heap, h: Heap, p: int, ty: int, kids: seq<Value>)
    requires ValidHeap(h0) && ValidHeap(h) && Grown(h0, h)
    requires Rep(h0, NoGap(), Cell(p, T_OBJ), Node(ty, kids)) && !Copyable(Node(ty, kids))
    requires Evac(h, p, 0).Some?
    ensures var (h', q) := Evac(h, p, 0).value; Shares(h', Heads(h0), Cell(q, T_OBJ), Node(ty, kids))
    decreases Node(ty, kids), 0
  {
    hide Off, Region, Gen, Pack, GrownBut, Evac, EvacKids, Shares, Rep;
    var a, h1, h' := NodeFront(h0, h, p, ty, kids);
    var k :| 0 <= k < |kids| && !Copyable(kids[k]);
    KidsShare(h0, h1, a, h[a].head + 2, kids, k);
    NodeJoined(h', Heads(h0), a, h[a].head, ty, kids, k);
  }

  /** The block of an array is copied before its elements are looked at. */
  lemma NodeFront(h0: Heap, h: Heap, p: int, ty: int, kids: seq<Value>) returns (a: int, h1: Heap, h': Heap)
    requires ValidHeap(h0) && ValidHeap(h) && Grown(h0, h)
    requires Rep(h0, NoGap(), Cell(p, T_OBJ), Node(ty, kids)) && Evac(h, p, 0).Some?
    ensures ValidHeap(h1) && Grown(h0, h1) && 0 <= a < MAX_ARENAS && h1[a].active
    ensures 0 <= h0[a].head <= h[a].head && h[a].head + 2 + |kids| <= h1[a].head
    ensures EvacKids(h1, a, h[a].head + 2, |kids|, 0) == Some(h') && ValidHeap(h') && h'[a].active && h1[a].head <= h'[a].head
    ensures Evac(h, p, 0).value == (h', Pack(h'[a].gen, a, h[a].head))
    ensures forall i :: 0 <= i < |kids| ==> Rep(h0, NoGap(), h1[a].mem[h[a].head + 2 + i], kids[i])
  {
    hide Off, Region, Gen, Pack, Copied, GrownBut, Space, Evac, EvacKids;
    assert ObjAt(h0, NoGap(), p, 2 + |kids|);
    OffNat(p);
    a := Region(p);
    var n, head := |kids|, h[a].head;
    ObjGrown(h0, h, p, 2 + n);
    h1, h' := NodeSteps(h, p, 0, n);
    BlockCopied(h0, h, a, p, 2 + n);
    HeadsAfter(h1, h', a, head + 2, head + 2 + n);
    forall i | 0 <= i < n ensures Rep(h0, NoGap(), h1[a].mem[head + 2 + i], kids[i]) {
      assert h1[a].mem[head + (2 + i)] == At(h0, p, 2 + i);
    }
  }

  lemma HeadsAfter(h: Heap, h': Heap, a: int, lo: int, hi: int)
    requires ValidHeap(h) && 0 <= a < MAX_ARENAS && GrownBut(h, h', a, lo, hi)
    ensures h'[a].active == h[a].active && h'[a].gen == h[a].gen && h[a].head <= h'[a].head
  {
    assert SameArena(h[a], h'[a]);
  }

  /** An array or struct at offset `o` shares what one of its elements shares. */
  lemma NodeJoined(h: Heap, lim: seq<int>, a: int, o: int, ty: int, kids: seq<Value>, k: nat)
    requires ValidHeap(h) && |lim| == MAX_ARENAS && 0 <= a < MAX_ARENAS && h[a].active && k < |kids|
    requires 0 <= o && o + 2 + |kids| <= h[a].head && Shares(h, lim, h[a].mem[o + 2 + k], kids[k])
    ensures Shares(h, lim, Cell(Pack(h[a].gen, a, o), T_OBJ), Node(ty, kids))
  {
    hide Off, Region, Gen, Pack;
    var q := Pack(h[a].gen, a, o);
    PackRoundTrip(h[a].gen, a, o);
    assert At(h, q, 2 + k) == h[a].mem[o + 2 + k];
  }

  lemma DictJoined(h: Heap, lim: seq<int>, a: int, o: int, data: int, cap: int, count: int, slots: seq<Value>, k: nat)
    requires ValidHeap(h) && |lim| == MAX_ARENAS && 0 <= a < MAX_ARENAS && h[a].active && k < |slots|
    requires 0 <= o && o + 4 <= h[a].head && 0 <= data && data + |slots| <= h[a].head
    requires h[a].mem[o + 3].val == Pack(h[a].gen, a, data) && Shares(h, lim, h[a].mem[data + k], slots[k])
    ensures Shares(h, lim, Cell(Pack(h[a].gen, a, o), T_OBJ), Dict(cap, count, slots))
  {
    hide Off, Region, Gen, Pack;
    var q, e := Pack(h[a].gen, a, o), Pack(h[a].gen, a, data);
    PackRoundTrip(h[a].gen, a, o);
    PackRoundTrip(h[a].gen, a, data);
    assert At(h, q, 3) == h[a].mem[o + 3] && At(h, e, k) == h[a].mem[data + k];
  }

  lemma OffNat(p: int)
    ensures 0 <= Off(p)
  {
  }

  lemma {:induction false} DictShares(h0: Heap, h: Heap, p: int, cap: int, count: int, slots: seq<Value>)
    requires ValidHeap(h0) && ValidHeap(h) && Grown(h0, h)
    requires Rep(h0, NoGap(), Cell(p, T_OBJ), Dict(cap, count, slots)) && !Copyable(Dict(cap, count, slots))
    requires Evac(h, p, 0).Some?
    ensures var (h', q) := Evac(h, p, 0).value; Shares(h', Heads(h0), Cell(q, T_OBJ), Dict(cap, count, slots))
    decreases Dict(cap, count, slots), 0
  {
    hide Off, Region, Gen, Pack, GrownBut, Evac, EvacKids, Shares, Rep;
    var a, data, h2, h' := DictFront(h0, h, p, cap, count, slots);
    var k :| 0 <= k < |slots| && !Copyable(slots[k]);
    KidsShare(h0, h2, a, data, slots, k);
    DictJoined(h', Heads(h0), a, h[a].head, data, cap, count, slots, k);
  }

  /** The header and the data block of a map are copied before its slots are looked at. */
  lemma DictFront(h0: Heap, h: Heap, p: int, cap: int, count: int, slots: seq<Value>)
    returns (a: int, data: int, h2: Heap, h': Heap)
    requires ValidHeap(h0) && ValidHeap(h) && Grown(h0, h)
    requires Rep(h0, NoGap(), Cell(p, T_OBJ), Dict(cap, count, slots)) && Evac(h, p, 0).Some?
    ensures ValidHeap(h2) && Grown(h0, h2) && 0 <= a < MAX_ARENAS && h2[a].active
    ensures 0 <= h0[a].head <= h[a].head && h[a].head + 4 <= data && data + |slots| <= h2[a].head
    ensures EvacKids(h2, a, data, |slots|, 0) == Some(h') && ValidHeap(h') && h'[a].active && h2[a].head <= h'[a].head
    ensures Evac(h, p, 0).value == (h', Pack(h'[a].gen, a, h[a].head))
    ensures h'[a].mem[h[a].head + 3].val == Pack(h'[a].gen, a, data)
    ensures forall i :: 0 <= i < |slots| ==> Rep(h0, NoGap(), h2[a].mem[data + i], slots[i])
  {
    hide Off, Region, Gen, Pack, Copied, GrownBut, Space, Evac, EvacData, EvacKids, Repointed;
    a := Region(p);
    var head, d, n := h[a].head, At(h0, p, 3).val, |slots|;
    assert ObjAt(h0, NoGap(), p, 4) && ObjAt(h0, NoGap(), d, n);
    OffNat(p);
    OffNat(d);
    ObjGrown(h0, h, p, 4);
    DictSteps(h, p, 0);
    BlockCopied(h0, h, a, p, 4);
    var h1 := Copied(h, a, p, 4);
    assert h1[a].mem[head + 1] == At(h0, p, 1) && h1[a].mem[head + 3] == At(h0, p, 3);
    ObjGrown(h0, h1, d, n);
    DataSteps(h1, a, head, 0, d, n);
    RepointedCells(h0, h1, a, head, d, n);
    h2, data := Repointed(h1, a, head, d, n), h1[a].head;
    forall i | 0 <= i < n ensures Rep(h0, NoGap(), h2[a].mem[data + i], slots[i]) {
      assert h2[a].mem[data + i] == At(h0, d, i);
    }
    h' := EvacKids(h2, a, data, n, 0).value;
    HeadsAfter(h2, h', a, data, data + n);
    Unchanged(h2, h', a, data, data + n, head + 3);
  }

  /** The loop over a block reaches the cell that shares, and later cells do not disturb it. */
  lemma {:induction false} KidsShare(h0: Heap, h: Heap, a: int, at: int, kids: seq<Value>, k: nat)
    requires ValidHeap(h0) && ValidHeap(h) && Grown(h0, h) && k < |kids| && !Copyable(kids[k])
    requires 0 <= a < MAX_ARENAS && h[a].active && h0[a].head <= at && at + |kids| <= h[a].head
    requires forall i :: 0 <= i < |kids| ==> Rep(h0, NoGap(), h[a].mem[at + i], kids[i])
    requires EvacKids(h, a, at, |kids|, 0).Some?
    ensures var h' := EvacKids(h, a, at, |kids|, 0).value;
      h'[a].active && Shares(h', Heads(h0), h'[a].mem[at + k], kids[k])
    decreases kids, 0
  {
    hide Off, Region, Gen, Pack, Rep, GrownBut, Keeps, Space, Sharing, EvacKids, Evac, Shares, Copyable, Narrower;
    var h', v, rest := EvacKids(h, a, at, |kids|, 0).value, kids[0], kids[1..];
    HeadsSharing(h0, 0, v);
    assert h[a].mem[at + 0] == h[a].mem[at];
    var h2 := KidMoved(h0, h, Heads(h0), a, at, v, 0, |kids|);
    forall i | 0 <= i < |rest| ensures Rep(h0, NoGap(), h2[a].mem[at + 1 + i], rest[i]) {
      Unchanged(h, h2, a, at, at + 1, at + 1 + i);
      assert h[a].mem[at + 1 + i] == h[a].mem[at + (1 + i)];
    }
    if k > 0 {
      KidsShare(h0, h2, a, at + 1, rest, k - 1);
      assert at + 1 + (k - 1) == at + k;
    } else {
      FirstShares(h0, h, h2, a, at, v, |kids|);
      RestKeeps(h2, a, at + 1, |rest|);
      FirstStays(h0, h, h2, h', a, at, |rest|, v);
    }
  }

  lemma RestKeeps(h: Heap, a: int, at: int, n: nat)
    requires ValidHeap(h) && 0 <= a < MAX_ARENAS && h[a].active && 0 <= at && at + n <= h[a].head
    requires EvacKids(h, a, at, n, 0).Some?
    ensures ValidHeap(EvacKids(h, a, at, n, 0).value) && GrownBut(h, EvacKids(h, a, at, n, 0).value, a, at, at + n)
  {
    hide GrownBut;
  }

  lemma {:induction false} FirstShares(h0: Heap, h: Heap, h2: Heap, a: int, at: int, v: Value, n: nat)
    requires ValidHeap(h0) && ValidHeap(h) && ValidHeap(h2) && Grown(h0, h)
    requires 0 <= a < MAX_ARENAS && h[a].active && h2[a].active && h0[a].head <= at && at + n <= h[a].head && n > 0
    requires Rep(h0, NoGap(), h[a].mem[at], v) && !Copyable(v)
    requires EvacKids(h, a, at, n, 0).Some?
    requires h[a].mem[at].tag == T_OBJ ==>
      var r := Evac(h, h[a].mem[at].val, 0);
      r.Some? && at < |r.value.0[a].mem| && h2 == Write(r.value.0, a, at, Cell(r.value.1, T_OBJ))
    ensures Shares(h2, Heads(h0), h2[a].mem[at], v)
    decreases v, 2
  {
    hide Off, Region, Gen, Pack, Evac, EvacKids, Sharing, Shares, Copyable, GrownBut;
    var c, g := h[a].mem[at], Gap(Heads(h0), Heads(h));
    NotCopyableObject(h0, c, v);
    assert c == Cell(c.val, T_OBJ);
    HeadsSharing(h0, 0, v);
    EvacShares(h0, h, c.val, v);
    EvacRep(h0, h, g, c.val, 0, v);
    var (h1, q) := Evac(h, c.val, 0).value;
    WriteKeeps(h0, h, h1, a, at, Cell(q, T_OBJ));
    SharesKept(h1, g, h2, g, Heads(h0), Cell(q, T_OBJ), v);
  }

  lemma NotCopyableObject(h: Heap, c: Cell, v: Value)
    requires ValidHeap(h) && Rep(h, NoGap(), c, v) && !Copyable(v)
    ensures c.tag == T_OBJ
  {
  }

  lemma WriteKeeps(h0: Heap, h: Heap, h1: Heap, a: int, at: int, c: Cell)
    requires ValidHeap(h0) && ValidHeap(h) && ValidHeap(h1) && Grown(h, h1)
    requires 0 <= a < MAX_ARENAS && h0[a].head <= at < h[a].head && 0 <= at < |h1[a].mem|
    ensures ValidHeap(Write(h1, a, at, c))
    ensures Keeps(h1, Gap(Heads(h0), Heads(h)), Write(h1, a, at, c), Gap(Heads(h0), Heads(h)))
  {
  }

  lemma {:induction false} FirstStays(h0: Heap, h: Heap, h2: Heap, h': Heap, a: int, at: int, n: nat, v: Value)
    requires ValidHeap(h0) && ValidHeap(h) && ValidHeap(h2) && ValidHeap(h')
    requires 0 <= a < MAX_ARENAS && h2[a].active && h0[a].head <= at && at + 1 + n <= h[a].head <= h2[a].head
    requires GrownBut(h2, h', a, at + 1, at + 1 + n)
    requires Rep(h2, Gap(Heads(h0), Heads(h)), h2[a].mem[at], v) && Shares(h2, Heads(h0), h2[a].mem[at], v)
    ensures h'[a].active && Shares(h', Heads(h0), h'[a].mem[at], v)
  {
    hide Off, Region, Gen, Pack, Rep, Shares;
    var g := Gap(Heads(h0), Heads(h));
    Unchanged(h2, h', a, at + 1, at + 1 + n, at);
    LaterKeeps(h0, h, h2, h', a, at + 1, n);
    hide GrownBut, Keeps;
    SharesKept(h2, g, h', g, Heads(h0), h2[a].mem[at], v);
  }

  lemma LaterKeeps(h0: Heap, h: Heap, h2: Heap, h': Heap, a: int, at: int, n: nat)
    requires ValidHeap(h0) && ValidHeap(h) && ValidHeap(h2) && ValidHeap(h')
    requires 0 <= a < MAX_ARENAS && h0[a].head <= at && at + n <= h[a].head && GrownBut(h2, h', a, at, at + n)
    ensures Keeps(h2, Gap(Heads(h0), Heads(h)), h', Gap(Heads(h0), Heads(h)))
  {
    forall i | 0 <= i < MAX_ARENAS ensures SameArena(h2[i], h'[i]) && h2[i].head <= h'[i].head {
    }
  }

  /** copy() makes a value out of new cells only if and only if no i16[] or i32[] is reachable in it. */
  lemma CopyDeepIff(h: Heap, p: int, v: Value)
    requires ValidHeap(h) && Rep(h, NoGap(), Cell(p, T_OBJ), v)
    requires Evac(h, p, 0).Some?
    ensures var (h', q) := Evac(h, p, 0).value;
      Rep(h', NewOnly(h), Cell(q, T_OBJ), v) <==> Copyable(v)
  {
    hide Evac, Rep, Shares, Copyable;
    var (h', q) := Evac(h, p, 0).value;
    if Copyable(v) {
      CopyIsDeep(h, p, v);
    } else {
      GrownSelf(h);
      EvacShares(h, h, p, v);
      SharesNotNew(h, h', Cell(q, T_OBJ), v);
    }
  }
}
