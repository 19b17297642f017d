/** How much an object takes: every element of a packed array lies in the words that are copied with it,
    and a copy succeeds wherever its region has room for all of what it unfolds to (src/vm.c:96-107, 129-155,
    168-223). */
module Sizing {
  import opened Defines
  import opened Arenas
  import opened Evacuation

  // ---- Packed arrays ----

  /** The element types with their width in bytes; a type without a name of its own counts 8. */
  predicate Wide(ty: int, w: nat) {
    || (ty in {TYPE_BYTES, TYPE_BOOL_ARRAY} && w == 1)
    || (ty in {TYPE_I16_ARRAY, TYPE_F16_ARRAY} && w == 2)
    || (ty in {TYPE_I32_ARRAY, TYPE_F32_ARRAY} && w == 4)
    || (ty !in {TYPE_BYTES, TYPE_BOOL_ARRAY, TYPE_I16_ARRAY, TYPE_F16_ARRAY, TYPE_I32_ARRAY, TYPE_F32_ARRAY} && w == 8)
  }

  /** Every packed type has its width, the bytes of all elements fit the words of the array, and one word
      less would not hold them. */
  lemma PackedCovers(ty: int, len: nat)
    returns (w: nat)
    requires PackedType(ty) || NarrowType(ty)
    ensures Wide(ty, w) && forall w' :: Wide(ty, w') ==> w' == w
    ensures PackedType(ty) ==> ObjSize(ty, len) == 2 + PackedCells(ty, len)
    ensures len * w <= 8 * PackedCells(ty, len)
    ensures forall i: nat {:trigger i * w} :: i < len ==> i * w + w <= 8 * PackedCells(ty, len)
    ensures len > 0 ==> PackedCells(ty, len) > 0 && 8 * (PackedCells(ty, len) - 1) < len * w
  {
    w := ElemBytes(ty);
    forall i: nat {:trigger i * w} | i < len ensures i * w + w <= len * w {
      ElementInside(i, len, w);
    }
    if len > 0 {
      ElementInside(0, len, w);
    }
  }

  lemma ElementInside(i: nat, len: nat, w: nat)
    requires i < len
    ensures i * w + w <= len * w
  {
    assert len * w == i * w + (len - i) * w;
    assert (len - i) * w == w + (len - i - 1) * w;
  }

  /** Byte `j` of a word, in memory order. */
  function ByteOf(word: int, j: nat): int
    decreases j
  {
    if j == 0 then word % 256 else ByteOf(word / 256, j - 1)
  }

  /** The word that holds byte `k` of the packed array at `p` is allocated. */
  ghost predicate Holds(h: Heap, p: int, k: nat)
    requires ValidHeap(h)
  {
    Live(h, p) && 0 <= Off(p) && Off(p) + 2 + k / 8 < h[Region(p)].head
  }

  ghost function PackedByte(h: Heap, p: int, k: nat): int
    requires ValidHeap(h) && Holds(h, p, k)
  {
    ByteOf(h[Region(p)].mem[Off(p) + 2 + k / 8].val, k % 8)
  }

  /** The first `n` bytes at `p` in `h` are those at `q` in `h'`, all of them allocated. */
  ghost predicate SameBytes(h: Heap, p: int, h': Heap, q: int, n: nat)
    requires ValidHeap(h) && ValidHeap(h')
  {
    forall k: nat :: k < n ==> Holds(h, p, k) && Holds(h', q, k) && PackedByte(h', q, k) == PackedByte(h, p, k)
  }

  /** Two packed arrays that unfold alike agree in every byte of every element. */
  lemma AlikeBytes(h: Heap, p: int, h': Heap, q: int, v: Value, w: nat)
    requires ValidHeap(h) && ValidHeap(h') && v.Blob? && Wide(v.ty, w)
    requires Rep(h, NoGap(), Cell(p, T_OBJ), v) && Rep(h', NoGap(), Cell(q, T_OBJ), v)
    ensures 0 <= v.len && SameBytes(h, p, h', q, v.len * w)
  {
    hide Off, Region, Gen, PackedCells, ByteOf;
    var w' := PackedCovers(v.ty, v.len);
    forall k: nat | k < v.len * w
      ensures Holds(h, p, k) && Holds(h', q, k) && PackedByte(h', q, k) == PackedByte(h, p, k)
    {
      var i := k / 8;
      assert i < |v.words|;
      assert At(h, p, 2 + i).val == v.words[i] && At(h', q, 2 + i).val == v.words[i];
    }
  }

  // ---- What moves and where to ----

  /** An object below the boundary, or of a type the size test leaves out, is not copied; any other goes
      to the head of its own region. */
  lemma EvacMoves(h: Heap, p: int, target: int, v: Value)
    requires ValidHeap(h) && Rep(h, NoGap(), Cell(p, T_OBJ), v) && Evac(h, p, target).Some?
    ensures var (h', q) := Evac(h, p, target).value;
      if Off(p) < target || (v.Blob? && NarrowType(v.ty)) then h' == h && q == p
      else Region(q) == Region(p) && Gen(q) == Gen(p) && Off(q) == h[Region(p)].head && h[Region(p)].head < h'[Region(p)].head
  {
    var a := Region(p);
    hide Off, Region, Gen, Pack, EvacKids, EvacData, Append, Space, Copied;
    LiveNotNull(h, p);
    PackRoundTrip(h[a].gen, a, h[a].head);
    if Off(p) >= target && !(v.Blob? && NarrowType(v.ty)) {
      match v
      case Node(ty, kids) =>
        var h1, h' := NodeSteps(h, p, target, |kids|);
      case Blob(ty, len, words) => BlobSteps(h, p, target, len);
      case Dict(_, _, _) => DictSteps(h, p, target);
    }
  }

  // ---- Enough room ----

  /** The cells that a value takes, counting shared parts as often as they occur. */
  function Weight(v: Value): nat
    decreases v
  {
    match v
    case Leaf(_, _) => 0
    case Node(_, kids) => 2 + |kids| + Weights(kids)
    case Blob(_, _, words) => 2 + |words|
    case Dict(_, _, slots) => 4 + |slots| + Weights(slots)
  }

  function Weights(vs: seq<Value>): nat
    decreases vs
  {
    if vs == [] then 0 else Weight(vs[0]) + Weights(vs[1..])
  }

  ghost predicate Spare(h: Heap, n: nat)
    requires ValidHeap(h)
  {
    forall i :: 0 <= i < MAX_ARENAS ==> h[i].head + n < MAX_HEAP
  }

  /** The copy of an array or struct, when there is room for its own cells. */
  lemma NodeUnfolds(h: Heap, p: int, target: int, n: nat)
    requires ValidHeap(h) && Live(h, p) && p > 0 && target <= Off(p) && Off(p) + 2 + n <= MAX_HEAP
    requires (At(h, p, 0).val == TYPE_ARRAY || At(h, p, 0).val >= 0) && At(h, p, 1).val == n && Room(h, Region(p), 2 + n)
    ensures var r := EvacKids(Copied(h, Region(p), p, 2 + n), Region(p), h[Region(p)].head + 2, n, target);
      && (r.None? ==> Evac(h, p, target).None?)
      && (r.Some? ==> Evac(h, p, target).Some? && Evac(h, p, target).value.0 == r.value)
  {
    hide Off, Region, Gen, Pack, EvacKids, Append, Space, Grown, GrownBut;
  }

  lemma BlobUnfolds(h: Heap, p: int, target: int, len: nat)
    requires ValidHeap(h) && Live(h, p) && p > 0 && target <= Off(p) && Off(p) + 2 + PackedCells(At(h, p, 0).val, len) <= MAX_HEAP
    requires Off(p) + 2 <= MAX_HEAP && PackedType(At(h, p, 0).val) && At(h, p, 1).val == len
    requires Room(h, Region(p), 2 + PackedCells(At(h, p, 0).val, len))
    ensures Evac(h, p, target).Some?
    ensures Evac(h, p, target).value.0 == Copied(h, Region(p), p, 2 + PackedCells(At(h, p, 0).val, len))
  {
    hide Off, Region, Gen, Pack, EvacKids, Append, Space, Grown, GrownBut, PackedCells;
  }

  lemma DictUnfolds(h: Heap, p: int, target: int)
    requires ValidHeap(h) && Live(h, p) && p > 0 && target <= Off(p) && Off(p) + 4 <= MAX_HEAP
    requires At(h, p, 0).val == TYPE_MAP && At(h, p, 1).val >= 0 && Room(h, Region(p), 4)
    ensures var r := EvacData(Copied(h, Region(p), p, 4), Region(p), h[Region(p)].head, target);
      && (r.None? ==> Evac(h, p, target).None?)
      && (r.Some? ==> Evac(h, p, target).Some? && Evac(h, p, target).value.0 == r.value)
  {
    hide Off, Region, Gen, Pack, EvacData, Append, Space, Grown, GrownBut;
  }

  lemma DataUnfolds(h: Heap, a: int, at: int, target: int, d: int, n: nat)
    requires ValidHeap(h) && 0 <= a < MAX_ARENAS && h[a].active && 0 <= at && at + 4 <= h[a].head
    requires h[a].mem[at + 1].val * 2 == n && h[a].mem[at + 3].val == d && Live(h, d) && Off(d) + n <= MAX_HEAP && Room(h, a, n)
    ensures EvacData(h, a, at, target)
      == if Off(d) < target then Some(h) else EvacKids(Repointed(h, a, at, d, n), a, h[a].head, n, target)
  {
    hide Off, Region, Gen, Pack, EvacKids, Append, Space, Grown, GrownBut;
  }

  lemma CopiedSpare(h: Heap, a: int, p: int, n: nat, k: nat)
    requires ValidHeap(h) && Live(h, p) && Off(p) + n <= MAX_HEAP && 0 <= a < MAX_ARENAS && h[a].active && Spare(h, n + k)
    ensures Room(h, a, n) && Spare(Copied(h, a, p, n), k)
  {
    hide Off, Region, Gen;
  }

  /** A copy succeeds wherever every region has room for all that the object unfolds to, and takes no more
      than that. */
  lemma {:induction false} EvacFits(h0: Heap, h: Heap, p: int, target: int, v: Value, k: nat)
    requires ValidHeap(h0) && ValidHeap(h) && Grown(h0, h) && Rep(h0, NoGap(), Cell(p, T_OBJ), v) && Spare(h, Weight(v) + k)
    ensures Evac(h, p, target).Some? && Spare(Evac(h, p, target).value.0, k)
    decreases v, 1
  {
    hide Evac, EvacKids, EvacData, Copied, Grown;
    match v
    case Node(ty, kids) => NodeFits(h0, h, p, target, ty, kids, k);
    case Blob(ty, len, words) => BlobFits(h0, h, p, target, ty, len, words, k);
    case Dict(cap, count, slots) => DictFits(h0, h, p, target, cap, count, slots, k);
  }

  lemma {:induction false} NodeFits(h0: Heap, h: Heap, p: int, target: int, ty: int, kids: seq<Value>, k: nat)
    requires ValidHeap(h0) && ValidHeap(h) && Grown(h0, h)
    requires Rep(h0, NoGap(), Cell(p, T_OBJ), Node(ty, kids)) && Spare(h, Weight(Node(ty, kids)) + k)
    ensures Evac(h, p, target).Some? && Spare(Evac(h, p, target).value.0, k)
    decreases Node(ty, kids), 0
  {
    hide Off, Region, Gen, Pack, Copied, GrownBut, Space, Evac, EvacKids, Weights;
    var n, a, head := |kids|, Region(p), h[Region(p)].head;
    assert ObjAt(h0, NoGap(), p, 2 + n);
    ObjGrown(h0, h, p, 2 + n);
    if Off(p) < target {
      StaysBelow(h, p, target);
    } else {
      CopiedSpare(h, a, p, 2 + n, Weights(kids) + k);
      NodeUnfolds(h, p, target, n);
      BlockCopied(h0, h, a, p, 2 + n);
      var h1 := Copied(h, a, p, 2 + n);
      assert SameArena(h[a], h1[a]);
      forall i | 0 <= i < n ensures Rep(h0, NoGap(), h1[a].mem[head + 2 + i], kids[i]) {
        assert h1[a].mem[head + (2 + i)] == At(h0, p, 2 + i);
      }
      KidsFit(h0, h1, a, head + 2, kids, target, k);
    }
  }

  lemma StaysBelow(h: Heap, p: int, target: int)
    requires ValidHeap(h) && Live(h, p) && Off(p) < target
    ensures Evac(h, p, target) == Some((h, p))
  {
    hide EvacKids, EvacData;
  }

  lemma BlobFits(h0: Heap, h: Heap, p: int, target: int, ty: int, len: int, words: seq<int>, k: nat)
    requires ValidHeap(h0) && ValidHeap(h) && Grown(h0, h)
    requires Rep(h0, NoGap(), Cell(p, T_OBJ), Blob(ty, len, words)) && Spare(h, Weight(Blob(ty, len, words)) + k)
    ensures Evac(h, p, target).Some? && Spare(Evac(h, p, target).value.0, k)
  {
    hide Off, Region, Gen, Pack, Copied, GrownBut, Space, Evac, PackedCells;
    ObjGrown(h0, h, p, 2 + |words|);
    if Off(p) < target {
      StaysBelow(h, p, target);
    } else if PackedType(ty) {
      CopiedSpare(h, Region(p), p, 2 + |words|, k);
      BlobUnfolds(h, p, target, len);
    } else {
      NarrowStays(h, p, target);
    }
  }

  lemma NarrowStays(h: Heap, p: int, target: int)
    requires ValidHeap(h) && Live(h, p) && p > 0 && Off(p) + 1 < MAX_HEAP && NarrowType(At(h, p, 0).val) && At(h, p, 1).val >= 0
    ensures Evac(h, p, target) == Some((h, p))
  {
    hide EvacKids, EvacData;
  }

  lemma {:induction false} DictFits(h0: Heap, h: Heap, p: int, target: int, cap: int, count: int, slots: seq<Value>, k: nat)
    requires ValidHeap(h0) && ValidHeap(h) && Grown(h0, h)
    requires Rep(h0, NoGap(), Cell(p, T_OBJ), Dict(cap, count, slots)) && Spare(h, Weight(Dict(cap, count, slots)) + k)
    ensures Evac(h, p, target).Some? && Spare(Evac(h, p, target).value.0, k)
    decreases Dict(cap, count, slots), 0
  {
    hide Off, Region, Gen, Pack, Copied, Repointed, GrownBut, Space, Evac, EvacData, EvacKids, Weights;
    var n, a, head, d := |slots|, Region(p), h[Region(p)].head, At(h0, p, 3).val;
    assert ObjAt(h0, NoGap(), p, 4) && ObjAt(h0, NoGap(), d, n);
    ObjGrown(h0, h, p, 4);
    if Off(p) < target {
      StaysBelow(h, p, target);
    } else {
      CopiedSpare(h, a, p, 4, n + Weights(slots) + k);
      DictUnfolds(h, p, target);
      BlockCopied(h0, h, a, p, 4);
      var h1 := Copied(h, a, p, 4);
      assert h1[a].mem[head + 1] == At(h0, p, 1) && h1[a].mem[head + 3] == At(h0, p, 3);
      ObjGrown(h0, h1, d, n);
      assert Room(h1, a, n);
      DataUnfolds(h1, a, head, target, d, n);
      if Off(d) >= target {
        RepointedCells(h0, h1, a, head, d, n);
        var h2 := Repointed(h1, a, head, d, n);
        RepointedSpare(h1, a, head, d, n, Weights(slots) + k);
        assert SameArena(h0[a], h2[a]);
        KidsFit(h0, h2, a, h1[a].head, slots, target, k);
      }
    }
  }

  lemma RepointedSpare(h: Heap, a: int, at: int, d: int, n: nat, k: nat)
    requires ValidHeap(h) && 0 <= a < MAX_ARENAS && Room(h, a, n) && 0 <= at && at + 4 <= h[a].head
    requires Live(h, d) && Off(d) + n <= MAX_HEAP && Spare(h, n + k)
    ensures Spare(Repointed(h, a, at, d, n), k)
  {
    hide Off, Region, Gen, Pack;
  }

  lemma {:induction false} KidsFit(h0: Heap, h: Heap, a: int, at: int, kids: seq<Value>, target: int, k: nat)
    requires ValidHeap(h0) && ValidHeap(h) && Grown(h0, h) && 0 <= a < MAX_ARENAS && h[a].active
    requires h0[a].head <= at && at + |kids| <= h[a].head
    requires forall i :: 0 <= i < |kids| ==> Rep(h0, NoGap(), h[a].mem[at + i], kids[i])
    requires Spare(h, Weights(kids) + k)
    ensures EvacKids(h, a, at, |kids|, target).Some? && Spare(EvacKids(h, a, at, |kids|, target).value, k)
    decreases kids, 0
  {
    hide Off, Region, Gen, Pack, Rep, GrownBut, Space, Evac, EvacKids, Weight, Weights, Grown;
    var n := |kids|;
    if n == 0 {
      NoKids(h, a, at, target);
    } else {
      var c, rest := h[a].mem[at], kids[1..];
      assert h[a].mem[at + 0] == c;
      WeightsOf(kids);
      if c.tag != T_OBJ {
        PlainKid(h, a, at, n, target);
        forall i | 0 <= i < |rest| ensures Rep(h0, NoGap(), h[a].mem[at + 1 + i], rest[i]) {
          assert h[a].mem[at + (1 + i)] == h[a].mem[at + 1 + i];
        }
        SpareLess(h, Weights(kids) + k, Weights(rest) + k);
        KidsFit(h0, h, a, at + 1, rest, target, k);
      } else {
        assert c == Cell(c.val, T_OBJ);
        EvacFits(h0, h, c.val, target, kids[0], Weights(rest) + k);
        var h2 := MovedKid(h0, h, a, at, n, target, Weights(rest) + k);
        forall i | 0 <= i < |rest| ensures Rep(h0, NoGap(), h2[a].mem[at + 1 + i], rest[i]) {
          assert h[a].mem[at + (1 + i)] == h2[a].mem[at + 1 + i];
        }
        KidsFit(h0, h2, a, at + 1, rest, target, k);
      }
    }
  }

  lemma WeightsOf(vs: seq<Value>)
    requires vs != []
    ensures Weights(vs) == Weight(vs[0]) + Weights(vs[1..])
  {
  }

  lemma SpareLess(h: Heap, n: nat, m: nat)
    requires ValidHeap(h) && Spare(h, n) && m <= n
    ensures Spare(h, m)
  {
  }

  lemma NoKids(h: Heap, a: int, at: int, target: int)
    requires ValidHeap(h) && 0 <= a < MAX_ARENAS && h[a].active && 0 <= at <= h[a].head
    ensures EvacKids(h, a, at, 0, target) == Some(h)
  {
  }

  lemma PlainKid(h: Heap, a: int, at: int, n: nat, target: int)
    requires ValidHeap(h) && 0 <= a < MAX_ARENAS && h[a].active && 0 <= at && at + n <= h[a].head && n > 0
    requires h[a].mem[at].tag != T_OBJ
    ensures EvacKids(h, a, at, n, target) == EvacKids(h, a, at + 1, n - 1, target)
  {
    hide Evac;
  }

  /** The heap once the first cell of the block points to the copy. */
  lemma MovedKid(h0: Heap, h: Heap, a: int, at: int, n: nat, target: int, k: nat) returns (h2: Heap)
    requires ValidHeap(h0) && ValidHeap(h) && Grown(h0, h) && 0 <= a < MAX_ARENAS && h[a].active
    requires h0[a].head <= at && at + n <= h[a].head && n > 0 && 0 <= at
    requires h[a].mem[at].tag == T_OBJ && Evac(h, h[a].mem[at].val, target).Some?
    requires Spare(Evac(h, h[a].mem[at].val, target).value.0, k)
    ensures ValidHeap(h2) && h2[a].active && Grown(h0, h2) && h[a].head <= h2[a].head && Spare(h2, k)
    ensures forall j :: at < j < h[a].head ==> j < |h2[a].mem| && h2[a].mem[j] == h[a].mem[j]
    ensures EvacKids(h, a, at, n, target) == EvacKids(h2, a, at + 1, n - 1, target)
  {
    hide Off, Region, Gen, Pack, Space, Evac;
    var (h1, q) := Evac(h, h[a].mem[at].val, target).value;
    assert SameArena(h[a], h1[a]);
    h2 := Write(h1, a, at, Cell(q, T_OBJ));
  }
}
