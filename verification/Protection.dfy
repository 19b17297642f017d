/** Why locals survive block exit: the invariant that every object reachable from a stack cell lies
    wholly below the rewind point of each scope the cell outlives, kept by every instruction that
    allocates, assigns, opens or closes a scope (src/vm.c:1191-1217, 1246-1279, 1822-1840). */
module Protection {
  import opened Defines
  import opened Arenas
  import opened Evacuation
  import opened Machine

  /** All of region `a`, nothing of the others. */
  ghost function Home(a: int): (g: Gap)
    ensures WfGap(g)
  {
    Below(a, HEAP_END)
  }

  /** Nothing of the unfolding is in cells [b, t), and nothing below `b` points above it. With
      b == t: the boundary cuts through no object. */
  ghost predicate Parted(h: Heap, a: int, b: int, t: int, c: Cell, v: Value)
    requires ValidHeap(h)
    decreases v
  {
    || v.Leaf?
    || Rep(h, Below(a, b), c, v)
    || (&& v.Node? && c.tag == T_OBJ && Live(h, c.val)
        && Region(c.val) == a && t <= Off(c.val) && Off(c.val) + 2 + |v.kids| <= MAX_HEAP
        && forall i :: 0 <= i < |v.kids| ==> Parted(h, a, b, t, At(h, c.val, 2 + i), v.kids[i]))
  }

  /** Cells [lo, hi) of the region, which a native holds on to while it runs the machine, and which
      no value of the program reaches. */
  datatype Hole = Hole(lo: int, hi: int)

  const NONE := Hole(0, 0)

  /** Rewinding to `head` keeps the hole allocated. */
  ghost predicate Clears(z: Hole, head: int) {
    z.lo < z.hi ==> 0 <= z.lo && z.hi <= head
  }

  ghost predicate Apart(h: Heap, a: int, z: Hole, c: Cell, v: Value)
    requires ValidHeap(h)
  {
    z.lo < z.hi ==> Parted(h, a, z.lo, z.hi, c, v)
  }

  /** Cell `i` of the stack: below every boundary it outlives, cut by none. */
  ghost predicate Kept(h: Heap, a: int, z: Hole, scopes: seq<Scope>, i: int, c: Cell, v: Value)
    requires ValidHeap(h)
  {
    && Rep(h, Home(a), c, v) && Apart(h, a, z, c, v)
    && forall k :: 0 <= k < |scopes| ==>
         if i <= scopes[k].spAtEntry then Rep(h, Below(a, scopes[k].head), c, v)
         else Parted(h, a, scopes[k].head, scopes[k].head, c, v)
  }

  ghost predicate ScopesOk(h: Heap, a: int, z: Hole, scopes: seq<Scope>, n: int)
    requires ValidHeap(h)
  {
    && 0 <= a < MAX_ARENAS && h[a].active && Clears(z, h[a].head)
    && (forall k :: 0 <= k < |scopes| ==>
          scopes[k].arena == a && 0 <= scopes[k].head <= h[a].head && scopes[k].spAtEntry < n)
    && (forall j, k :: 0 <= j < k < |scopes| ==>
          scopes[j].head <= scopes[k].head && scopes[j].spAtEntry <= scopes[k].spAtEntry)
  }

  ghost predicate Guarded(h: Heap, a: int, z: Hole, scopes: seq<Scope>, stack: seq<Cell>, vs: seq<Value>)
    requires ValidHeap(h)
  {
    && |stack| == |vs|
    && ScopesOk(h, a, z, scopes, |stack|)
    && forall i :: 0 <= i < |stack| ==> Kept(h, a, z, scopes, i, stack[i], vs[i])
  }

  // ---- Single cells ----

  lemma RepWider(h: Heap, a: int, b: int, b': int, c: Cell, v: Value)
    requires ValidHeap(h) && 0 <= a < MAX_ARENAS && b <= b' && Rep(h, Below(a, b), c, v)
    ensures Rep(h, Below(a, b'), c, v)
  {
    hide Rep;
    RepKept(h, Below(a, b), h, Below(a, b'), c, v);
  }

  lemma RepHomeAny(h: Heap, a: int, c: Cell, v: Value)
    requires ValidHeap(h) && Rep(h, Home(a), c, v)
    ensures Rep(h, NoGap(), c, v)
  {
    hide Rep;
    RepKept(h, Home(a), h, NoGap(), c, v);
  }

  lemma RepBelowHead(h: Heap, a: int, c: Cell, v: Value)
    requires ValidHeap(h) && 0 <= a < MAX_ARENAS && Rep(h, Home(a), c, v)
    ensures Rep(h, Below(a, h[a].head), c, v)
  {
    hide Rep;
    RepKept(h, Home(a), h, Below(a, h[a].head), c, v);
  }

  lemma LeafKept(h: Heap, a: int, z: Hole, scopes: seq<Scope>, i: int, n: int)
    requires ValidHeap(h)
    ensures Kept(h, a, z, scopes, i, Cell(n, T_NUM), Leaf(n, T_NUM))
  {
  }

  lemma {:induction false} PartedGrown(h: Heap, h': Heap, a: int, b: int, t: int, c: Cell, v: Value)
    requires ValidHeap(h) && ValidHeap(h') && Grown(h, h') && 0 <= a < MAX_ARENAS
    requires Rep(h, NoGap(), c, v) && Parted(h, a, b, t, c, v)
    ensures Parted(h', a, b, t, c, v)
    decreases v
  {
    hide Off, Region, Gen;
    if Rep(h, Below(a, b), c, v) {
      RepGrown(h, h', Below(a, b), c, v);
    } else if v.Node? {
      ObjKept(h, NoGap(), h', NoGap(), c.val, 2 + |v.kids|);
      forall i | 0 <= i < |v.kids| ensures Parted(h', a, b, t, At(h', c.val, 2 + i), v.kids[i]) {
        PartedGrown(h, h', a, b, t, At(h, c.val, 2 + i), v.kids[i]);
      }
    }
  }

  lemma {:induction false} KeptGrown(h: Heap, h': Heap, a: int, z: Hole, scopes: seq<Scope>, i: int, c: Cell, v: Value)
    requires ValidHeap(h) && ValidHeap(h') && Grown(h, h') && 0 <= a < MAX_ARENAS
    requires Kept(h, a, z, scopes, i, c, v)
    ensures Kept(h', a, z, scopes, i, c, v)
  {
    hide Rep, Parted, Grown;
    RepGrown(h, h', Home(a), c, v);
    RepHomeAny(h, a, c, v);
    if z.lo < z.hi { PartedGrown(h, h', a, z.lo, z.hi, c, v); }
    forall k | 0 <= k < |scopes|
      ensures if i <= scopes[k].spAtEntry then Rep(h', Below(a, scopes[k].head), c, v)
              else Parted(h', a, scopes[k].head, scopes[k].head, c, v)
    {
      if i <= scopes[k].spAtEntry {
        RepGrown(h, h', Below(a, scopes[k].head), c, v);
      } else {
        PartedGrown(h, h', a, scopes[k].head, scopes[k].head, c, v);
      }
    }
  }

  /** Being below a boundary is a way of not being cut by it. */
  lemma KeptParted(h: Heap, a: int, z: Hole, scopes: seq<Scope>, i: int, c: Cell, v: Value, k: int)
    requires ValidHeap(h) && Kept(h, a, z, scopes, i, c, v) && 0 <= k < |scopes|
    ensures Parted(h, a, scopes[k].head, scopes[k].head, c, v)
  {
    hide Rep;
  }

  // ---- Stack changes ----

  lemma GuardPush(h: Heap, a: int, z: Hole, scopes: seq<Scope>, stack: seq<Cell>, vs: seq<Value>, c: Cell, v: Value)
    requires ValidHeap(h) && Guarded(h, a, z, scopes, stack, vs)
    requires Kept(h, a, z, scopes, |stack|, c, v)
    ensures Guarded(h, a, z, scopes, stack + [c], vs + [v])
  {
    hide Kept;
  }

  /** A copy of any cell may sit on top of the stack. */
  lemma KeptOnTop(h: Heap, a: int, z: Hole, scopes: seq<Scope>, n: int, i: int, c: Cell, v: Value)
    requires ValidHeap(h) && ScopesOk(h, a, z, scopes, n) && Kept(h, a, z, scopes, i, c, v)
    ensures Kept(h, a, z, scopes, n, c, v)
  {
    hide Rep, Parted;
    forall k | 0 <= k < |scopes| ensures Parted(h, a, scopes[k].head, scopes[k].head, c, v) {
      KeptParted(h, a, z, scopes, i, c, v, k);
    }
  }

  lemma GuardDrop(h: Heap, a: int, z: Hole, scopes: seq<Scope>, stack: seq<Cell>, vs: seq<Value>, n: nat)
    requires ValidHeap(h) && Guarded(h, a, z, scopes, stack, vs) && n <= |stack|
    requires forall k :: 0 <= k < |scopes| ==> scopes[k].spAtEntry < |stack| - n
    ensures Guarded(h, a, z, scopes, stack[..|stack| - n], vs[..|vs| - n])
  {
    hide Kept;
  }

  lemma GuardGrown(h: Heap, h': Heap, a: int, z: Hole, scopes: seq<Scope>, stack: seq<Cell>, vs: seq<Value>)
    requires ValidHeap(h) && ValidHeap(h') && Grown(h, h') && 0 <= a < MAX_ARENAS
    requires Guarded(h, a, z, scopes, stack, vs)
    ensures Guarded(h', a, z, scopes, stack, vs)
  {
    hide Kept;
    assert SameArena(h[a], h'[a]);
    forall i | 0 <= i < |stack| ensures Kept(h', a, z, scopes, i, stack[i], vs[i]) {
      KeptGrown(h, h', a, z, scopes, i, stack[i], vs[i]);
    }
  }

  // ---- Allocation ----

  /** A new array of cells that are themselves kept is kept on top of the stack. */
  lemma {:induction false} ArrayKept(h: Heap, a: int, z: Hole, scopes: seq<Scope>, n: int, at: seq<int>, cells: seq<Cell>, kids: seq<Value>)
    requires ValidHeap(h) && ScopesOk(h, a, z, scopes, n) && Room(h, a, 2 + |cells|)
    requires |cells| == |kids| == |at|
    requires forall i :: 0 <= i < |cells| ==> Kept(h, a, z, scopes, at[i], cells[i], kids[i])
    ensures var h' := Append(h, a, ArrayBlock(h, a, cells));
      Kept(h', a, z, scopes, n, Cell(Pack(h[a].gen, a, h[a].head), T_OBJ), Node(TYPE_ARRAY, kids))
  {
    hide Off, Region, Gen, Pack, Rep, Parted, Kept, Grown;
    var h' := Append(h, a, ArrayBlock(h, a, cells));
    var o, p := h[a].head, Pack(h[a].gen, a, h[a].head);
    PackRoundTrip(h[a].gen, a, o);
    assert SameArena(h[a], h'[a]) by { AppendSame(h, a, ArrayBlock(h, a, cells)); }
    forall i | 0 <= i < |cells|
      ensures At(h', p, 2 + i) == cells[i] && Kept(h', a, z, scopes, at[i], cells[i], kids[i])
    {
      assert ArrayBlock(h, a, cells)[2 + i] == cells[i];
      KeptGrown(h, h', a, z, scopes, at[i], cells[i], kids[i]);
    }
    assert At(h', p, 0) == ArrayBlock(h, a, cells)[0] && At(h', p, 1) == ArrayBlock(h, a, cells)[1];
    NodeKept(h', a, z, scopes, n, at, o, p, kids);
  }

  lemma AppendSame(h: Heap, a: int, block: seq<Cell>)
    requires ValidHeap(h) && 0 <= a < MAX_ARENAS && Room(h, a, |block|)
    ensures SameArena(h[a], Append(h, a, block)[a])
  {
    assert Grown(h, Append(h, a, block));
  }

  lemma {:induction false} NodeKept(h: Heap, a: int, z: Hole, scopes: seq<Scope>, n: int, at: seq<int>, o: int, p: int, kids: seq<Value>)
    requires ValidHeap(h) && ScopesOk(h, a, z, scopes, n) && |at| == |kids|
    requires Live(h, p) && Region(p) == a && Off(p) == o && 0 <= o && o + 2 + |kids| <= h[a].head
    requires Clears(z, o) && forall k :: 0 <= k < |scopes| ==> scopes[k].head <= o
    requires At(h, p, 0).val == TYPE_ARRAY && At(h, p, 1).val == |kids|
    requires forall i :: 0 <= i < |kids| ==> Kept(h, a, z, scopes, at[i], At(h, p, 2 + i), kids[i])
    ensures Kept(h, a, z, scopes, n, Cell(p, T_OBJ), Node(TYPE_ARRAY, kids))
  {
    hide Off, Region, Gen, Pack;
    var c, v := Cell(p, T_OBJ), Node(TYPE_ARRAY, kids);
    forall i | 0 <= i < |kids| ensures Rep(h, Home(a), At(h, p, 2 + i), kids[i]) {
      assert Kept(h, a, z, scopes, at[i], At(h, p, 2 + i), kids[i]);
    }
    assert Rep(h, Home(a), c, v);
    assert Apart(h, a, z, c, v) by {
      forall i | 0 <= i < |kids| ensures z.lo < z.hi ==> Parted(h, a, z.lo, z.hi, At(h, p, 2 + i), kids[i]) {
        assert Kept(h, a, z, scopes, at[i], At(h, p, 2 + i), kids[i]);
      }
    }
    forall k | 0 <= k < |scopes| ensures Parted(h, a, scopes[k].head, scopes[k].head, c, v) {
      forall i | 0 <= i < |kids| ensures Parted(h, a, scopes[k].head, scopes[k].head, At(h, p, 2 + i), kids[i]) {
        KeptParted(h, a, z, scopes, at[i], At(h, p, 2 + i), kids[i], k);
      }
    }
  }

  // ---- Assignment (OP_SVAR) ----

  ghost function StoreScopes(h: Heap, a: int, scopes: seq<Scope>, fp: int, idx: int, c: Cell): seq<Scope>
    requires ValidHeap(h) && 0 <= a < MAX_ARENAS
  {
    if c.tag == T_OBJ then BumpAll(scopes, fp, idx, a, Off(c.val), h[a].head) else scopes
  }

  /** The scopes of the frame that variable `idx` outlives. */
  predicate Outlived(sc: Scope, fp: int, idx: int, a: int) {
    sc.fp == fp && idx <= sc.spAtEntry && sc.arena == a
  }

  /** Every outlived boundary is above the object, or none lies strictly between it and the head. */
  ghost predicate OrderSafe(scopes: seq<Scope>, fp: int, idx: int, a: int, off: int, head: int) {
    || (forall k :: 0 <= k < |scopes| && Outlived(scopes[k], fp, idx, a) ==> off < scopes[k].head)
    || (forall k :: 0 <= k < |scopes| && Outlived(scopes[k], fp, idx, a) ==> scopes[k].head <= off || scopes[k].head == head)
  }

  ghost predicate Storable(h: Heap, a: int, scopes: seq<Scope>, fp: int, idx: int, c: Cell)
    requires 0 <= a < |h|
  {
    c.tag == T_OBJ ==> OrderSafe(scopes, fp, idx, a, Off(c.val), h[a].head)
  }

  /** Cell `i` after the boundaries of the outlived scopes moved up. */
  lemma KeptBumped(h: Heap, a: int, z: Hole, scopes: seq<Scope>, n: int, fp: int, idx: int, off: int, i: int, c: Cell, v: Value)
    requires ValidHeap(h) && ScopesOk(h, a, z, scopes, n) && Kept(h, a, z, scopes, i, c, v)
    ensures Kept(h, a, z, BumpAll(scopes, fp, idx, a, off, h[a].head), i, c, v)
  {
    hide Rep;
    RepBelowHead(h, a, c, v);
  }

  lemma BumpSorted(h: Heap, a: int, z: Hole, scopes: seq<Scope>, n: int, fp: int, idx: int, off: int)
    requires ValidHeap(h) && ScopesOk(h, a, z, scopes, n) && OrderSafe(scopes, fp, idx, a, off, h[a].head)
    requires forall k :: 0 <= k < |scopes| && idx <= scopes[k].spAtEntry ==> scopes[k].fp == fp
    ensures ScopesOk(h, a, z, BumpAll(scopes, fp, idx, a, off, h[a].head), n)
  {
  }

  lemma BelowIfUnder(h: Heap, a: int, b: int, c: Cell, v: Value)
    requires ValidHeap(h) && 0 <= a < MAX_ARENAS && Rep(h, Home(a), c, v) && Parted(h, a, b, b, c, v)
    requires c.tag == T_OBJ ==> Off(c.val) < b
    ensures Rep(h, Below(a, b), c, v)
  {
    hide Off;
  }

  /** What is stored lies below every boundary that its variable outlives: below the old one if that
      was above it, and else below the head, where the boundary now is. */
  lemma StoredKept(h: Heap, a: int, z: Hole, scopes: seq<Scope>, n: int, fp: int, idx: int, i: int, c: Cell, v: Value)
    requires ValidHeap(h) && ScopesOk(h, a, z, scopes, n) && Kept(h, a, z, scopes, i, c, v) && i >= n
    requires forall k :: 0 <= k < |scopes| && idx <= scopes[k].spAtEntry ==> scopes[k].fp == fp
    ensures Kept(h, a, z, StoreScopes(h, a, scopes, fp, idx, c), idx, c, v)
  {
    hide Off, Region, Gen, Rep;
    RepBelowHead(h, a, c, v);
    var bs := StoreScopes(h, a, scopes, fp, idx, c);
    forall k | 0 <= k < |scopes|
      ensures if idx <= bs[k].spAtEntry then Rep(h, Below(a, bs[k].head), c, v) else Parted(h, a, bs[k].head, bs[k].head, c, v)
    {
      KeptParted(h, a, z, scopes, i, c, v, k);
      if idx <= scopes[k].spAtEntry && (c.tag != T_OBJ || Off(c.val) < scopes[k].head) {
        BelowIfUnder(h, a, scopes[k].head, c, v);
      }
    }
  }

  /** Storing the top of the stack in local `idx` keeps the invariant. */
  lemma GuardStore(h: Heap, a: int, z: Hole, scopes: seq<Scope>, stack: seq<Cell>, vs: seq<Value>, fp: int, idx: int)
    requires ValidHeap(h) && Guarded(h, a, z, scopes, stack, vs) && 0 <= idx < |stack| - 1
    requires forall k :: 0 <= k < |scopes| ==> scopes[k].spAtEntry < |stack| - 1
    requires forall k :: 0 <= k < |scopes| && idx <= scopes[k].spAtEntry ==> scopes[k].fp == fp
    requires Storable(h, a, scopes, fp, idx, stack[|stack| - 1])
    ensures var m := |stack| - 1;
      Guarded(h, a, z, StoreScopes(h, a, scopes, fp, idx, stack[m]), stack[idx := stack[m]][..m], vs[idx := vs[m]][..m])
  {
    hide Off, Kept, Rep;
    var m := |stack| - 1;
    var c, v := stack[m], vs[m];
    assert ScopesOk(h, a, z, scopes, m);
    StoredKept(h, a, z, scopes, m, fp, idx, m, c, v);
    if c.tag == T_OBJ {
      BumpSorted(h, a, z, scopes, m, fp, idx, Off(c.val));
      forall i | 0 <= i < m ensures Kept(h, a, z, StoreScopes(h, a, scopes, fp, idx, c), i, stack[i], vs[i]) {
        KeptBumped(h, a, z, scopes, m, fp, idx, Off(c.val), i, stack[i], vs[i]);
      }
    }
  }

  // ---- Opening and leaving scopes ----

  lemma GuardEnter(h: Heap, a: int, z: Hole, scopes: seq<Scope>, stack: seq<Cell>, vs: seq<Value>, fp: int)
    requires ValidHeap(h) && Guarded(h, a, z, scopes, stack, vs)
    ensures Guarded(h, a, z, scopes + [Scope(a, h[a].head, fp, |stack| - 1)], stack, vs)
  {
    hide Rep, Parted;
    var scopes' := scopes + [Scope(a, h[a].head, fp, |stack| - 1)];
    forall i | 0 <= i < |stack| ensures Kept(h, a, z, scopes', i, stack[i], vs[i]) {
      assert Kept(h, a, z, scopes, i, stack[i], vs[i]);
      RepBelowHead(h, a, stack[i], vs[i]);
    }
  }

  lemma {:induction false} PartedRewound(h: Heap, a: int, b: int, t: int, head: int, c: Cell, v: Value)
    requires ValidHeap(h) && 0 <= a < MAX_ARENAS && 0 <= b <= head < MAX_HEAP
    requires Parted(h, a, b, t, c, v)
    ensures Parted(WithHead(h, a, head), a, b, t, c, v)
    decreases v
  {
    hide Off, Region, Gen;
    var h' := WithHead(h, a, head);
    if Rep(h, Below(a, b), c, v) {
      RepRewound(h, a, b, head, c, v);
    } else if v.Node? {
      assert Live(h', c.val);
      forall i | 0 <= i < |v.kids| ensures Parted(h', a, b, t, At(h', c.val, 2 + i), v.kids[i]) {
        assert At(h', c.val, 2 + i) == At(h, c.val, 2 + i);
        PartedRewound(h, a, b, t, head, At(h, c.val, 2 + i), v.kids[i]);
      }
    }
  }

  lemma RepRewoundHome(h: Heap, a: int, b: int, c: Cell, v: Value)
    requires ValidHeap(h) && 0 <= a < MAX_ARENAS && 0 <= b < MAX_HEAP && Rep(h, Below(a, b), c, v)
    ensures Rep(WithHead(h, a, b), Home(a), c, v)
  {
    hide Rep;
    RepKept(h, Below(a, b), WithHead(h, a, b), Home(a), c, v);
  }

  lemma ApartRewound(h: Heap, a: int, z: Hole, b: int, c: Cell, v: Value)
    requires ValidHeap(h) && 0 <= a < MAX_ARENAS && 0 <= b < MAX_HEAP && Clears(z, b) && Apart(h, a, z, c, v)
    ensures Apart(WithHead(h, a, b), a, z, c, v)
  {
    if z.lo < z.hi { PartedRewound(h, a, z.lo, z.hi, b, c, v); }
  }

  /** A cell that scope `j` protects survives the rewind to that scope's boundary. */
  lemma KeptRewound(h: Heap, a: int, z: Hole, scopes: seq<Scope>, n: int, j: int, i: int, c: Cell, v: Value)
    requires ValidHeap(h) && ScopesOk(h, a, z, scopes, n) && 0 <= j < |scopes|
    requires Kept(h, a, z, scopes, i, c, v) && Rep(h, Below(a, scopes[j].head), c, v) && Clears(z, scopes[j].head)
    ensures Kept(WithHead(h, a, scopes[j].head), a, z, scopes[..j], i, c, v)
  {
    hide Rep, Parted;
    var b := scopes[j].head;
    RepRewoundHome(h, a, b, c, v);
    ApartRewound(h, a, z, b, c, v);
    forall k | 0 <= k < j
      ensures if i <= scopes[k].spAtEntry then Rep(WithHead(h, a, b), Below(a, scopes[k].head), c, v)
              else Parted(WithHead(h, a, b), a, scopes[k].head, scopes[k].head, c, v)
    {
      if i <= scopes[k].spAtEntry {
        RepRewound(h, a, scopes[k].head, b, c, v);
      } else {
        PartedRewound(h, a, scopes[k].head, scopes[k].head, b, c, v);
      }
    }
  }

  lemma ScopesRewound(h: Heap, a: int, z: Hole, scopes: seq<Scope>, n: int, j: int, m: int)
    requires ValidHeap(h) && ScopesOk(h, a, z, scopes, n) && 0 <= j < |scopes|
    requires Clears(z, scopes[j].head) && forall k :: 0 <= k < j ==> scopes[k].spAtEntry < m
    ensures ScopesOk(WithHead(h, a, scopes[j].head), a, z, scopes[..j], m)
  {
  }

  /** Leaving scope `j` and everything inside it, and dropping the locals declared since: every
      remaining cell keeps its whole unfolding. A single OP_SCOPE_EXIT is the case of the last
      scope; break and continue leave several. */
  lemma GuardLeave(h: Heap, a: int, z: Hole, scopes: seq<Scope>, stack: seq<Cell>, vs: seq<Value>, j: int)
    requires ValidHeap(h) && Guarded(h, a, z, scopes, stack, vs) && 0 <= j < |scopes|
    requires forall k :: 0 <= k < j ==> scopes[k].spAtEntry <= scopes[j].spAtEntry
    requires -1 <= scopes[j].spAtEntry && Clears(z, scopes[j].head)
    ensures var m := scopes[j].spAtEntry + 1;
      Guarded(WithHead(h, a, scopes[j].head), a, z, scopes[..j], stack[..m], vs[..m])
  {
    hide Rep, Parted, ScopesOk;
    var m := scopes[j].spAtEntry + 1;
    InStack(h, a, z, scopes, |stack|, j);
    ScopesRewound(h, a, z, scopes, |stack|, j, m);
    forall i | 0 <= i < m
      ensures Kept(WithHead(h, a, scopes[j].head), a, z, scopes[..j], i, stack[i], vs[i])
    {
      assert Kept(h, a, z, scopes, i, stack[i], vs[i]);
      KeptRewound(h, a, z, scopes, |stack|, j, i, stack[i], vs[i]);
    }
  }

  lemma InStack(h: Heap, a: int, z: Hole, scopes: seq<Scope>, n: int, j: int)
    requires ValidHeap(h) && ScopesOk(h, a, z, scopes, n) && 0 <= j < |scopes|
    ensures scopes[j].spAtEntry < n && 0 <= scopes[j].head < MAX_HEAP && 0 <= a < MAX_ARENAS
  {
  }
}
