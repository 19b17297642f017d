/** OP_RET: leaving every scope of a frame, rewinding where the result allows it and evacuating the
    result where it does not, keeps the caller's stack and the result (src/vm.c:1246-1279). */
module Returning {
  import opened Defines
  import opened Arenas
  import opened Evacuation
  import opened Machine
  import opened Protection

  // ---- Evacuation respects lower boundaries ----

  lemma {:induction false} PartedKept(h: Heap, g: Gap, h': Heap, g': Gap, a: int, b: int, t: int, c: Cell, v: Value)
    requires ValidHeap(h) && ValidHeap(h') && WfGap(g) && WfGap(g') && 0 <= a < MAX_ARENAS
    requires Keeps(h, g, h', g') && Keeps(h, Below(a, b), h', Below(a, b))
    requires Rep(h, g, c, v) && Parted(h, a, b, t, c, v)
    ensures Parted(h', a, b, t, c, v)
    decreases v
  {
    hide Off, Region, Gen, Keeps;
    if Rep(h, Below(a, b), c, v) {
      RepKept(h, Below(a, b), h', Below(a, b), c, v);
    } else if v.Node? {
      ObjKept(h, g, h', g', c.val, 2 + |v.kids|);
      forall i | 0 <= i < |v.kids| ensures Parted(h', a, b, t, At(h', c.val, 2 + i), v.kids[i]) {
        PartedKept(h, g, h', g', a, b, t, At(h, c.val, 2 + i), v.kids[i]);
      }
    }
  }

  lemma {:induction false} EvacParted(h0: Heap, h: Heap, a: int, b: int, t: int, p: int, target: int, v: Value)
    requires ValidHeap(h0) && ValidHeap(h) && Grown(h0, h) && 0 <= a < MAX_ARENAS
    requires Rep(h0, NoGap(), Cell(p, T_OBJ), v) && Parted(h0, a, b, t, Cell(p, T_OBJ), v)
    requires b <= t <= target && t <= h0[a].head
    requires Evac(h, p, target).Some?
    ensures var (h', q) := Evac(h, p, target).value; Parted(h', a, b, t, Cell(q, T_OBJ), v)
    decreases v, 1
  {
    hide Evac, Rep;
    if Off(p) < target {
      SharedEvac(h0, h, p, target, v);
      PartedGrown(h0, h, a, b, t, Cell(p, T_OBJ), v);
    } else {
      AboveIsNode(h0, a, b, t, p, v);
      NodeParted(h0, h, a, b, t, p, target, v.ty, v.kids);
    }
  }

  /** A whole unfolding below `b` cannot have its root at or above `b`. */
  lemma AboveIsNode(h: Heap, a: int, b: int, t: int, p: int, v: Value)
    requires ValidHeap(h) && 0 <= a < MAX_ARENAS && b <= Off(p)
    requires Rep(h, NoGap(), Cell(p, T_OBJ), v) && Parted(h, a, b, t, Cell(p, T_OBJ), v)
    ensures v.Node? && Region(p) == a && Live(h, p)
    ensures Off(p) + 2 + |v.kids| <= MAX_HEAP
    ensures forall i :: 0 <= i < |v.kids| ==> Parted(h, a, b, t, At(h, p, 2 + i), v.kids[i])
  {
    hide Off, Region, Gen;
  }

  lemma {:induction false} NodeParted(h0: Heap, h: Heap, a: int, b: int, t: int, p: int, target: int, ty: int, kids: seq<Value>)
    requires ValidHeap(h0) && ValidHeap(h) && Grown(h0, h) && 0 <= a < MAX_ARENAS && Region(p) == a
    requires Rep(h0, NoGap(), Cell(p, T_OBJ), Node(ty, kids))
    requires forall i :: 0 <= i < |kids| ==> Parted(h0, a, b, t, At(h0, p, 2 + i), kids[i])
    requires b <= t <= target <= Off(p) && t <= h0[a].head
    requires Evac(h, p, target).Some?
    ensures var (h', q) := Evac(h, p, target).value; Parted(h', a, b, t, Cell(q, T_OBJ), Node(ty, kids))
    decreases Node(ty, kids), 0
  {
    hide Off, Region, Gen, Pack, Copied, GrownBut, Keeps, Space, Evac, EvacKids;
    var size, head := 2 + |kids|, h[a].head;
    assert ObjAt(h0, NoGap(), p, 2 + |kids|);
    ObjGrown(h0, h, p, size);
    var h1, h' := NodeSteps(h, p, target, |kids|);
    BlockCopied(h0, h, a, p, size);
    forall i | 0 <= i < |kids|
      ensures Rep(h0, NoGap(), h1[a].mem[head + 2 + i], kids[i]) && Parted(h0, a, b, t, h1[a].mem[head + 2 + i], kids[i])
    {
      assert h1[a].mem[head + (2 + i)] == At(h0, p, 2 + i);
    }
    KidsParted(h0, h1, a, b, t, head + 2, kids, target);
    GrownThen(h, h1, h', a, head + 2, head + size);
    var q := Pack(h[a].gen, a, head);
    PackRoundTrip(h[a].gen, a, head);
    forall i | 0 <= i < |kids| ensures Parted(h', a, b, t, At(h', q, 2 + i), kids[i]) {
      assert At(h', q, 2 + i) == h'[a].mem[head + 2 + i];
    }
  }

  /** The cells from `at` on unfold to `kids` in `h`, parted at [b, t). */
  ghost predicate AllParted(h: Heap, a: int, b: int, t: int, m: seq<Cell>, at: int, kids: seq<Value>)
    requires ValidHeap(h) && 0 <= at && at + |kids| <= |m|
  {
    forall i :: 0 <= i < |kids| ==> Parted(h, a, b, t, m[at + i], kids[i])
  }

  ghost predicate AllRep(h: Heap, m: seq<Cell>, at: int, kids: seq<Value>)
    requires ValidHeap(h) && 0 <= at && at + |kids| <= |m|
  {
    forall i :: 0 <= i < |kids| ==> Rep(h, NoGap(), m[at + i], kids[i])
  }

  lemma {:induction false} KidsParted(h0: Heap, h: Heap, a: int, b: int, t: int, at: int, kids: seq<Value>, target: int)
    requires ValidHeap(h0) && ValidHeap(h) && Grown(h0, h)
    requires 0 <= a < MAX_ARENAS && h[a].active && h0[a].head <= at && at + |kids| <= h[a].head
    requires b <= t <= target && t <= h0[a].head
    requires AllRep(h0, h[a].mem, at, kids) && AllParted(h0, a, b, t, h[a].mem, at, kids)
    requires EvacKids(h, a, at, |kids|, target).Some?
    ensures var h' := EvacKids(h, a, at, |kids|, target).value;
      at + |kids| <= |h'[a].mem| && AllParted(h', a, b, t, h'[a].mem, at, kids)
    decreases kids, 0
  {
    hide Off, Region, Gen, Pack, Rep, Parted, GrownBut, Keeps, Space, EvacKids, Evac, Heads;
    var h' := EvacKids(h, a, at, |kids|, target).value;
    assert |h'[a].mem| == |h[a].mem| by { KidsSame(h, a, at, |kids|, target); }
    if |kids| == 0 {
      assert AllParted(h', a, b, t, h'[a].mem, at, kids);
    } else {
      hide AllParted, AllRep;
      var v, rest := kids[0], kids[1..];
      FirstKid(h0, a, b, t, h[a].mem, at, kids);
      var h2 := KidPartedMoved(h0, h, a, b, t, at, v, target, |kids|);
      RestParted(h0, h, h2, a, b, t, at, kids);
      KidsParted(h0, h2, a, b, t, at + 1, rest, target);
      KidPartedStays(h0, h, h2, h', a, b, t, at, |rest|, v);
      ConsParted(h', a, b, t, h'[a].mem, at, kids);
    }
  }

  lemma KidsSame(h: Heap, a: int, at: int, n: nat, target: int)
    requires ValidHeap(h) && 0 <= a < MAX_ARENAS && h[a].active && 0 <= at && at + n <= h[a].head
    requires EvacKids(h, a, at, n, target).Some?
    ensures |EvacKids(h, a, at, n, target).value[a].mem| == |h[a].mem|
  {
    hide EvacKids, Evac;
    assert SameArena(h[a], EvacKids(h, a, at, n, target).value[a]);
  }

  lemma FirstKid(h: Heap, a: int, b: int, t: int, m: seq<Cell>, at: int, kids: seq<Value>)
    requires ValidHeap(h) && 0 <= at && at + |kids| <= |m| && |kids| > 0
    requires AllRep(h, m, at, kids) && AllParted(h, a, b, t, m, at, kids)
    ensures Rep(h, NoGap(), m[at], kids[0]) && Parted(h, a, b, t, m[at], kids[0])
  {
    hide Rep, Parted;
    assert m[at + 0] == m[at];
  }

  lemma RestParted(h0: Heap, h: Heap, h2: Heap, a: int, b: int, t: int, at: int, kids: seq<Value>)
    requires ValidHeap(h0) && ValidHeap(h) && ValidHeap(h2) && GrownBut(h, h2, a, at, at + 1)
    requires 0 <= a < MAX_ARENAS && |kids| > 0 && 0 <= at && at + |kids| <= h[a].head && h[a].active && h2[a].active
    requires AllRep(h0, h[a].mem, at, kids) && AllParted(h0, a, b, t, h[a].mem, at, kids)
    ensures at + |kids| <= |h2[a].mem|
    ensures AllRep(h0, h2[a].mem, at + 1, kids[1..]) && AllParted(h0, a, b, t, h2[a].mem, at + 1, kids[1..])
  {
    hide Rep, Parted, GrownBut;
    forall i | 0 <= i < |kids[1..]|
      ensures Rep(h0, NoGap(), h2[a].mem[at + 1 + i], kids[1..][i]) && Parted(h0, a, b, t, h2[a].mem[at + 1 + i], kids[1..][i])
    {
      Unchanged(h, h2, a, at, at + 1, at + 1 + i);
      assert h[a].mem[at + 1 + i] == h[a].mem[at + (1 + i)];
    }
  }

  lemma ConsParted(h: Heap, a: int, b: int, t: int, m: seq<Cell>, at: int, kids: seq<Value>)
    requires ValidHeap(h) && |kids| > 0 && 0 <= at && at + |kids| <= |m|
    requires Parted(h, a, b, t, m[at], kids[0]) && AllParted(h, a, b, t, m, at + 1, kids[1..])
    ensures AllParted(h, a, b, t, m, at, kids)
  {
    hide Parted;
    forall i | 0 <= i < |kids| ensures Parted(h, a, b, t, m[at + i], kids[i]) {
      if i > 0 {
        assert m[at + i] == m[at + 1 + (i - 1)] && kids[i] == kids[1..][i - 1];
      }
    }
  }

  lemma {:induction false} KidPartedMoved(h0: Heap, h: Heap, a: int, b: int, t: int, at: int, v: Value, target: int, n: nat) returns (h2: Heap)
    requires ValidHeap(h0) && ValidHeap(h) && Grown(h0, h)
    requires 0 <= a < MAX_ARENAS && h[a].active && h0[a].head <= at && at + n <= h[a].head && n > 0
    requires b <= t <= target && t <= h0[a].head
    requires Rep(h0, NoGap(), h[a].mem[at], v) && Parted(h0, a, b, t, h[a].mem[at], v)
    requires EvacKids(h, a, at, n, target).Some?
    ensures ValidHeap(h2) && h2[a].active && Grown(h0, h2) && GrownBut(h, h2, a, at, at + 1) && h[a].head <= h2[a].head
    ensures EvacKids(h, a, at, n, target) == EvacKids(h2, a, at + 1, n - 1, target)
    ensures Rep(h2, Gap(Heads(h0), Heads(h)), h2[a].mem[at], v) && Parted(h2, a, b, t, h2[a].mem[at], v)
    decreases v, 2
  {
    hide Off, Region, Gen, Pack, Rep, Space, Evac, GrownBut, Keeps;
    var c, lo, g := h[a].mem[at], Heads(h0), Gap(Heads(h0), Heads(h));
    h2 := KidMoved(h0, h, lo, a, at, v, target, n) by { KidSharing(h0, target, v); }
    if c.tag == T_OBJ {
      assert c == Cell(c.val, T_OBJ);
      KidSharing(h0, target, v);
      EvacRep(h0, h, g, c.val, target, v);
      EvacParted(h0, h, a, b, t, c.val, target, v);
      var (h1, q) := Evac(h, c.val, target).value;
      WriteKeeps(h0, h, h1, a, b, at, Cell(q, T_OBJ));
      PartedKept(h1, g, h2, g, a, b, t, Cell(q, T_OBJ), v);
    } else {
      LeafParted(h0, h, a, b, t, c, v);
    }
  }

  lemma KidSharing(h0: Heap, target: int, v: Value)
    requires ValidHeap(h0)
    ensures Sharing(h0, Heads(h0), target, v)
    ensures forall i :: 0 <= i < MAX_ARENAS ==> Heads(h0)[i] <= h0[i].head
  {
  }

  lemma WriteKeeps(h0: Heap, h: Heap, h1: Heap, a: int, b: int, at: int, c: Cell)
    requires ValidHeap(h0) && ValidHeap(h) && ValidHeap(h1) && Grown(h0, h) && Grown(h, h1)
    requires 0 <= a < MAX_ARENAS && h[a].active && b <= h0[a].head <= at < h[a].head
    ensures at < |h1[a].mem| && ValidHeap(Write(h1, a, at, c))
    ensures var h2 := Write(h1, a, at, c);
      var g := Gap(Heads(h0), Heads(h));
      Keeps(h1, g, h2, g) && Keeps(h1, Below(a, b), h2, Below(a, b))
  {
    assert SameArena(h[a], h1[a]);
  }

  lemma LeafParted(h0: Heap, h: Heap, a: int, b: int, t: int, c: Cell, v: Value)
    requires ValidHeap(h0) && ValidHeap(h) && c.tag != T_OBJ && Rep(h0, NoGap(), c, v)
    ensures Parted(h, a, b, t, c, v)
  {
  }

  lemma {:induction false} KidPartedStays(h0: Heap, h: Heap, h2: Heap, h': Heap, a: int, b: int, t: int, at: int, n: nat, v: Value)
    requires ValidHeap(h0) && ValidHeap(h) && ValidHeap(h2) && ValidHeap(h') && 0 <= a < MAX_ARENAS
    requires h2[a].active && b <= h0[a].head <= at && at + 1 + n <= h[a].head <= h2[a].head
    requires GrownBut(h2, h', a, at + 1, at + 1 + n)
    requires Rep(h2, Gap(Heads(h0), Heads(h)), h2[a].mem[at], v) && Parted(h2, a, b, t, h2[a].mem[at], v)
    ensures Parted(h', a, b, t, h'[a].mem[at], v)
  {
    hide Off, Region, Gen, Rep, Parted, Keeps;
    var g := Gap(Heads(h0), Heads(h));
    LaterKeeps(h0, h, h2, h', a, b, at, n);
    PartedKept(h2, g, h', g, a, b, t, h2[a].mem[at], v);
  }

  /** Writes to the cells after `at` concern neither what avoids the new blocks nor what is below. */
  lemma LaterKeeps(h0: Heap, h: Heap, h2: Heap, h': Heap, a: int, b: int, at: int, n: nat)
    requires ValidHeap(h0) && ValidHeap(h) && ValidHeap(h2) && ValidHeap(h') && 0 <= a < MAX_ARENAS
    requires h2[a].active && b <= h0[a].head <= at && at + 1 + n <= h[a].head <= h2[a].head
    requires GrownBut(h2, h', a, at + 1, at + 1 + n)
    ensures at < |h'[a].mem| && h'[a].mem[at] == h2[a].mem[at]
    ensures var g := Gap(Heads(h0), Heads(h)); Keeps(h2, g, h', g)
    ensures Keeps(h2, Below(a, b), h', Below(a, b))
  {
    assert SameArena(h2[a], h'[a]);
    assert Heads(h0)[a] == h0[a].head && Heads(h)[a] == h[a].head;
  }

  // ---- Popping the scopes of the frame ----

  /** What an unfolding needs to be moved or kept by the return: allocated in region `a`, cut by no
      boundary of the scopes still open. */
  ghost predicate Returnable(h: Heap, a: int, z: Hole, scopes: seq<Scope>, c: Cell, v: Value)
    requires ValidHeap(h)
  {
    && Rep(h, Home(a), c, v) && Apart(h, a, z, c, v)
    && forall k :: 0 <= k < |scopes| ==> Parted(h, a, scopes[k].head, scopes[k].head, c, v)
  }

  ghost predicate AllKept(h: Heap, a: int, z: Hole, scopes: seq<Scope>, low: seq<Cell>, lowv: seq<Value>)
    requires ValidHeap(h)
  {
    |low| == |lowv| && forall i :: 0 <= i < |low| ==> Kept(h, a, z, scopes, i, low[i], lowv[i])
  }

  lemma {:induction false} HomeOf(h: Heap, a: int, b: int, t: int, c: Cell, v: Value)
    requires ValidHeap(h) && 0 <= a < MAX_ARENAS && b <= MAX_HEAP
    requires Rep(h, NoGap(), c, v) && Parted(h, a, b, t, c, v)
    ensures Rep(h, Home(a), c, v)
    decreases v
  {
    hide Off, Region, Gen;
    if Rep(h, Below(a, b), c, v) {
      RepWider(h, a, b, HEAP_END, c, v);
    } else if v.Node? {
      forall i | 0 <= i < |v.kids| ensures Rep(h, Home(a), At(h, c.val, 2 + i), v.kids[i]) {
        HomeOf(h, a, b, t, At(h, c.val, 2 + i), v.kids[i]);
      }
    }
  }

  /** Leaving one scope whose boundary the result lies below, or with a plain result. */
  lemma PopRewind(h: Heap, a: int, z: Hole, scopes: seq<Scope>, n: int, low: seq<Cell>, lowv: seq<Value>, c: Cell, v: Value)
    requires ValidHeap(h) && |scopes| > 0 && ScopesOk(h, a, z, scopes, n)
    requires AllKept(h, a, z, scopes, low, lowv) && Returnable(h, a, z, scopes, c, v)
    requires |low| - 1 <= scopes[|scopes| - 1].spAtEntry && Clears(z, scopes[|scopes| - 1].head)
    requires c.tag == T_OBJ ==> Off(c.val) < scopes[|scopes| - 1].head
    ensures var j := |scopes| - 1;
      var h' := WithHead(h, a, scopes[j].head);
      && ValidHeap(h') && ScopesOk(h', a, z, scopes[..j], n)
      && AllKept(h', a, z, scopes[..j], low, lowv) && Returnable(h', a, z, scopes[..j], c, v)
  {
    hide Off, Rep;
    var j := |scopes| - 1;
    var b := scopes[j].head;
    BelowIfUnder(h, a, b, c, v);
    ScopesRewound(h, a, z, scopes, n, j, n);
    forall i | 0 <= i < |low|
      ensures Kept(WithHead(h, a, b), a, z, scopes[..j], i, low[i], lowv[i])
    {
      KeptRewound(h, a, z, scopes, n, j, i, low[i], lowv[i]);
    }
    RepRewoundHome(h, a, b, c, v);
    ApartRewound(h, a, z, b, c, v);
    forall k | 0 <= k < j ensures Parted(WithHead(h, a, b), a, scopes[k].head, scopes[k].head, c, v) {
      PartedRewound(h, a, scopes[k].head, scopes[k].head, b, c, v);
    }
  }

  /** Leaving one scope whose boundary the result lies above: it is copied, nothing is rewound. */
  lemma PopCopy(h: Heap, a: int, z: Hole, scopes: seq<Scope>, n: int, low: seq<Cell>, lowv: seq<Value>, p: int, v: Value)
    returns (h': Heap, q: int)
    requires ValidHeap(h) && |scopes| > 0 && ScopesOk(h, a, z, scopes, n)
    requires AllKept(h, a, z, scopes, low, lowv) && Returnable(h, a, z, scopes, Cell(p, T_OBJ), v)
    requires Evac(h, p, scopes[|scopes| - 1].head).Some? && Clears(z, scopes[|scopes| - 1].head)
    ensures Evac(h, p, scopes[|scopes| - 1].head) == Some((h', q)) && ValidHeap(h')
    ensures ScopesOk(h', a, z, scopes[..|scopes| - 1], n) && AllKept(h', a, z, scopes[..|scopes| - 1], low, lowv)
    ensures Returnable(h', a, z, scopes[..|scopes| - 1], Cell(q, T_OBJ), v)
  {
    hide Off, Rep, Evac, Parted, Grown, GrownBut;
    var j := |scopes| - 1;
    h', q := Evac(h, p, scopes[j].head).value.0, Evac(h, p, scopes[j].head).value.1;
    var g := Gap(Heads(h), Heads(h));
    RepHomeAny(h, a, Cell(p, T_OBJ), v);
    KidSharing(h, scopes[j].head, v);
    GrownSelf(h);
    EvacRep(h, h, g, p, scopes[j].head, v);
    AnyGap(h', g, Cell(q, T_OBJ), v);
    ScopesGrown(h, h', a, z, scopes, n, j);
    forall i | 0 <= i < |low| ensures Kept(h', a, z, scopes[..j], i, low[i], lowv[i]) {
      KeptGrown(h, h', a, z, scopes, i, low[i], lowv[i]);
    }
    EvacParted(h, h, a, scopes[j].head, scopes[j].head, p, scopes[j].head, v);
    HomeOf(h', a, scopes[j].head, scopes[j].head, Cell(q, T_OBJ), v);
    assert Apart(h', a, z, Cell(q, T_OBJ), v) by {
      if z.lo < z.hi { EvacParted(h, h, a, z.lo, z.hi, p, scopes[j].head, v); }
    }
    forall k | 0 <= k < j ensures Parted(h', a, scopes[k].head, scopes[k].head, Cell(q, T_OBJ), v) {
      EvacParted(h, h, a, scopes[k].head, scopes[k].head, p, scopes[j].head, v);
    }
  }

  lemma AnyGap(h: Heap, g: Gap, c: Cell, v: Value)
    requires ValidHeap(h) && WfGap(g) && Rep(h, g, c, v)
    ensures Rep(h, NoGap(), c, v)
  {
    hide Rep;
    RepKept(h, g, h, NoGap(), c, v);
  }

  lemma ScopesGrown(h: Heap, h': Heap, a: int, z: Hole, scopes: seq<Scope>, n: int, j: nat)
    requires ValidHeap(h) && ValidHeap(h') && Grown(h, h') && ScopesOk(h, a, z, scopes, n) && j <= |scopes|
    ensures ScopesOk(h', a, z, scopes[..j], n)
  {
    assert SameArena(h[a], h'[a]);
  }

  /** After all scopes of the frame are left, the caller's cells and the result are intact. */
  lemma {:induction false} PopAll(h: Heap, a: int, z: Hole, scopes: seq<Scope>, n: int, fp: int, keep: nat,
                                  low: seq<Cell>, lowv: seq<Value>, c: Cell, v: Value)
    requires ValidHeap(h) && keep <= |scopes| && ScopesOk(h, a, z, scopes, n)
    requires forall k :: 0 <= k < |scopes| ==> ValidScope(scopes[k])
    requires forall k :: keep <= k < |scopes| ==> scopes[k].fp == fp && |low| - 1 <= scopes[k].spAtEntry
    requires forall k :: keep <= k < |scopes| ==> Clears(z, scopes[k].head)
    requires keep > 0 ==> scopes[keep - 1].fp != fp
    requires AllKept(h, a, z, scopes, low, lowv) && Returnable(h, a, z, scopes, c, v)
    requires PopScopes(scopes, fp, a, h, c).Some?
    ensures var u := PopScopes(scopes, fp, a, h, c).value;
      && u.scopes == scopes[..keep] && ScopesOk(u.heap, a, z, u.scopes, n)
      && AllKept(u.heap, a, z, u.scopes, low, lowv) && Returnable(u.heap, a, z, u.scopes, u.rv, v)
    decreases |scopes|
  {
    hide Off, Evac, Kept, Returnable, AllKept, ScopesOk;
    if |scopes| > keep {
      var j := |scopes| - 1;
      var sc, rest := scopes[j], scopes[..j];
      LastScope(h, a, z, scopes, n);
      assert forall k :: 0 <= k < j ==> rest[k] == scopes[k];
      assert rest[..keep] == scopes[..keep];
      if c.tag != T_OBJ {
        PopRewind(h, a, z, scopes, n, low, lowv, c, v);
        PopAll(WithHead(h, a, sc.head), a, z, rest, n, fp, keep, low, lowv, c, v);
      } else {
        var q := Evac(h, c.val, sc.head).value.1;
        assert c == Cell(c.val, T_OBJ);
        if Off(q) < sc.head {
          LowResult(h, a, z, c.val, sc.head, scopes, v);
          PopRewind(h, a, z, scopes, n, low, lowv, c, v);
          PopAll(WithHead(h, a, sc.head), a, z, rest, n, fp, keep, low, lowv, c, v);
        } else {
          var h1, _ := PopCopy(h, a, z, scopes, n, low, lowv, c.val, v);
          PopAll(h1, a, z, rest, n, fp, keep, low, lowv, Cell(q, T_OBJ), v);
        }
      }
    } else {
      assert scopes[..keep] == scopes;
    }
  }

  lemma LastScope(h: Heap, a: int, z: Hole, scopes: seq<Scope>, n: int)
    requires ValidHeap(h) && |scopes| > 0 && ScopesOk(h, a, z, scopes, n)
    ensures 0 <= a < MAX_ARENAS && h[a].active
    ensures scopes[|scopes| - 1].arena == a && 0 <= scopes[|scopes| - 1].head <= h[a].head
  {
  }

  /** A result that ends up below the boundary was not copied. */
  lemma LowResult(h: Heap, a: int, z: Hole, p: int, target: int, scopes: seq<Scope>, v: Value)
    requires ValidHeap(h) && 0 <= a < MAX_ARENAS && |scopes| > 0 && scopes[|scopes| - 1].head == target
    requires Returnable(h, a, z, scopes, Cell(p, T_OBJ), v) && target <= h[a].head
    requires Evac(h, p, target).Some? && Off(Evac(h, p, target).value.1) < target
    ensures Evac(h, p, target).value == (h, p)
  {
    hide Rep, EvacKids, EvacData, Append;
    if Off(p) >= target && Evac(h, p, target).value != (h, p) {
      HomeRegion(h, a, p, v);
      PackRoundTrip(h[a].gen, a, h[a].head);
    }
  }

  lemma HomeRegion(h: Heap, a: int, p: int, v: Value)
    requires ValidHeap(h) && 0 <= a < MAX_ARENAS && Rep(h, Home(a), Cell(p, T_OBJ), v)
    ensures Region(p) == a
  {
    hide Off, Region;
  }
}
