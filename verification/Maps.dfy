/** Maps on the heap: a header of four cells and a headerless block of key/value cells that doubles
    when full. The operations refine an association list in insertion order with unique keys
    (src/vm.c:1362-1377, 1403-1453, 1862-1869; src/mylolib.c:819-842). */
module Maps {
  import opened Defines
  import opened Arenas
  import opened Machine
  import opened VirtualMachine

  const INITIAL_CAP: nat := 16

  type Pair = (Cell, Cell)

  // ---- The dictionary ----

  ghost predicate Unique(ps: seq<Pair>) {
    forall i, j :: 0 <= i < j < |ps| ==> ps[i].0 != ps[j].0
  }

  /** The position of a key, or the number of pairs. */
  function IndexOf(ps: seq<Pair>, k: Cell): (i: nat)
    ensures i <= |ps| && (i < |ps| ==> ps[i].0 == k)
    ensures forall j :: 0 <= j < i ==> ps[j].0 != k
  {
    if ps == [] || ps[0].0 == k then 0 else 1 + IndexOf(ps[1..], k)
  }

  /** An existing key keeps its place; a new one goes last. */
  function Put(ps: seq<Pair>, k: Cell, v: Cell): seq<Pair> {
    var i := IndexOf(ps, k);
    if i < |ps| then ps[i := (k, v)] else ps + [(k, v)]
  }

  function Removed(ps: seq<Pair>, k: Cell): seq<Pair> {
    var i := IndexOf(ps, k);
    if i < |ps| then ps[..i] + ps[i + 1..] else ps
  }

  function Lookup(ps: seq<Pair>, k: Cell): Option<Cell> {
    var i := IndexOf(ps, k);
    if i < |ps| then Some(ps[i].1) else None
  }

  lemma IndexIs(ps: seq<Pair>, k: Cell, i: nat)
    requires i <= |ps| && (i < |ps| ==> ps[i].0 == k) && forall j :: 0 <= j < i ==> ps[j].0 != k
    ensures IndexOf(ps, k) == i
  {
  }

  /** Storing changes what is found under one key only, and keeps the keys unique and in order. */
  lemma PutFinds(ps: seq<Pair>, k: Cell, v: Cell, x: Cell)
    requires Unique(ps)
    ensures Unique(Put(ps, k, v))
    ensures Lookup(Put(ps, k, v), x) == if x == k then Some(v) else Lookup(ps, x)
    ensures |Put(ps, k, v)| == |ps| + (if exists j :: 0 <= j < |ps| && ps[j].0 == k then 0 else 1)
    ensures forall j :: 0 <= j < |ps| ==> Put(ps, k, v)[j].0 == ps[j].0
  {
    var qs, i, n := Put(ps, k, v), IndexOf(ps, k), IndexOf(ps, x);
    if x == k {
      IndexIs(qs, k, i);
    } else if n < |ps| {
      IndexIs(qs, x, n);
    } else {
      IndexIs(qs, x, |qs|);
    }
  }

  /** The pairs under other keys, in order. */
  function Others(ps: seq<Pair>, k: Cell): seq<Pair> {
    if ps == [] then [] else (if ps[0].0 == k then [] else [ps[0]]) + Others(ps[1..], k)
  }

  /** Removing closes the gap: the other pairs, and only they, stay in their order. */
  lemma {:induction false} RemovedOthers(ps: seq<Pair>, k: Cell)
    requires Unique(ps)
    ensures Removed(ps, k) == Others(ps, k)
    decreases |ps|
  {
    if ps != [] {
      var first, rest := ps[0], ps[1..];
      assert ps == [first] + rest && Unique(rest);
      RemovedOthers(rest, k);
      if first.0 == k {
        RemovedFirst(first, rest, k);
      } else {
        RemovedLater(first, rest, k);
      }
    }
  }

  lemma RemovedFirst(first: Pair, rest: seq<Pair>, k: Cell)
    requires first.0 == k && Unique([first] + rest)
    ensures Removed([first] + rest, k) == rest && Removed(rest, k) == rest
  {
    var ps := [first] + rest;
    IndexIs(ps, k, 0);
    forall j | 0 <= j < |rest| ensures rest[j].0 != k {
      assert rest[j] == ps[j + 1] && ps[0].0 == k;
    }
    IndexIs(rest, k, |rest|);
  }

  lemma RemovedLater(first: Pair, rest: seq<Pair>, k: Cell)
    requires first.0 != k
    ensures Removed([first] + rest, k) == [first] + Removed(rest, k)
  {
    var ps, i := [first] + rest, IndexOf(rest, k);
    forall j | 0 <= j < i + 1 ensures ps[j].0 != k {
      if j > 0 { assert ps[j] == rest[j - 1]; }
    }
    IndexIs(ps, k, i + 1);
    if i < |rest| {
      assert ps[..i + 1] == [first] + rest[..i] && ps[i + 2..] == rest[i + 1..];
    }
  }

  /** Removing forgets one key only. */
  lemma RemovedFinds(ps: seq<Pair>, k: Cell, x: Cell)
    requires Unique(ps)
    ensures Unique(Removed(ps, k))
    ensures Lookup(Removed(ps, k), x) == if x == k then None else Lookup(ps, x)
  {
    var qs, i, n := Removed(ps, k), IndexOf(ps, k), IndexOf(ps, x);
    if i < |ps| {
      forall j | 0 <= j < |qs| ensures qs[j] == ps[if j < i then j else j + 1] {
      }
      if x == k || n == |ps| {
        forall j | 0 <= j < |qs| ensures qs[j].0 != x {
        }
        IndexIs(qs, x, |qs|);
      } else {
        IndexIs(qs, x, if n < i then n else n - 1);
      }
    }
  }

  // ---- The representation ----

  function Flat(ps: seq<Pair>): (s: seq<Cell>)
    ensures |s| == 2 * |ps|
    ensures forall i :: 0 <= i < |ps| ==> s[2 * i] == ps[i].0 && s[2 * i + 1] == ps[i].1
  {
    seq(2 * |ps|, j requires 0 <= j < 2 * |ps| => if j % 2 == 0 then ps[j / 2].0 else ps[j / 2].1)
  }

  ghost predicate DataAt(h: Heap, d: int, cap: nat, ps: seq<Pair>)
    requires ValidHeap(h)
  {
    && Live(h, d) && 0 <= Off(d) && Off(d) + 2 * cap <= h[Region(d)].head && |ps| <= cap
    && h[Region(d)].mem[Off(d)..Off(d) + 2 * |ps|] == Flat(ps)
  }

  ghost predicate Apart(p: int, d: int, cap: nat) {
    Region(p) != Region(d) || Off(p) + 4 <= Off(d) || Off(d) + 2 * cap <= Off(p)
  }

  ghost predicate HeaderAt(h: Heap, p: int, cap: nat, count: nat, d: int)
    requires ValidHeap(h)
  {
    && Live(h, p) && 0 <= Off(p) && Off(p) + 4 <= h[Region(p)].head
    && At(h, p, 0).val == TYPE_MAP && At(h, p, 1).val == cap && At(h, p, 2).val == count && At(h, p, 3).val == d
  }

  /** The map at `p` has capacity `cap`, its block at `d`, and the pairs `ps`. */
  ghost predicate MapAt(h: Heap, p: int, cap: nat, d: int, ps: seq<Pair>)
    requires ValidHeap(h)
  {
    && 0 < cap && Unique(ps)
    && HeaderAt(h, p, cap, |ps|, d) && DataAt(h, d, cap, ps) && Apart(p, d, cap)
  }

  /** Outside the map's header and block, everything that was allocated is still there. */
  ghost predicate MapFrame(h: Heap, h': Heap, p: int, d: int, cap: nat)
    requires ValidHeap(h) && ValidHeap(h')
  {
    forall i :: 0 <= i < MAX_ARENAS && h[i].active ==>
      && h'[i].active && h'[i].gen == h[i].gen && h[i].head <= h'[i].head
      && forall j :: (0 <= j < h[i].head && !(i == Region(p) && Off(p) <= j < Off(p) + 4)
                      && !(i == Region(d) && Off(d) <= j < Off(d) + 2 * cap)) ==> h'[i].mem[j] == h[i].mem[j]
  }

  /** After growth, scopes whose boundary is above the map's header rewind no further than the head. */
  function Lifted(sc: Scope, cur: int, off: int, head: int): Scope {
    if sc.arena == cur && sc.head > off then sc.(head := head) else sc
  }

  function LiftAll(scopes: seq<Scope>, cur: int, off: int, head: int): (r: seq<Scope>)
    ensures |r| == |scopes| && forall k :: 0 <= k < |r| ==> r[k] == Lifted(scopes[k], cur, off, head)
  {
    seq(|scopes|, k requires 0 <= k < |scopes| => Lifted(scopes[k], cur, off, head))
  }

  // ---- Small steps on the representation ----

  lemma WriteElsewhere(h: Heap, p: int, cap: nat, count: nat, d: int, a: int, at: int, c: Cell)
    requires ValidHeap(h) && HeaderAt(h, p, cap, count, d) && 0 <= a < MAX_ARENAS && h[a].active && 0 <= at < h[a].head
    requires a != Region(p) || at < Off(p) || Off(p) + 4 <= at
    ensures at < |h[a].mem| && ValidHeap(Write(h, a, at, c)) && HeaderAt(Write(h, a, at, c), p, cap, count, d)
  {
  }

  /** A pair is overwritten or appended in place. */
  lemma PairWritten(h: Heap, d: int, cap: nat, ps: seq<Pair>, i: nat, k: Cell, v: Cell)
    requires ValidHeap(h) && DataAt(h, d, cap, ps) && i <= |ps| && i < cap
    ensures var a, at := Region(d), Off(d) + 2 * i;
      && at + 1 < |h[a].mem|
      && var h2 := Write(Write(h, a, at, k), a, at + 1, v);
        ValidHeap(h2) && DataAt(h2, d, cap, if i < |ps| then ps[i := (k, v)] else ps + [(k, v)])
  {
    hide Off, Region, Gen, Flat;
    var a, o := Region(d), Off(d);
    var m := h[a].mem;
    assert Write(Write(h, a, o + 2 * i, k), a, o + 2 * i + 1, v)[a].mem == m[o + 2 * i := k][o + 2 * i + 1 := v];
    if i < |ps| {
      PairOver(m, o, ps, i, k, v);
    } else {
      PairAdded(m, o, ps, k, v);
    }
  }

  lemma PairOver(m: seq<Cell>, o: nat, ps: seq<Pair>, i: nat, k: Cell, v: Cell)
    requires o + 2 * |ps| <= |m| && m[o..o + 2 * |ps|] == Flat(ps) && i < |ps|
    ensures m[o + 2 * i := k][o + 2 * i + 1 := v][o..o + 2 * |ps|] == Flat(ps[i := (k, v)])
  {
    FlatPut(ps, i, k, v);
    hide Flat;
    PartPut(m, o, 2 * |ps|, 2 * i, k, v);
  }

  lemma PairAdded(m: seq<Cell>, o: nat, ps: seq<Pair>, k: Cell, v: Cell)
    requires o + 2 * |ps| + 2 <= |m| && m[o..o + 2 * |ps|] == Flat(ps)
    ensures m[o + 2 * |ps| := k][o + 2 * |ps| + 1 := v][o..o + 2 * |ps| + 2] == Flat(ps + [(k, v)])
  {
    FlatPut(ps, |ps|, k, v);
    hide Flat;
    PartPut(m, o, 2 * |ps|, 2 * |ps|, k, v);
  }

  lemma FlatPut(ps: seq<Pair>, i: nat, k: Cell, v: Cell)
    requires i <= |ps|
    ensures i < |ps| ==> Flat(ps[i := (k, v)]) == Flat(ps)[2 * i := k][2 * i + 1 := v]
    ensures i == |ps| ==> Flat(ps + [(k, v)]) == Flat(ps) + [k, v]
  {
  }

  lemma PartPut(m: seq<Cell>, o: nat, n: nat, i: nat, k: Cell, v: Cell)
    requires o + n <= |m| && o + i + 2 <= |m| && (i + 2 <= n || i == n)
    ensures var m2 := m[o + i := k][o + i + 1 := v];
      && (i + 2 <= n ==> m2[o..o + n] == m[o..o + n][i := k][i + 1 := v])
      && (i == n ==> m2[o..o + n + 2] == m[o..o + n] + [k, v])
  {
  }

  lemma FlatCell(ps: seq<Pair>, j: nat)
    requires j < 2 * |ps|
    ensures Flat(ps)[j] == if j % 2 == 0 then ps[j / 2].0 else ps[j / 2].1
  {
  }

  lemma KeyCell(h: Heap, d: int, cap: nat, ps: seq<Pair>, i: nat)
    requires ValidHeap(h) && DataAt(h, d, cap, ps) && i < |ps|
    ensures h[Region(d)].mem[Off(d) + 2 * i] == ps[i].0 && h[Region(d)].mem[Off(d) + 2 * i + 1] == ps[i].1
  {
    var m := h[Region(d)].mem;
    assert m[Off(d)..Off(d) + 2 * |ps|][2 * i] == Flat(ps)[2 * i];
    assert m[Off(d)..Off(d) + 2 * |ps|][2 * i + 1] == Flat(ps)[2 * i + 1];
  }

  /** A header write leaves the block alone. */
  lemma DataElsewhere(h: Heap, d: int, cap: nat, ps: seq<Pair>, a: int, at: int, c: Cell)
    requires ValidHeap(h) && DataAt(h, d, cap, ps) && 0 <= a < MAX_ARENAS && h[a].active && 0 <= at < h[a].head
    requires a != Region(d) || at < Off(d) || Off(d) + 2 * cap <= at
    ensures at < |h[a].mem| && ValidHeap(Write(h, a, at, c)) && DataAt(Write(h, a, at, c), d, cap, ps)
  {
    var h' := Write(h, a, at, c);
    assert h'[Region(d)].mem[Off(d)..Off(d) + 2 * |ps|] == h[Region(d)].mem[Off(d)..Off(d) + 2 * |ps|];
  }

  /** A block of `n` cells was taken at the head of region `a` and the pairs copied into it. */
  lemma BlockGrown(h: Heap, a: int, d: int, cap: nat, ps: seq<Pair>, n: nat)
    requires ValidHeap(h) && 0 <= a < MAX_ARENAS && h[a].active && DataAt(h, d, cap, ps)
    requires 2 * cap <= n && h[a].head + n < MAX_HEAP
    ensures var h1 := WithHead(h, a, h[a].head + n);
      && Off(d) + 2 * |ps| <= |h1[Region(d)].mem| && h[a].head + 2 * |ps| <= |h1[a].mem|
      && var h2 := Overwrite(h1, a, h[a].head, PartOf(h[Region(d)].mem, Off(d), 2 * |ps|));
        ValidHeap(h2) && forall cap': nat :: 2 * cap' == n ==> DataAt(h2, Pack(h[a].gen, a, h[a].head), cap', ps)
  {
    hide Off, Region, Gen, Pack, Flat;
    PackRoundTrip(h[a].gen, a, h[a].head);
    var m, k, f := h[a].mem, h[a].head, Flat(ps);
    assert PartOf(h[Region(d)].mem, Off(d), 2 * |ps|) == f;
    assert (m[..k] + f + m[k + |f|..])[k..k + |f|] == f;
  }

  // ---- The operations ----

  /** The search loop of AGET, ASET and remove. */
  method FindKey(vm: Vm, d: int, count: nat, k: Cell, ghost cap: nat, ghost ps: seq<Pair>) returns (i: nat)
    requires vm.Valid() && DataAt(vm.Heap(), d, cap, ps) && count == |ps|
    ensures i == IndexOf(ps, k)
  {
    hide Off, Region, Gen, Flat;
    i := 0;
    var a, o := Region(d), Off(d);
    assert vm.Heap()[a].mem == vm.Cells(a);
    while i < count
      invariant 0 <= i <= count && forall j :: 0 <= j < i ==> ps[j].0 != k
    {
      KeyCell(vm.Heap(), d, cap, ps, i);
      if vm.memory[a, o + 2 * i] == k.val && vm.types[a, o + 2 * i] == k.tag {
        IndexIs(ps, k, i);
        return;
      }
      i := i + 1;
    }
    IndexIs(ps, k, i);
  }

  /** OP_AGET on a map: the value, or the empty string, whose id is given. */
  method MapGet(vm: Vm, p: int, k: Cell, empty: int, ghost cap: nat, ghost d: int, ghost ps: seq<Pair>) returns (v: Cell)
    requires vm.Valid() && MapAt(vm.Heap(), p, cap, d, ps)
    ensures v == match Lookup(ps, k) case Some(c) => c case None => Cell(empty, T_STR)
  {
    hide Off, Region, Gen, Flat;
    var a, o := Region(p), Off(p);
    assert vm.Heap()[a].mem == vm.Cells(a);
    var count, block := vm.memory[a, o + 2], vm.memory[a, o + 3];
    var i := FindKey(vm, block, count, k, cap, ps);
    if i < count {
      KeyCell(vm.Heap(), block, cap, ps, i);
      assert vm.Heap()[Region(block)].mem == vm.Cells(Region(block));
      return Cell(vm.memory[Region(block), Off(block) + 2 * i + 1], vm.types[Region(block), Off(block) + 2 * i + 1]);
    }
    return Cell(empty, T_STR);
  }

  /** OP_IT_KEY and OP_IT_VAL on a map: the pairs in insertion order. */
  method MapEntry(vm: Vm, p: int, idx: nat, ghost cap: nat, ghost d: int, ghost ps: seq<Pair>) returns (k: Cell, v: Cell)
    requires vm.Valid() && MapAt(vm.Heap(), p, cap, d, ps) && idx < |ps|
    ensures (k, v) == ps[idx]
  {
    hide Off, Region, Gen, Flat;
    var a, o := Region(p), Off(p);
    assert vm.Heap()[a].mem == vm.Cells(a);
    var block := vm.memory[a, o + 3];
    var b, at := Region(block), Off(block) + 2 * idx;
    KeyCell(vm.Heap(), block, cap, ps, idx);
    assert vm.Heap()[b].mem == vm.Cells(b);
    return Cell(vm.memory[b, at], vm.types[b, at]), Cell(vm.memory[b, at + 1], vm.types[b, at + 1]);
  }

  /** Everything that was allocated in `h` is still there. */
  ghost predicate Undisturbed(h: Heap, h': Heap)
    requires ValidHeap(h) && ValidHeap(h')
  {
    forall i :: 0 <= i < MAX_ARENAS && h[i].active ==>
      && h'[i].active && h'[i].gen == h[i].gen && h[i].head <= h'[i].head
      && forall j :: 0 <= j < h[i].head ==> h'[i].mem[j] == h[i].mem[j]
  }

  lemma UndisturbedWrite(h: Heap, h': Heap, a: int, at: int, c: Cell)
    requires ValidHeap(h) && ValidHeap(h') && Undisturbed(h, h') && 0 <= a < MAX_ARENAS && 0 <= at < |h'[a].mem|
    requires h[a].active ==> h[a].head <= at
    ensures ValidHeap(Write(h', a, at, c)) && Undisturbed(h, Write(h', a, at, c))
  {
  }

  /** A block of `size` cells was taken in region `a`, opened if need be. */
  ghost predicate Took(h: Heap, h': Heap, a: int, size: int)
    requires ValidHeap(h) && ValidHeap(h') && 0 <= a < MAX_ARENAS
  {
    && h'[a].head == (if h[a].active then h[a].head else 0) + size
    && forall i :: 0 <= i < MAX_ARENAS && i != a ==> h'[i].head == h[i].head && h'[i].active == h[i].active
  }

  lemma TargetUndisturbed(s: State, size: nat)
    requires ValidState(s) && TargetOf(s)[s.cur].head + size < MAX_HEAP
    ensures var h := TargetOf(s);
      var h' := WithHead(h, s.cur, h[s.cur].head + size);
      ValidHeap(h') && Undisturbed(s.heap, h') && Took(s.heap, h', s.cur, size)
  {
  }

  /** OP_MAP. */
  method NewMap(vm: Vm) returns (r: Status, p: int, ghost d: int)
    requires vm.Valid()
    modifies vm.arenas, vm.memory, vm.types
    ensures vm.Valid() && (r == Running || r == Full)
    ensures r == Running <==> (if old(vm.arenas[vm.currentArena].active) then old(vm.arenas[vm.currentArena].head) else 0) + 4 + 2 * INITIAL_CAP < MAX_HEAP
    ensures r == Running ==>
      && MapAt(vm.Heap(), p, INITIAL_CAP, d, []) && Undisturbed(old(vm.Heap()), vm.Heap())
      && Took(old(vm.Heap()), vm.Heap(), vm.currentArena, 4 + 2 * INITIAL_CAP)
      && Region(p) == Region(d) == vm.currentArena && Off(d) == Off(p) + 4 && Off(d) + 2 * INITIAL_CAP == vm.arenas[vm.currentArena].head
      && vm.arenas[vm.currentArena].active
  {
    hide Off, Region, Gen, Pack, Flat, Vm.Heap, Opened, MapAt, Undisturbed, Took, TargetOf;
    ghost var s := vm.View();
    d := 0;
    r, p := vm.HeapAlloc(4);
    if r != Running {
      return;
    }
    TargetUndisturbed(s, 4);
    ghost var s1 := vm.View();
    var data;
    r, data := vm.HeapAlloc(2 * INITIAL_CAP);
    if r != Running {
      return;
    }
    d := data;
    var a := vm.currentArena;
    TargetUndisturbed(s1, 2 * INITIAL_CAP);
    TookTwice(s.heap, s1.heap, vm.Heap(), a, 4, 2 * INITIAL_CAP);
    ghost var h2 := vm.Heap();
    InitHeader(vm, a, vm.arenas[a].head - 4 - 2 * INITIAL_CAP, p, data, s.heap);
    HeadOnly(h2, vm.Heap(), s.heap, a, 4 + 2 * INITIAL_CAP);
  }

  lemma TookTwice(h: Heap, h1: Heap, h2: Heap, a: int, m: nat, n: nat)
    requires ValidHeap(h) && ValidHeap(h1) && ValidHeap(h2) && 0 <= a < MAX_ARENAS && h1[a].active
    requires Undisturbed(h, h1) && Undisturbed(h1, h2) && Took(h, h1, a, m) && Took(h1, h2, a, n)
    ensures Undisturbed(h, h2) && Took(h, h2, a, m + n) && (h[a].active ==> h[a].head == h2[a].head - m - n)
  {
  }

  lemma HeadOnly(h: Heap, h': Heap, h0: Heap, a: int, n: int)
    requires ValidHeap(h) && ValidHeap(h') && ValidHeap(h0) && 0 <= a < MAX_ARENAS && Took(h0, h, a, n)
    requires forall i :: 0 <= i < MAX_ARENAS ==> h'[i].head == h[i].head && h'[i].active == h[i].active
    ensures Took(h0, h', a, n)
  {
  }

  method InitHeader(vm: Vm, a: int, o: int, p: int, data: int, ghost h0: Heap)
    requires vm.Valid() && a == vm.currentArena && vm.arenas[a].active && 0 <= o && o + 4 + 2 * INITIAL_CAP == vm.arenas[a].head
    requires p == Pack(vm.arenas[a].generation, a, o) && data == Pack(vm.arenas[a].generation, a, o + 4)
    requires ValidHeap(h0) && Undisturbed(h0, vm.Heap()) && (h0[a].active ==> h0[a].head <= o)
    modifies vm.memory, vm.types
    ensures vm.Valid() && MapAt(vm.Heap(), p, INITIAL_CAP, data, []) && Undisturbed(h0, vm.Heap())
    ensures Region(p) == Region(data) == a && Off(p) == o && Off(data) == o + 4
  {
    hide Off, Region, Gen, Pack, Flat, Vm.Heap, Undisturbed, Write, MapAt;
    ghost var h := vm.Heap();
    var t0, t1, t2, t3 := vm.types[a, o], vm.types[a, o + 1], vm.types[a, o + 2], vm.types[a, o + 3];
    HeaderUndisturbed(h0, h, a, o, t0, t1, t2, t3, data);
    HeaderMade(h, a, o, t0, t1, t2, t3, p, data);
    vm.SetCell(a, o, TYPE_MAP, t0);
    vm.SetCell(a, o + 1, INITIAL_CAP, t1);
    vm.SetCell(a, o + 2, 0, t2);
    vm.SetCell(a, o + 3, data, t3);
  }

  ghost function WithHeader(h: Heap, a: int, o: int, t0: int, t1: int, t2: int, t3: int, data: int): Heap
    requires 0 <= a < |h| && 0 <= o && o + 4 <= |h[a].mem|
  {
    Write(Write(Write(Write(h, a, o, Cell(TYPE_MAP, t0)), a, o + 1, Cell(INITIAL_CAP, t1)), a, o + 2, Cell(0, t2)), a, o + 3, Cell(data, t3))
  }

  lemma HeaderMade(h: Heap, a: int, o: int, t0: int, t1: int, t2: int, t3: int, p: int, data: int)
    requires ValidHeap(h) && 0 <= a < MAX_ARENAS && h[a].active && 0 <= o && o + 4 + 2 * INITIAL_CAP == h[a].head
    requires p == Pack(h[a].gen, a, o) && data == Pack(h[a].gen, a, o + 4)
    ensures var h' := WithHeader(h, a, o, t0, t1, t2, t3, data); ValidHeap(h') && MapAt(h', p, INITIAL_CAP, data, [])
    ensures Region(p) == Region(data) == a && Off(p) == o && Off(data) == o + 4
  {
    hide Off, Region, Gen, Pack, Flat;
    PackRoundTrip(h[a].gen, a, o);
    PackRoundTrip(h[a].gen, a, o + 4);
    assert WithHeader(h, a, o, t0, t1, t2, t3, data)[a].mem[o + 4..o + 4] == [] == Flat([]);
  }

  lemma HeaderUndisturbed(h0: Heap, h: Heap, a: int, o: int, t0: int, t1: int, t2: int, t3: int, data: int)
    requires ValidHeap(h0) && ValidHeap(h) && Undisturbed(h0, h) && 0 <= a < MAX_ARENAS && 0 <= o && o + 4 <= |h[a].mem|
    requires h0[a].active ==> h0[a].head <= o
    ensures var h' := WithHeader(h, a, o, t0, t1, t2, t3, data); ValidHeap(h') && Undisturbed(h0, h')
  {
    hide Undisturbed, Write;
    WriteStays(h, a, o, Cell(TYPE_MAP, t0));
    UndisturbedWrite(h0, h, a, o, Cell(TYPE_MAP, t0));
    var h1 := Write(h, a, o, Cell(TYPE_MAP, t0));
    WriteStays(h1, a, o + 1, Cell(INITIAL_CAP, t1));
    UndisturbedWrite(h0, h1, a, o + 1, Cell(INITIAL_CAP, t1));
    var h2 := Write(h1, a, o + 1, Cell(INITIAL_CAP, t1));
    WriteStays(h2, a, o + 2, Cell(0, t2));
    UndisturbedWrite(h0, h2, a, o + 2, Cell(0, t2));
    var h3 := Write(h2, a, o + 2, Cell(0, t2));
    UndisturbedWrite(h0, h3, a, o + 3, Cell(data, t3));
  }

  lemma WriteStays(h: Heap, a: int, at: int, c: Cell)
    requires ValidHeap(h) && 0 <= a < MAX_ARENAS && 0 <= at < |h[a].mem|
    ensures ValidHeap(Write(h, a, at, c)) && |Write(h, a, at, c)[a].mem| == |h[a].mem|
  {
  }

  /** The block at `d` holds nothing that was allocated in `h`, unless it is the block `e`. */
  ghost predicate NewOr(h: Heap, d: int, e: int)
    requires ValidHeap(h)
  {
    d == e || !h[Region(d)].active || h[Region(d)].head <= Off(d)
  }

  lemma FrameThen(h: Heap, h1: Heap, h2: Heap, p: int, d: int, cap: nat, d': int, cap': nat)
    requires ValidHeap(h) && ValidHeap(h1) && ValidHeap(h2) && MapFrame(h, h1, p, d, cap) && MapFrame(h1, h2, p, d', cap')
    requires NewOr(h, d', d) && (d' == d ==> cap' == cap)
    ensures MapFrame(h, h2, p, d, cap)
  {
    hide Off, Region;
  }

  lemma FrameSame(h: Heap, p: int, d: int, cap: nat)
    requires ValidHeap(h)
    ensures MapFrame(h, h, p, d, cap)
  {
  }

  lemma FrameWrite(h: Heap, h1: Heap, p: int, d: int, cap: nat, a: int, at: int, c: Cell)
    requires ValidHeap(h) && ValidHeap(h1) && MapFrame(h, h1, p, d, cap) && 0 <= a < MAX_ARENAS && 0 <= at < |h1[a].mem|
    requires (a == Region(p) && Off(p) <= at < Off(p) + 4) || (a == Region(d) && Off(d) <= at < Off(d) + 2 * cap)
    ensures ValidHeap(Write(h1, a, at, c)) && MapFrame(h, Write(h1, a, at, c), p, d, cap)
  {
    hide Off, Region;
  }

  lemma SameWrite(h: Heap, a: int, at: int, c: Cell)
    requires 0 <= a < |h| && 0 <= at < |h[a].mem| && h[a].mem[at] == c
    ensures Write(h, a, at, c) == h
  {
    assert h[a].mem[at := c] == h[a].mem;
  }

  /** Writes the value of pair `i`, and for a new pair also its key and the count. */
  method SetPair(vm: Vm, p: int, i: nat, k: Cell, v: Cell, ghost cap: nat, ghost d: int, ghost ps: seq<Pair>)
    requires vm.Valid() && MapAt(vm.Heap(), p, cap, d, ps) && i == IndexOf(ps, k) && i < cap
    modifies vm.memory, vm.types
    ensures vm.Valid() && MapAt(vm.Heap(), p, cap, d, Put(ps, k, v)) && MapFrame(old(vm.Heap()), vm.Heap(), p, d, cap)
  {
    hide Off, Region, Gen, Pack, Flat, DataAt, Apart, MapFrame, Vm.Heap, Put, Unique;
    ghost var h := vm.Heap();
    var a, o := Region(p), Off(p);
    assert h[a].mem == vm.Cells(a);
    var count, block := vm.memory[a, o + 2], vm.memory[a, o + 3];
    var b, at := Region(block), Off(block) + 2 * i;
    assert count == |ps| && block == d;
    PairPut(h, p, cap, d, ps, i, k, v);
    hide HeaderAt, Write;
    if i >= count {
      vm.SetCell(b, at, k.val, k.tag);
    }
    vm.SetCell(b, at + 1, v.val, v.tag);
    if i == count {
      AddCount(vm, p, count, h, cap, d, Put(ps, k, v));
    }
  }

  /** The heap after the two writes of SetPair: the block holds the new pairs, the header the old count. */
  lemma PairPut(h: Heap, p: int, cap: nat, d: int, ps: seq<Pair>, i: nat, k: Cell, v: Cell)
    requires ValidHeap(h) && MapAt(h, p, cap, d, ps) && i == IndexOf(ps, k) && i < cap
    ensures h[Region(d)].active && 0 <= Off(d) + 2 * i && Off(d) + 2 * i + 1 < |h[Region(d)].mem|
    ensures var b, at := Region(d), Off(d) + 2 * i;
      var h1 := Write(h, b, at, k);
      var h2 := Write(h1, b, at + 1, v);
      && (i < |ps| ==> h1 == h) && ValidHeap(h1) && h1[b].active && ValidHeap(h2)
      && HeaderAt(h2, p, cap, |ps|, d) && DataAt(h2, d, cap, Put(ps, k, v)) && MapFrame(h, h2, p, d, cap)
    ensures i <= |ps| && Unique(Put(ps, k, v)) && |Put(ps, k, v)| == if i < |ps| then |ps| else |ps| + 1
  {
    hide Off, Region, Gen, Pack, Flat, DataAt, Apart, MapFrame, HeaderAt, Put, Unique;
    var b, at := Region(d), Off(d) + 2 * i;
    DataBounds(h, d, cap, ps);
    PairApart(p, d, cap, i);
    PutFinds(ps, k, v, k);
    PutCases(ps, k, v);
    PairWritten(h, d, cap, ps, i, k, v);
    WriteElsewhere(h, p, cap, |ps|, d, b, at, k);
    var h1 := Write(h, b, at, k);
    WriteElsewhere(h1, p, cap, |ps|, d, b, at + 1, v);
    FrameSame(h, p, d, cap);
    FrameWrite(h, h, p, d, cap, b, at, k);
    FrameWrite(h, h1, p, d, cap, b, at + 1, v);
    if i < |ps| {
      KeyCell(h, d, cap, ps, i);
      SameWrite(h, b, at, k);
    }
  }

  /** One pair more. */
  method AddCount(vm: Vm, p: int, count: nat, ghost h: Heap, ghost cap: nat, ghost d: int, ghost ps: seq<Pair>)
    requires vm.Valid() && ValidHeap(h) && MapFrame(h, vm.Heap(), p, d, cap) && HeaderAt(vm.Heap(), p, cap, count, d)
    requires DataAt(vm.Heap(), d, cap, ps) && Apart(p, d, cap) && |ps| == count + 1 && Unique(ps) && 0 < cap
    modifies vm.memory, vm.types
    ensures vm.Valid() && MapAt(vm.Heap(), p, cap, d, ps) && MapFrame(h, vm.Heap(), p, d, cap)
  {
    hide Off, Region, Gen, Pack, Flat, DataAt, Apart, MapFrame, Vm.Heap, Unique;
    ghost var h2 := vm.Heap();
    var a, o := Region(p), Off(p);
    assert h2[a].mem == vm.Cells(a);
    var ty := vm.types[a, o + 2];
    FrameWrite(h, h2, p, d, cap, a, o + 2, Cell(count + 1, ty));
    CountClear(h2, p, cap, d, ps, a, o + 2, Cell(count + 1, ty));
    CountWritten(h2, p, cap, count, d, count + 1, ty);
    vm.SetCell(a, o + 2, count + 1, ty);
  }

  lemma PairApart(p: int, d: int, cap: nat, i: nat)
    requires Apart(p, d, cap) && i < cap
    ensures Region(p) != Region(d) || Off(d) + 2 * i + 1 < Off(p) || Off(p) + 4 <= Off(d) + 2 * i
  {
    hide Off, Region;
  }

  lemma PutCases(ps: seq<Pair>, k: Cell, v: Cell)
    ensures var i := IndexOf(ps, k);
      Put(ps, k, v) == if i < |ps| then ps[i := (k, v)] else ps + [(k, v)]
  {
  }

  lemma DataBounds(h: Heap, d: int, cap: nat, ps: seq<Pair>)
    requires ValidHeap(h) && DataAt(h, d, cap, ps)
    ensures h[Region(d)].active && 0 <= Off(d) && Off(d) + 2 * cap <= h[Region(d)].head && |ps| <= cap
  {
  }

  lemma CountWritten(h: Heap, p: int, cap: nat, count: nat, d: int, count': nat, ty: int)
    requires ValidHeap(h) && HeaderAt(h, p, cap, count, d)
    ensures var a, o := Region(p), Off(p);
      o + 4 <= |h[a].mem| && HeaderAt(Write(h, a, o + 2, Cell(count', ty)), p, cap, count', d)
  {
  }

  /** A map's capacity, data block and pairs. */
  datatype Layout = Layout(cap: nat, data: int, pairs: seq<Pair>)

  /** OP_ASET on the map, as MapSet performs it: the pairs change, and if the block was full a new one
      is taken in the current region and the boundaries above the header lifted over it. */
  ghost predicate Sets(s: State, t: State, p: int, k: Cell, v: Cell, x: Layout, y: Layout) {
    && ValidState(s) && ValidState(t) && t == s.(ip := t.ip, stack := t.stack, heap := t.heap, scopes := t.scopes)
    && MapAt(t.heap, p, y.cap, y.data, Put(x.pairs, k, v)) && y.pairs == Put(x.pairs, k, v)
    && MapFrame(s.heap, t.heap, p, x.data, x.cap)
    && if IndexOf(x.pairs, k) == |x.pairs| == x.cap then
         && y.cap == 2 * x.cap && Region(y.data) == s.cur && Off(y.data) + 2 * y.cap == t.heap[s.cur].head
         && t.scopes == LiftAll(s.scopes, s.cur, Off(p), t.heap[s.cur].head)
       else y.cap == x.cap && y.data == x.data && t.scopes == s.scopes
  }

  /** OP_ASET on a map. */
  method MapSet(vm: Vm, p: int, k: Cell, v: Cell, ghost cap: nat, ghost d: int, ghost ps: seq<Pair>)
    returns (r: Status, ghost cap': nat, ghost d': int)
    requires vm.Valid() && MapAt(vm.Heap(), p, cap, d, ps)
    modifies vm.arenas, vm.memory, vm.types, vm.scopeStack
    ensures vm.Valid() && (r == Running || r == Full)
    ensures var grown := IndexOf(ps, k) == |ps| == cap;
      && (r == Full <==> grown && (if old(vm.arenas[vm.currentArena].active) then old(vm.arenas[vm.currentArena].head) else 0) + 4 * cap >= MAX_HEAP)
      && (r == Running ==>
            && MapAt(vm.Heap(), p, cap', d', Put(ps, k, v)) && MapFrame(old(vm.Heap()), vm.Heap(), p, d, cap)
            && cap' == (if grown then 2 * cap else cap) && (!grown ==> d' == d)
            && (grown ==> Region(d') == vm.currentArena && Off(d') + 4 * cap == vm.arenas[vm.currentArena].head)
            && vm.arenas[vm.currentArena].head
                == (if old(vm.arenas[vm.currentArena].active) || !grown then old(vm.arenas[vm.currentArena].head) else 0)
                   + (if grown then 4 * cap else 0)
            && (forall i :: 0 <= i < MAX_ARENAS && i != vm.currentArena ==> vm.arenas[i].head == old(vm.arenas[i].head))
            && Sets(old(vm.View()), vm.View(), p, k, v, Layout(cap, d, ps), Layout(cap', d', Put(ps, k, v)))
            && vm.Scopes() == if grown then LiftAll(old(vm.Scopes()), vm.currentArena, Off(p), vm.arenas[vm.currentArena].head)
                              else old(vm.Scopes()))
  {
    hide Off, Region, Gen, Pack, Flat, DataAt, Apart, MapFrame, NewOr, Put, LiftAll, Unique;
    cap', d', r := cap, d, Running;
    var a, o := Region(p), Off(p);
    assert vm.Heap()[a].mem == vm.Cells(a);
    DataBounds(vm.Heap(), d, cap, ps);
    var capacity, count, block := vm.memory[a, o + 1], vm.memory[a, o + 2], vm.memory[a, o + 3];
    var i := FindKey(vm, block, count, k, cap, ps);
    if i == count && count >= capacity {
      r, block := Grow(vm, p, cap, d, ps);
      if r != Running {
        return;
      }
      cap', d' := 2 * cap, block;
      ghost var h := vm.Heap();
      SetPair(vm, p, i, k, v, cap', d', ps);
      FrameThen(old(vm.Heap()), h, vm.Heap(), p, d, cap, d', cap');
    } else {
      SetPair(vm, p, i, k, v, cap, d, ps);
    }
  }

  /** Doubling: a new block, the pairs copied, the header repointed, the boundaries lifted. */
  method Grow(vm: Vm, p: int, ghost cap: nat, ghost d: int, ghost ps: seq<Pair>) returns (r: Status, block: int)
    requires vm.Valid() && MapAt(vm.Heap(), p, cap, d, ps) && |ps| == cap
    modifies vm.arenas, vm.memory, vm.types, vm.scopeStack
    ensures vm.Valid() && (r == Running || r == Full)
    ensures r == Running <==> (if old(vm.arenas[vm.currentArena].active) then old(vm.arenas[vm.currentArena].head) else 0) + 4 * cap < MAX_HEAP
    ensures r == Running ==>
      && MapAt(vm.Heap(), p, 2 * cap, block, ps) && MapFrame(old(vm.Heap()), vm.Heap(), p, d, cap)
      && NewOr(old(vm.Heap()), block, d) && block != d
      && Region(block) == vm.currentArena && Off(block) + 4 * cap == vm.arenas[vm.currentArena].head
      && vm.arenas[vm.currentArena].head == (if old(vm.arenas[vm.currentArena].active) then old(vm.arenas[vm.currentArena].head) else 0) + 4 * cap
      && (forall i :: 0 <= i < MAX_ARENAS && i != vm.currentArena ==> vm.arenas[i].head == old(vm.arenas[i].head))
      && vm.Scopes() == LiftAll(old(vm.Scopes()), vm.currentArena, Off(p), vm.arenas[vm.currentArena].head)
  {
    hide Off, Region, Gen, Pack, Flat, DataAt, MapFrame, NewOr, Opened, Unique, Vm.Heap;
    ghost var h0 := vm.Heap();
    var a, o, cur := Region(p), Off(p), vm.currentArena;
    assert h0[a].mem == vm.Cells(a);
    var capacity, count, data := vm.memory[a, o + 1], vm.memory[a, o + 2], vm.memory[a, o + 3];
    r, block := MoveBlock(vm, p, data, capacity, cap, d, ps);
    if r != Running {
      return;
    }
    Repoint(vm, p, block, h0, cap, d, ps);
    LiftBoundaries(vm, o);
  }

  method MoveBlock(vm: Vm, p: int, data: int, capacity: nat, ghost cap: nat, ghost d: int, ghost ps: seq<Pair>) returns (r: Status, block: int)
    requires vm.Valid() && MapAt(vm.Heap(), p, cap, d, ps) && |ps| == cap == capacity && data == d
    modifies vm.arenas, vm.memory, vm.types
    ensures vm.Valid() && (r == Running || r == Full)
    ensures r == Running <==> (if old(vm.arenas[vm.currentArena].active) then old(vm.arenas[vm.currentArena].head) else 0) + 4 * cap < MAX_HEAP
    ensures r == Running ==>
      && HeaderAt(vm.Heap(), p, cap, cap, d) && DataAt(vm.Heap(), block, 2 * cap, ps) && Apart(p, block, 2 * cap)
      && MapFrame(old(vm.Heap()), vm.Heap(), p, d, cap) && NewOr(old(vm.Heap()), block, d) && block != d
      && Region(block) == vm.currentArena && Off(block) + 4 * cap == vm.arenas[vm.currentArena].head
      && vm.arenas[vm.currentArena].head == (if old(vm.arenas[vm.currentArena].active) then old(vm.arenas[vm.currentArena].head) else 0) + 4 * cap
      && (forall i :: 0 <= i < MAX_ARENAS && i != vm.currentArena ==> vm.arenas[i].head == old(vm.arenas[i].head))
  {
    hide Off, Region, Gen, Pack, Flat, DataAt, HeaderAt, Apart, MapFrame, NewOr, Opened, Unique, Vm.Heap;
    ghost var h0 := vm.Heap();
    var cur := vm.currentArena;
    ghost var h := vm.Target();
    TargetKeeps(h0, h, p, cap, d, ps);
    r, block := vm.HeapAlloc(2 * (2 * capacity));
    if r != Running {
      return;
    }
    PackRoundTrip(h[cur].gen, cur, h[cur].head);
    TargetHeads(old(vm.View()));
    var at := vm.arenas[cur].head - 4 * capacity;
    DataBounds(h, d, cap, ps);
    BlockGrown(h, cur, d, cap, ps, 4 * cap);
    BlockFrame(h, cur, p, d, cap, ps, 4 * cap);
    assert vm.Cells(Region(d)) == h[Region(d)].mem;
    vm.CopyElements(Region(data), Off(data), cur, at, 2 * capacity);
    NewOrSame(h0, d);
    NewOrTarget(h0, h, block, d);
    FrameThen(h0, h, vm.Heap(), p, d, cap, d, cap);
  }

  lemma TargetHeads(s: State)
    requires ValidState(s)
    ensures TargetOf(s)[s.cur].head == if s.heap[s.cur].active then s.heap[s.cur].head else 0
    ensures forall i :: 0 <= i < MAX_ARENAS && i != s.cur ==> TargetOf(s)[i] == s.heap[i]
  {
  }

  lemma NewOrTarget(h0: Heap, h: Heap, block: int, d: int)
    requires ValidHeap(h0) && ValidHeap(h) && NewOr(h, block, d)
    requires forall i :: 0 <= i < MAX_ARENAS && h0[i].active ==> h[i] == h0[i]
    ensures NewOr(h0, block, d)
  {
    hide Off, Region;
  }

  lemma NewOrSame(h: Heap, d: int)
    requires ValidHeap(h)
    ensures NewOr(h, d, d)
  {
  }

  /** Opening another region changes nothing for the map. */
  lemma TargetKeeps(h0: Heap, h: Heap, p: int, cap: nat, d: int, ps: seq<Pair>)
    requires ValidHeap(h0) && ValidHeap(h) && MapAt(h0, p, cap, d, ps)
    requires forall i :: 0 <= i < MAX_ARENAS && h0[i].active ==> h[i] == h0[i]
    ensures MapAt(h, p, cap, d, ps) && MapFrame(h0, h, p, d, cap)
  {
    hide Off, Region, Gen;
  }

  /** The new block disturbs nothing, and is not the old one. */
  lemma BlockFrame(h: Heap, a: int, p: int, d: int, cap: nat, ps: seq<Pair>, n: nat)
    requires ValidHeap(h) && 0 <= a < MAX_ARENAS && h[a].active && MapAt(h, p, cap, d, ps)
    requires 2 * cap <= n && h[a].head + n < MAX_HEAP
    ensures var k, e := h[a].head, Pack(h[a].gen, a, h[a].head);
      var h1 := WithHead(h, a, k + n);
      && Off(d) + 2 * |ps| <= |h1[Region(d)].mem| && k + 2 * |ps| <= |h1[a].mem|
      && var h2 := Overwrite(h1, a, k, PartOf(h[Region(d)].mem, Off(d), 2 * |ps|));
        && ValidHeap(h2) && MapFrame(h, h2, p, d, cap) && HeaderAt(h2, p, cap, |ps|, d)
        && NewOr(h, e, d) && e != d && Apart(p, e, n / 2)
        && (forall i :: 0 <= i < MAX_ARENAS && i != a ==> h2[i] == h[i])
  {
    hide Off, Region, Gen, Pack, Flat;
    PackRoundTrip(h[a].gen, a, h[a].head);
  }

  /** The header takes the new capacity and block. */
  method Repoint(vm: Vm, p: int, block: int, ghost h0: Heap, ghost cap: nat, ghost d: int, ghost ps: seq<Pair>)
    requires vm.Valid() && ValidHeap(h0) && MapFrame(h0, vm.Heap(), p, d, cap) && 0 < cap && Unique(ps)
    requires HeaderAt(vm.Heap(), p, cap, |ps|, d) && DataAt(vm.Heap(), block, 2 * cap, ps) && Apart(p, block, 2 * cap)
    modifies vm.memory, vm.types
    ensures vm.Valid() && MapAt(vm.Heap(), p, 2 * cap, block, ps) && MapFrame(h0, vm.Heap(), p, d, cap)
  {
    hide Off, Region, Gen, Pack, Flat, DataAt, MapFrame, Unique;
    ghost var h := vm.Heap();
    var a, o := Region(p), Off(p);
    assert h[a].mem == vm.Cells(a);
    var capacity, ty, ty3 := vm.memory[a, o + 1], vm.types[a, o + 1], vm.types[a, o + 3];
    DataBounds(h, block, 2 * cap, ps);
    FrameWrite(h0, h, p, d, cap, a, o + 1, Cell(2 * cap, ty));
    DataElsewhere(h, block, 2 * cap, ps, a, o + 1, Cell(2 * cap, ty));
    vm.SetCell(a, o + 1, 2 * capacity, ty);
    ghost var h1 := vm.Heap();
    FrameWrite(h0, h1, p, d, cap, a, o + 3, Cell(block, ty3));
    DataElsewhere(h1, block, 2 * cap, ps, a, o + 3, Cell(block, ty3));
    HeaderRepointed(h, p, cap, |ps|, d, 2 * cap, block, ty, ty3);
    vm.SetCell(a, o + 3, block, ty3);
  }

  lemma HeaderRepointed(h: Heap, p: int, cap: nat, count: nat, d: int, cap': nat, d': int, ty: int, ty3: int)
    requires ValidHeap(h) && HeaderAt(h, p, cap, count, d)
    ensures var a, o := Region(p), Off(p);
      && o + 4 <= |h[a].mem|
      && HeaderAt(Write(Write(h, a, o + 1, Cell(cap', ty)), a, o + 3, Cell(d', ty3)), p, cap', count, d')
  {
  }

  /** The loop that moves boundaries above the map's header up to the head. */
  method LiftBoundaries(vm: Vm, off: int)
    requires vm.Valid()
    modifies vm.scopeStack
    ensures vm.Valid()
    ensures vm.Scopes() == LiftAll(old(vm.Scopes()), vm.currentArena, off, vm.arenas[vm.currentArena].head)
  {
    var cur, head := vm.currentArena, vm.arenas[vm.currentArena].head;
    ghost var was := vm.Scopes();
    var s := 0;
    while s < vm.scopeSp
      invariant 0 <= s <= vm.scopeSp
      invariant forall k :: 0 <= k < s ==> vm.scopeStack[k] == Lifted(was[k], cur, off, head)
      invariant forall k :: s <= k < vm.scopeSp ==> vm.scopeStack[k] == was[k]
    {
      if vm.scopeStack[s].arena == cur && vm.scopeStack[s].head > off {
        vm.scopeStack[s] := vm.scopeStack[s].(head := head);
      }
      s := s + 1;
    }
    assert vm.Scopes() == LiftAll(was, cur, off, head);
  }

  lemma FlatRemoved(ps: seq<Pair>, i: nat)
    requires i < |ps|
    ensures Flat(ps[..i] + ps[i + 1..]) == Flat(ps)[..2 * i] + Flat(ps)[2 * i + 2..]
  {
    hide Flat;
    var a, b := ps[..i], ps[i + 1..];
    FlatConcat(a, b);
    FlatConcat(a, [ps[i]] + b);
    FlatConcat([ps[i]], b);
    assert ps == a + ([ps[i]] + b);
    assert Flat(ps) == Flat(a) + (Flat([ps[i]]) + Flat(b));
  }

  lemma FlatConcat(a: seq<Pair>, b: seq<Pair>)
    ensures Flat(a + b) == Flat(a) + Flat(b)
  {
    hide Flat;
    forall j | 0 <= j < 2 * |a + b| ensures Flat(a + b)[j] == (Flat(a) + Flat(b))[j] {
      FlatCell(a + b, j);
      if j < 2 * |a| {
        FlatCell(a, j);
      } else {
        FlatCell(b, j - 2 * |a|);
        assert (j - 2 * |a|) / 2 == j / 2 - |a|;
      }
    }
  }

  /** The pairs after pair `i` moved down by one. */
  lemma PairsShifted(h: Heap, d: int, cap: nat, ps: seq<Pair>, i: nat)
    requires ValidHeap(h) && DataAt(h, d, cap, ps) && i < |ps|
    ensures var a, at, n := Region(d), Off(d) + 2 * i, 2 * (|ps| - 1 - i);
      && at + 2 + n <= |h[a].mem| && 0 <= at
      && var h2 := Overwrite(h, a, at, PartOf(h[a].mem, at + 2, n));
        ValidHeap(h2) && DataAt(h2, d, cap, ps[..i] + ps[i + 1..])
  {
    hide Off, Region, Gen, Flat;
    var a, o, m := Region(d), Off(d), h[Region(d)].mem;
    var n := 2 * (|ps| - 1 - i);
    FlatRemoved(ps, i);
    SliceShifted(m, o, 2 * |ps|, 2 * i, n);
  }

  lemma SliceShifted(m: seq<Cell>, o: nat, len: nat, i: nat, n: nat)
    requires o + len <= |m| && i + 2 + n == len
    ensures var m2 := m[..o + i] + PartOf(m, o + i + 2, n) + m[o + i + n..];
      m2[o..o + len - 2] == m[o..o + len][..i] + m[o..o + len][i + 2..]
  {
  }

  lemma ShiftFrame(h: Heap, p: int, d: int, cap: nat, ps: seq<Pair>, i: nat)
    requires ValidHeap(h) && MapAt(h, p, cap, d, ps) && i < |ps|
    ensures var a, at, n := Region(d), Off(d) + 2 * i, 2 * (|ps| - 1 - i);
      && at + 2 + n <= |h[a].mem| && 0 <= at
      && var h2 := Overwrite(h, a, at, PartOf(h[a].mem, at + 2, n));
        ValidHeap(h2) && MapFrame(h, h2, p, d, cap) && HeaderAt(h2, p, cap, |ps|, d)
  {
    hide Off, Region, Gen, Flat;
  }

  /** remove() on a map. */
  method MapRemove(vm: Vm, p: int, k: Cell, ghost cap: nat, ghost d: int, ghost ps: seq<Pair>)
    requires vm.Valid() && MapAt(vm.Heap(), p, cap, d, ps)
    modifies vm.memory, vm.types
    ensures vm.Valid() && MapAt(vm.Heap(), p, cap, d, Removed(ps, k)) && MapFrame(old(vm.Heap()), vm.Heap(), p, d, cap)
  {
    hide Off, Region, Gen, Pack, Flat, DataAt, Apart, MapFrame, Vm.Heap, Unique, Overwrite, PartOf;
    ghost var h := vm.Heap();
    var a, o := Region(p), Off(p);
    assert h[a].mem == vm.Cells(a);
    var count, block := vm.memory[a, o + 2], vm.memory[a, o + 3];
    DataBounds(h, d, cap, ps);
    FrameSame(h, p, d, cap);
    RemovedFinds(ps, k, k);
    var i := FindKey(vm, block, count, k, cap, ps);
    if i < count {
      var b, at := Region(block), Off(block) + 2 * i;
      assert h[b].mem == vm.Cells(b);
      PairsShifted(h, d, cap, ps, i);
      ShiftFrame(h, p, d, cap, ps, i);
      vm.CopyElements(b, at + 2, b, at, 2 * (count - 1 - i));
      ghost var h2 := vm.Heap();
      assert h2[a].mem == vm.Cells(a);
      var ty := vm.types[a, o + 2];
      FrameWrite(h, h2, p, d, cap, a, o + 2, Cell(count - 1, ty));
      CountClear(h2, p, cap, d, Removed(ps, k), a, o + 2, Cell(count - 1, ty));
      CountWritten(h2, p, cap, |ps|, d, count - 1, ty);
      vm.SetCell(a, o + 2, count - 1, ty);
    }
  }

  lemma CountClear(h: Heap, p: int, cap: nat, d: int, ps: seq<Pair>, a: int, at: int, c: Cell)
    requires ValidHeap(h) && DataAt(h, d, cap, ps) && Apart(p, d, cap) && a == Region(p) && h[a].active
    requires Off(p) <= at < Off(p) + 4 && 0 <= at < h[a].head
    ensures at < |h[a].mem| && ValidHeap(Write(h, a, at, c)) && DataAt(Write(h, a, at, c), d, cap, ps)
  {
    hide Off, Region, Gen, Flat, DataAt;
    DataElsewhere(h, d, cap, ps, a, at, c);
  }

  // ---- How much growing costs ----

  /** The capacity once `n` distinct keys were stored one after the other. */
  function CapacityFor(n: nat): (cap: nat)
    ensures cap >= INITIAL_CAP && n <= cap
  {
    if n == 0 then INITIAL_CAP
    else
      var cap := CapacityFor(n - 1);
      if n - 1 == cap then 2 * cap else cap
  }

  /** The cells of all data blocks allocated on the way. */
  function BlockCells(n: nat): nat {
    if n == 0 then 2 * INITIAL_CAP
    else BlockCells(n - 1) + if n - 1 == CapacityFor(n - 1) then 4 * CapacityFor(n - 1) else 0
  }

  lemma FirstBlock()
    ensures CapacityFor(0) == INITIAL_CAP && BlockCells(0) == 2 * INITIAL_CAP
  {
  }

  lemma NextBlock(n: nat)
    ensures CapacityFor(n + 1) == if n == CapacityFor(n) then 2 * CapacityFor(n) else CapacityFor(n)
    ensures BlockCells(n + 1) == BlockCells(n) + if n == CapacityFor(n) then 4 * CapacityFor(n) else 0
  {
  }

  lemma {:induction false} BlocksRise(m: nat, n: nat)
    requires m <= n
    ensures BlockCells(m) <= BlockCells(n)
    decreases n
  {
    if m < n {
      BlocksRise(m, n - 1);
    }
  }

  /** All data blocks together take at most max(32, 8 n) cells. */
  lemma {:induction false} GrowthBound(n: nat)
    ensures BlockCells(n) == 4 * CapacityFor(n) - 2 * INITIAL_CAP
    ensures CapacityFor(n) > INITIAL_CAP ==> CapacityFor(n) < 2 * n
    ensures BlockCells(n) <= if 8 * n > 32 then 8 * n else 32
  {
    if n > 0 {
      GrowthBound(n - 1);
    }
  }

  /** Storing `n` distinct keys into a new map takes its header and BlockCells(n) cells. */
  method StoreAll(vm: Vm, keys: seq<Cell>, vals: seq<Cell>) returns (r: Status, p: int, ghost d: int)
    requires vm.Valid() && |keys| == |vals| && forall i, j :: 0 <= i < j < |keys| ==> keys[i] != keys[j]
    modifies vm.arenas, vm.memory, vm.types, vm.scopeStack
    ensures vm.Valid()
    ensures r == Running ==> MapAt(vm.Heap(), p, CapacityFor(|keys|), d, Zip(keys, vals))
    ensures var start := (if old(vm.arenas[vm.currentArena].active) then old(vm.arenas[vm.currentArena].head) else 0);
      && (r == Running <==> start + 4 + BlockCells(|keys|) < MAX_HEAP)
      && (r == Running ==> vm.arenas[vm.currentArena].head == start + 4 + BlockCells(|keys|))
  {
    hide MapAt, Vm.Heap, Unique, Put, Off, Region, BlockCells, CapacityFor, Sets, LiftAll, Zip, Undisturbed;
    ghost var start := if vm.arenas[vm.currentArena].active then vm.arenas[vm.currentArena].head else 0;
    BlocksRise(0, |keys|);
    FirstBlock();
    ZipNone(keys, vals);
    r, p, d := NewMap(vm);
    if r != Running {
      return;
    }
    ghost var cap: nat := INITIAL_CAP;
    var n := 0;
    while n < |keys|
      invariant 0 <= n <= |keys| && vm.Valid() && r == Running && cap == CapacityFor(n)
      invariant MapAt(vm.Heap(), p, cap, d, Zip(keys[..n], vals[..n])) && vm.arenas[vm.currentArena].active
      invariant vm.currentArena == old(vm.currentArena) && vm.arenas[vm.currentArena].head == start + 4 + BlockCells(n)
    {
      BlocksRise(n + 1, |keys|);
      NextBlock(n);
      ZipNext(keys, vals, n);
      r, cap, d := MapSet(vm, p, keys[n], vals[n], cap, d, Zip(keys[..n], vals[..n]));
      if r != Running {
        return;
      }
      n := n + 1;
    }
    assert keys[..n] == keys && vals[..n] == vals;
  }

  lemma ZipNone(keys: seq<Cell>, vals: seq<Cell>)
    requires |keys| == |vals|
    ensures Zip(keys[..0], vals[..0]) == []
  {
  }

  lemma ZipNext(keys: seq<Cell>, vals: seq<Cell>, n: nat)
    requires n < |keys| == |vals| && forall i, j :: 0 <= i < j < |keys| ==> keys[i] != keys[j]
    ensures var ps := Zip(keys[..n], vals[..n]);
      && |ps| == n && IndexOf(ps, keys[n]) == n && Put(ps, keys[n], vals[n]) == Zip(keys[..n + 1], vals[..n + 1])
  {
    var ps := Zip(keys[..n], vals[..n]);
    forall i | 0 <= i < n ensures ps[i].0 != keys[n] {
      assert ps[i].0 == keys[..n][i];
    }
    NewKey(ps, keys[n], vals[n]);
    assert keys[..n + 1] == keys[..n] + [keys[n]] && vals[..n + 1] == vals[..n] + [vals[n]];
  }

  function Zip(ks: seq<Cell>, vs: seq<Cell>): (ps: seq<Pair>)
    requires |ks| == |vs|
    ensures |ps| == |ks| && forall i :: 0 <= i < |ps| ==> ps[i] == (ks[i], vs[i])
  {
    seq(|ks|, i requires 0 <= i < |ks| => (ks[i], vs[i]))
  }

  lemma NewKey(ps: seq<Pair>, k: Cell, v: Cell)
    requires forall i :: 0 <= i < |ps| ==> ps[i].0 != k
    ensures IndexOf(ps, k) == |ps| && Put(ps, k, v) == ps + [(k, v)]
  {
    IndexIs(ps, k, |ps|);
  }
}
