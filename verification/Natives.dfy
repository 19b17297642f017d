/** Natives that re-enter the machine: call, for_list, filter and param_filter over a compiled
    function (src/mylolib.c:1060-1130, 2295-2377, 2385-2485, 2487-2583). */
module Natives {
  import opened Defines
  import opened Arenas
  import opened Evacuation
  import opened Machine
  import opened Protection
  import opened Returning
  import opened Frames
  import opened Calls
  import L = Language
  import opened Codegen
  import opened Simulation
  import opened Meaning
  import opened VirtualMachine
  import Agreement
  import Activations
  import Tameness

  /** The function called back: number `f` of the compiled functions `fs`, with a bound on its source run. */
  datatype Target = Target(k: nat, fs: seq<L.Func>, ln: Link, f: nat)

  ghost predicate Compiled(p: Program, g: Target, addr: int) {
    Linked(p, g.ln, g.fs) && g.f < |g.fs| == |g.ln.addrs| && addr == g.ln.addrs[g.f] && Careful(p, g, addr)
  }

  /** Called back on arguments for which the source call returns, the function keeps the boundaries in
      order. */
  ghost predicate Careful(p: Program, g: Target, addr: int)
    requires g.f < |g.fs|
  {
    forall u, z, low, xs, v :: Callback(p, g, addr, u, z, low, xs, v) ==> Orderly(p, u)
  }

  ghost predicate Callback(p: Program, g: Target, addr: int, u: State, z: Hole, low: seq<Value>, xs: seq<Value>, v: Value)
    requires g.f < |g.fs|
  {
    && Entered(p, u, addr, xs) && u.stack[u.fp - 2].val == |p.code|
    && Guarded(u.heap, u.cur, z, u.scopes, u.stack, low + xs) && Returns(g, xs, v)
  }

  /** Tame code does. */
  lemma TameCareful(p: Program, g: Target, addr: int)
    requires Activations.Sound(Agreement.Build(p, g.ln, g.fs, true, |p.code|)) && g.f < |g.fs| == |g.ln.addrs| && addr == g.ln.addrs[g.f]
    ensures Careful(p, g, addr)
  {
    hide Orderly, Guarded, Activations.Sound, L.Run;
    var d := Agreement.Build(p, g.ln, g.fs, true, |p.code|);
    Activations.SoundSize(d);
    forall u, z, low, xs, v | Callback(p, g, addr, u, z, low, xs, v) ensures Orderly(p, u) {
      Tameness.TameOrderly(d, g.f, u, xs, z, low);
    }
  }

  predicate Returns(g: Target, xs: seq<Value>, v: Value)
    requires g.f < |g.fs|
  {
    L.Invoke(g.k, g.fs, g.f, xs) == Some(v)
  }

  /** A state in which a native runs: the cells of the stack represent `vals`, and the scopes were
      opened by frames below the one a callback gets. */
  ghost predicate Calm(s: State, z: Hole, vals: seq<Value>) {
    && ValidState(s) && Guarded(s.heap, s.cur, z, s.scopes, s.stack, vals)
    && forall k :: 0 <= k < |s.scopes| ==> s.scopes[k].fp < |s.stack| + 2
  }

  /** The arguments of a callback represent `xs`. */
  ghost predicate Ready(s: State, z: Hole, cells: seq<Cell>, xs: seq<Value>)
    requires ValidState(s)
  {
    |cells| == |xs| && forall i :: 0 <= i < |cells| ==> Kept(s.heap, s.cur, z, s.scopes, |s.stack|, cells[i], xs[i])
  }

  // ---- One callback ----

  ghost function Framed(p: Program, s: State, addr: int, cells: seq<Cell>): State {
    s.(ip := addr, fp := |s.stack| + 2, stack := s.stack + [Num(|p.code|), Num(s.fp)] + cells)
  }

  /** What the callback leaves: everything as it was, but for more memory and the result. */
  ghost predicate Answered(p: Program, s: State, z: Hole, t: State, v: Value) {
    && ValidState(s) && ValidState(t) && |t.stack| == |s.stack| + 1
    && t == s.(ip := |p.code|, heap := t.heap, stack := s.stack + [Top(t, 0)])
    && Grown(s.heap, t.heap) && Kept(t.heap, t.cur, z, t.scopes, |s.stack|, Top(t, 0), v)
  }

  lemma FramedGuarded(p: Program, s: State, z: Hole, vals: seq<Value>, addr: int, cells: seq<Cell>, xs: seq<Value>)
    requires Calm(s, z, vals) && Ready(s, z, cells, xs) && ValidState(Framed(p, s, addr, cells))
    ensures var u := Framed(p, s, addr, cells);
      && Entered(p, u, addr, xs)
      && Guarded(u.heap, u.cur, z, u.scopes, u.stack, vals + [L.NumV(|p.code|), L.NumV(s.fp)] + xs)
  {
    hide Kept;
    var u, vs := Framed(p, s, addr, cells), vals + [L.NumV(|p.code|), L.NumV(s.fp)] + xs;
    forall i | 0 <= i < |u.stack| ensures Kept(u.heap, u.cur, z, u.scopes, i, u.stack[i], vs[i]) {
      if i == |s.stack| {
        LeafKept(s.heap, s.cur, z, s.scopes, i, |p.code|);
      } else if i == |s.stack| + 1 {
        LeafKept(s.heap, s.cur, z, s.scopes, i, s.fp);
      } else if i > |s.stack| + 1 {
        var j := i - |s.stack| - 2;
        KeptMoved(s.heap, s.cur, z, s.scopes, |s.stack|, |s.stack|, i, cells[j], xs[j]);
      }
    }
  }

  lemma CallbackMeans(p: Program, g: Target, s: State, z: Hole, vals: seq<Value>, addr: int, cells: seq<Cell>, xs: seq<Value>, v: Value)
    returns (ok: bool, t: State)
    requires Compiled(p, g, addr) && Returns(g, xs, v)
    requires Calm(s, z, vals) && Ready(s, z, cells, xs) && ValidState(Framed(p, s, addr, cells))
    ensures Arrives(p, Framed(p, s, addr, cells), ok, t)
    ensures ok ==> Answered(p, s, z, t, v) && Step(p, t) == Halted
  {
    hide Guarded, Linked, Kept, Reach, Fills, Orderly, Step, L.Invoke;
    var u := Framed(p, s, addr, cells);
    FramedGuarded(p, s, z, vals, addr, cells, xs);
    var low := vals + [L.NumV(|p.code|), L.NumV(s.fp)];
    assert |vals| == |s.stack| by { CalmSize(s, z, vals); }
    assert Callback(p, g, addr, u, z, low, xs, v);
    ok, t := FunctionMeans(g.k, g.fs, g.ln, p, g.f, u, low, xs, v, z);
    if ok {
      assert u.stack[..u.fp - 2] == s.stack && low[..u.fp - 2] == vals;
      assert t.stack == s.stack + [Top(t, 0)];
      TopKept(t, z, vals, v);
    }
  }

  lemma CalmSize(s: State, z: Hole, vals: seq<Value>)
    requires Calm(s, z, vals)
    ensures |vals| == |s.stack| && ScopesOk(s.heap, s.cur, z, s.scopes, |s.stack|)
  {
    hide Kept;
  }

  lemma TopKept(t: State, z: Hole, vals: seq<Value>, v: Value)
    requires ValidState(t) && Guarded(t.heap, t.cur, z, t.scopes, t.stack, vals + [v]) && |t.stack| == |vals| + 1
    ensures Kept(t.heap, t.cur, z, t.scopes, |vals|, Top(t, 0), v)
  {
    hide Kept;
    assert (vals + [v])[|vals|] == v;
  }

  /** A run that halts ends where the result says it does. */
  lemma Determined(p: Program, s: State, ok: bool, t: State, last: State, m: nat)
    requires Arrives(p, s, ok, t) && (ok ==> ValidState(t) && Step(p, t) == Halted)
    requires ValidState(last) && Machine.Run(p, s, m) == Next(last) && Step(p, last) == Halted
    ensures ok && last == t
  {
    hide ValidState, Step;
    var n: nat :| Machine.Run(p, s, n) == if ok then Next(t) else Overflow;
    if n <= m && ok {
      RunAdds(p, s, n, t, m - n);
    } else if n <= m {
      StuckStays(p, s, m, n);
    } else {
      RunAdds(p, s, m, last, n - m);
    }
  }

  /** A run that leads somewhere does not fail. */
  lemma NeverFails(p: Program, s: State, ok: bool, t: State, m: nat)
    requires Arrives(p, s, ok, t) && (ok ==> ValidState(t) && Step(p, t) == Halted)
    ensures Machine.Run(p, s, m) != Stuck
  {
    hide ValidState, Step;
    var n: nat :| Machine.Run(p, s, n) == if ok then Next(t) else Overflow;
    StuckStays(p, s, m, n);
    if n <= m && ok {
      RunAdds(p, s, n, t, m - n);
    }
  }

  /** Failing and overflowing are both final, so a run cannot do one and then the other. */
  lemma {:induction false} StuckStays(p: Program, s: State, m: nat, n: nat)
    requires ValidState(s)
    ensures Machine.Run(p, s, m) == Stuck && m <= n ==> Machine.Run(p, s, n) == Stuck
    ensures Machine.Run(p, s, n) == Overflow && n <= m ==> Machine.Run(p, s, m) == Overflow
    decreases m
  {
    hide ValidState, Step;
    if m > 0 && n > 0 && Step(p, s).Next? {
      StuckStays(p, Step(p, s).s, m - 1, n - 1);
    }
  }

  function Arguments(val: int, ty: int, param: Option<Cell>): seq<Cell> {
    if param.Some? then [Cell(val, ty), param.value] else [Cell(val, ty)]
  }

  /** A callback on the cell `c`, made from `s` with the heap at `h`, that does not come back: no room for
      its frame, something full on its way, or more than `limit` instructions. */
  ghost predicate Cut(p: Program, s: State, h: Heap, addr: int, c: Cell, param: Option<Cell>, limit: nat, r: Status)
    requires ValidState(s)
  {
    var u := Framed(p, s.(heap := h), addr, Arguments(c.val, c.tag, param));
    && ValidHeap(h) && Grown(s.heap, h)
    && (r == Full && |u.stack| <= STACK_SIZE ==> ValidState(u) && Machine.Run(p, u, limit) == Overflow)
    && (r == Running ==> ValidState(u) && Machine.Run(p, u, limit).Next?)
  }

  /** Why a native over the elements `cells` ends early: no room for its result, or for one of the callbacks. */
  ghost predicate Interrupted(p: Program, s: State, addr: int, cells: seq<Cell>, param: Option<Cell>, limit: nat, r: Status)
    requires ValidState(s)
  {
    || (r == Full && s.heap[s.cur].head + 2 + |cells| >= MAX_HEAP)
    || (r == Full && |s.stack| == STACK_SIZE)
    || exists h: Heap, i: nat :: i < |cells| && Cut(p, s, h, addr, cells[i], param, limit, r)
  }

  method PushLink(vm: Vm) returns (r: Status)
    requires vm.Valid()
    modifies vm`sp, vm.stack, vm.stackTypes
    ensures vm.Valid() && (r == Running || r == Full)
    ensures r == Full ==> |old(vm.Stack())| + 2 > STACK_SIZE
    ensures r == Running ==>
      vm.View() == old(vm.View()).(stack := old(vm.Stack()) + [Num(|vm.program.code|), Num(vm.fp)])
  {
    hide Vm.Heap, Vm.Stack, Vm.Scopes;
    r := vm.Push(|vm.program.code|, T_NUM);
    if r != Running { return; }
    r := vm.Push(vm.fp, T_NUM);
  }

  /** The frame of a callback, pushed by hand: a return address past the code, the frame pointer, the
      arguments. The frame pointer then moves to the first argument. */
  method PushFrame(vm: Vm, val: int, ty: int, param: Option<Cell>) returns (r: Status)
    requires vm.Valid()
    modifies vm`sp, vm`fp, vm.stack, vm.stackTypes
    ensures vm.Valid() && (r == Running || r == Full)
    ensures r == Full ==> |old(vm.Stack())| + 2 + |Arguments(val, ty, param)| > STACK_SIZE
    ensures r == Running ==>
      vm.View() == Framed(vm.program, old(vm.View()), vm.ip, Arguments(val, ty, param))
  {
    hide Vm.Heap, Vm.Stack, Vm.Scopes;
    ghost var s := vm.View();
    r := PushLink(vm);
    if r != Running { return; }
    r := vm.Push(val, ty);
    if r != Running { return; }
    var newFp := vm.sp;
    if param.Some? {
      r := vm.Push(param.value.val, param.value.tag);
      if r != Running { return; }
      assert [Cell(val, ty)] + [param.value] == Arguments(val, ty, param);
    }
    assert vm.View() == s.(stack := s.stack + [Num(|vm.program.code|), Num(s.fp)] + Arguments(val, ty, param));
    vm.fp := newFp;
  }

  /** One turn of the loops below: the frame is pushed and run_vm_from called, here for at most
      `limit` instructions; Finished means that the callback returned. */
  method Apply(vm: Vm, addr: int, val: int, ty: int, param: Option<Cell>, limit: nat,
               ghost g: Target, ghost z: Hole, ghost vals: seq<Value>, ghost xs: seq<Value>, ghost v: Value)
    returns (r: Status, res: int, resType: int)
    requires vm.Valid() && Compiled(vm.program, g, addr) && Returns(g, xs, v) && Calm(vm.View(), z, vals)
    requires Ready(vm.View(), z, Arguments(val, ty, param), xs)
    modifies vm, vm.stack, vm.stackTypes, vm.scopeStack, vm.arenas, vm.memory, vm.types
    ensures vm.Valid() && r != Failed
    ensures r == Finished ==>
      && vm.View() == old(vm.View()).(ip := |vm.program.code|, heap := vm.Heap())
      && Grown(old(vm.Heap()), vm.Heap())
      && Kept(vm.Heap(), vm.currentArena, z, vm.Scopes(), |vm.Stack()|, Cell(res, resType), v)
    ensures r != Finished ==> Cut(vm.program, old(vm.View()), old(vm.Heap()), addr, Cell(val, ty), param, limit, r)
  {
    GrownSelf(vm.Heap());
    hide Vm.Heap, Vm.Stack, Vm.Scopes, Guarded, Linked, Kept, Grown, Arrives, Machine.Run, Step, Ready, L.Invoke;
    ghost var s, p, cells := vm.View(), vm.program, Arguments(val, ty, param);
    res, resType := 0, 0;
    r := PushFrame(vm, val, ty, param);
    if r != Running { return; }
    ghost var u := Framed(p, s, addr, cells);
    assert vm.View().(ip := addr) == u;
    ghost var ok, t := CallbackMeans(p, g, s, z, vals, addr, cells, xs, v);
    ghost var last, steps;
    r, last, steps := vm.RunFrom(addr, limit);
    NeverFails(p, u, ok, t, limit);
    if r != Finished { return; }
    Determined(p, u, ok, t, last, steps);
    r, res, resType := vm.Pop();
    assert vm.Stack() == s.stack;
    r := Finished;
  }

  // ---- The operands ----

  /** The operands `ops` are on top of the stack, above every scope's entry height. */
  ghost predicate Handed(s: State, vals: seq<Value>, ops: seq<Value>) {
    && ValidState(s) && Guarded(s.heap, s.cur, NONE, s.scopes, s.stack, vals + ops)
    && forall k :: 0 <= k < |s.scopes| ==> s.scopes[k].spAtEntry < |vals| && s.scopes[k].fp < |vals| + 2
  }

  lemma Taken(s: State, vals: seq<Value>, ops: seq<Value>)
    requires Handed(s, vals, ops)
    ensures |s.stack| == |vals| + |ops| && Calm(Drop(s, |ops|), NONE, vals)
    ensures forall j :: 0 <= j < |ops| ==> Kept(s.heap, s.cur, NONE, s.scopes, |vals|, s.stack[|vals| + j], ops[j])
  {
    hide Kept;
    var m := |vals|;
    assert ScopesOk(s.heap, s.cur, NONE, s.scopes, m);
    forall j | 0 <= j < |ops| ensures Kept(s.heap, s.cur, NONE, s.scopes, m, s.stack[m + j], ops[j]) {
      assert (vals + ops)[m + j] == ops[j];
      KeptMoved(s.heap, s.cur, NONE, s.scopes, m, m + j, m, s.stack[m + j], ops[j]);
    }
    assert (vals + ops)[..m] == vals;
    GuardDrop(s.heap, s.cur, NONE, s.scopes, s.stack, vals + ops, |ops|);
  }

  predicate IsName(v: Value) {
    v.Leaf? && v.tag == T_STR
  }

  /** The natives' type tests decide what the operand is. */
  lemma Tested(h: Heap, a: int, scopes: seq<Scope>, i: int, c: Cell, v: Value)
    requires ValidHeap(h) && Kept(h, a, NONE, scopes, i, c, v)
    ensures c.tag == T_STR <==> IsName(v)
    ensures c.tag == T_OBJ && Elems(h, c).Some? <==> L.IsArr(v)
    ensures c.tag == T_OBJ && Elems(h, Cell(c.val, T_OBJ)).Some? <==> L.IsArr(v)
  {
    hide Off, Region, Gen;
  }

  // ---- The array being filled ----

  /** A block of `n` elements has been taken in region `a` since `h0`, and its type written. */
  ghost predicate Filling(h0: Heap, h: Heap, a: int, n: nat) {
    && ValidHeap(h0) && ValidHeap(h) && 0 <= a < MAX_ARENAS && Grown(h0, h)
    && h0[a].active && h0[a].head + 2 + n <= h[a].head && h[a].mem[h0[a].head].val == TYPE_ARRAY
  }

  ghost function HoleOf(h0: Heap, a: int, n: nat): Hole
    requires 0 <= a < |h0|
  {
    Hole(h0[a].head, h0[a].head + 2 + n)
  }

  /** What was represented before the block was taken does not reach it. */
  lemma KeptHeld(h0: Heap, h: Heap, a: int, n: nat, scopes: seq<Scope>, i: int, c: Cell, v: Value)
    requires Filling(h0, h, a, n) && Kept(h0, a, NONE, scopes, i, c, v)
    ensures Kept(h, a, NONE, scopes, i, c, v) && Kept(h, a, HoleOf(h0, a, n), scopes, i, c, v)
  {
    hide Rep, Grown;
    KeptGrown(h0, h, a, NONE, scopes, i, c, v);
    RepBelowHead(h0, a, c, v);
    RepGrown(h0, h, Below(a, h0[a].head), c, v);
  }

  lemma CalmHeld(s: State, t: State, n: nat, vals: seq<Value>)
    requires Calm(s, NONE, vals) && ValidState(t) && t == s.(ip := t.ip, heap := t.heap) && Filling(s.heap, t.heap, s.cur, n)
    ensures Calm(t, NONE, vals) && Calm(t, HoleOf(s.heap, s.cur, n), vals)
  {
    hide Kept;
    assert SameArena(s.heap[s.cur], t.heap[s.cur]);
    forall i | 0 <= i < |s.stack|
      ensures Kept(t.heap, t.cur, NONE, t.scopes, i, t.stack[i], vals[i])
      ensures Kept(t.heap, t.cur, HoleOf(s.heap, s.cur, n), t.scopes, i, t.stack[i], vals[i])
    {
      KeptHeld(s.heap, t.heap, s.cur, n, s.scopes, i, s.stack[i], vals[i]);
    }
  }

  lemma StillFilling(h0: Heap, h: Heap, h': Heap, a: int, n: nat)
    requires Filling(h0, h, a, n) && ValidHeap(h') && Grown(h, h')
    ensures Filling(h0, h', a, n)
  {
  }

  lemma FillingWrite(h0: Heap, h: Heap, a: int, n: nat, at: int, c: Cell)
    requires Filling(h0, h, a, n) && h0[a].head < at < h0[a].head + 2 + n
    ensures Filling(h0, Write(h, a, at, c), a, n)
  {
  }

  // ---- Writing into the hole ----

  /** A write at or above `b` is no concern of anything below `b`. */
  lemma BelowKeeps(h: Heap, a: int, b: int, at: int, x: Cell)
    requires ValidHeap(h) && 0 <= a < MAX_ARENAS && 0 <= b <= at < h[a].head && h[a].active
    ensures var h' := Write(h, a, at, x); ValidHeap(h') && Keeps(h, Below(a, b), h', Below(a, b))
  {
  }

  lemma {:induction false} FilledRep(h: Heap, a: int, z: Hole, at: int, x: Cell, c: Cell, v: Value)
    requires ValidHeap(h) && 0 <= a < MAX_ARENAS && 0 <= z.lo <= at < z.hi <= h[a].head && h[a].active
    requires Rep(h, Home(a), c, v) && Parted(h, a, z.lo, z.hi, c, v)
    ensures var h' := Write(h, a, at, x);
      ValidHeap(h') && Rep(h', Home(a), c, v) && Parted(h', a, z.lo, z.hi, c, v)
    decreases v
  {
    hide Off, Region, Gen, Keeps;
    BelowKeeps(h, a, z.lo, at, x);
    var h' := Write(h, a, at, x);
    if Rep(h, Below(a, z.lo), c, v) {
      RepKept(h, Below(a, z.lo), h', Below(a, z.lo), c, v);
      RepWider(h', a, z.lo, HEAP_END, c, v);
    } else if v.Node? {
      forall i | 0 <= i < |v.kids|
        ensures At(h', c.val, 2 + i) == At(h, c.val, 2 + i) && Rep(h', Home(a), At(h, c.val, 2 + i), v.kids[i])
        ensures Parted(h', a, z.lo, z.hi, At(h, c.val, 2 + i), v.kids[i])
      {
        FilledRep(h, a, z, at, x, At(h, c.val, 2 + i), v.kids[i]);
      }
    }
  }

  lemma {:induction false} FilledParted(h: Heap, a: int, z: Hole, b: int, at: int, x: Cell, c: Cell, v: Value)
    requires ValidHeap(h) && 0 <= a < MAX_ARENAS && 0 <= b <= z.lo <= at < z.hi <= h[a].head && h[a].active
    requires Rep(h, Home(a), c, v) && Parted(h, a, z.lo, z.hi, c, v) && Parted(h, a, b, b, c, v)
    ensures Parted(Write(h, a, at, x), a, b, b, c, v)
    decreases v
  {
    hide Off, Region, Gen, Keeps;
    BelowKeeps(h, a, z.lo, at, x);
    BelowKeeps(h, a, b, at, x);
    var h' := Write(h, a, at, x);
    if Rep(h, Below(a, z.lo), c, v) {
      PartedKept(h, Below(a, z.lo), h', Below(a, z.lo), a, b, b, c, v);
    } else if Rep(h, Below(a, b), c, v) {
      RepKept(h, Below(a, b), h', Below(a, b), c, v);
    } else if v.Node? {
      forall i | 0 <= i < |v.kids|
        ensures At(h', c.val, 2 + i) == At(h, c.val, 2 + i)
        ensures Parted(h', a, b, b, At(h, c.val, 2 + i), v.kids[i])
      {
        FilledParted(h, a, z, b, at, x, At(h, c.val, 2 + i), v.kids[i]);
      }
    }
  }

  lemma KeptFilled(h: Heap, a: int, z: Hole, scopes: seq<Scope>, i: int, at: int, x: Cell, c: Cell, v: Value)
    requires ValidHeap(h) && 0 <= a < MAX_ARENAS && 0 <= z.lo <= at < z.hi <= h[a].head && h[a].active
    requires forall k :: 0 <= k < |scopes| ==> 0 <= scopes[k].head <= z.lo && scopes[k].spAtEntry < i
    requires Kept(h, a, z, scopes, i, c, v)
    ensures Kept(Write(h, a, at, x), a, z, scopes, i, c, v)
  {
    hide Rep, Parted;
    FilledRep(h, a, z, at, x, c, v);
    forall k | 0 <= k < |scopes| ensures Parted(Write(h, a, at, x), a, scopes[k].head, scopes[k].head, c, v) {
      FilledParted(h, a, z, scopes[k].head, at, x, c, v);
    }
  }

  // ---- The cells of the result ----

  /** The cells from `at` on represent the first `n` of `outs`, fit for the top of a stack of height `m`. */
  ghost predicate Results(h: Heap, a: int, z: Hole, scopes: seq<Scope>, m: int, at: int, outs: seq<Value>, n: nat)
    requires ValidHeap(h) && 0 <= a < MAX_ARENAS
  {
    && n <= |outs| && 0 <= at && at + |outs| <= |h[a].mem|
    && forall j :: 0 <= j < n ==> Kept(h, a, z, scopes, m, h[a].mem[at + j], outs[j])
  }

  lemma ResultsGrown(h: Heap, h': Heap, a: int, z: Hole, scopes: seq<Scope>, m: int, at: int, outs: seq<Value>, n: nat)
    requires ValidHeap(h) && ValidHeap(h') && Grown(h, h') && 0 <= a < MAX_ARENAS && at + |outs| <= h[a].head
    requires Results(h, a, z, scopes, m, at, outs, n)
    ensures Results(h', a, z, scopes, m, at, outs, n)
  {
    hide Kept;
    assert SameArena(h[a], h'[a]);
    forall j | 0 <= j < n ensures Kept(h', a, z, scopes, m, h'[a].mem[at + j], outs[j]) {
      KeptGrown(h, h', a, z, scopes, m, h[a].mem[at + j], outs[j]);
    }
  }

  lemma ResultsWrite(h: Heap, a: int, z: Hole, scopes: seq<Scope>, m: int, at: int, outs: seq<Value>, n: nat, c: Cell)
    requires ValidHeap(h) && 0 <= a < MAX_ARENAS && h[a].active && n < |outs|
    requires 0 <= z.lo <= at && at + |outs| <= z.hi <= h[a].head
    requires forall k :: 0 <= k < |scopes| ==> 0 <= scopes[k].head <= z.lo && scopes[k].spAtEntry < m
    requires Results(h, a, z, scopes, m, at, outs, n) && Kept(h, a, z, scopes, m, c, outs[n])
    ensures var h' := Write(h, a, at + n, c); ValidHeap(h') && Results(h', a, z, scopes, m, at, outs, n + 1)
  {
    hide Kept;
    var h' := Write(h, a, at + n, c);
    forall j | 0 <= j < n + 1 ensures Kept(h', a, z, scopes, m, h'[a].mem[at + j], outs[j]) {
      KeptFilled(h, a, z, scopes, m, at + n, c, if j < n then h[a].mem[at + j] else c, outs[j]);
    }
  }

  /** What a native leaves: its operands replaced by a pointer to the result, everything else as it was. */
  ghost predicate Delivered(s: State, t: State, vals: seq<Value>, v: Value) {
    && ValidState(s) && ValidState(t) && |t.stack| == |s.stack| + 1
    && t == s.(heap := t.heap, stack := s.stack + [Top(t, 0)]) && Grown(s.heap, t.heap)
    && Guarded(t.heap, t.cur, NONE, t.scopes, t.stack, vals + [v])
  }

  /** The filled block is an array of the results. */
  lemma Filled(s: State, h: Heap, n: nat, vals: seq<Value>, z: Hole, outs: seq<Value>)
    requires Calm(s, NONE, vals) && Filling(s.heap, h, s.cur, n) && |outs| <= n
    requires Results(h, s.cur, z, s.scopes, |s.stack|, s.heap[s.cur].head + 2, outs, |outs|)
    requires h[s.cur].mem[s.heap[s.cur].head + 1].val == |outs|
    ensures var c := Cell(Pack(s.heap[s.cur].gen, s.cur, s.heap[s.cur].head), T_OBJ);
      Kept(h, s.cur, NONE, s.scopes, |s.stack|, c, L.Arr(outs))
  {
    hide Kept, Off, Region, Gen, Pack, Grown;
    var a, o := s.cur, s.heap[s.cur].head;
    var p := Pack(s.heap[a].gen, a, o);
    PackRoundTrip(s.heap[a].gen, a, o);
    assert SameArena(s.heap[a], h[a]) by { GrownArena(s.heap, h, a); }
    CalmSize(s, NONE, vals);
    forall i | 0 <= i < |outs| ensures Kept(h, a, NONE, s.scopes, |s.stack|, At(h, p, 2 + i), outs[i]) {
      assert At(h, p, 2 + i) == h[a].mem[o + 2 + i];
      assert Kept(h, a, z, s.scopes, |s.stack|, h[a].mem[o + 2 + i], outs[i]);
      Unholed(h, a, z, s.scopes, |s.stack|, At(h, p, 2 + i), outs[i]);
    }
    NodeKept(h, a, NONE, s.scopes, |s.stack|, seq(|outs|, i => |s.stack|), o, p, outs);
  }

  lemma GrownArena(h: Heap, h': Heap, a: int)
    requires Grown(h, h') && 0 <= a < |h|
    ensures SameArena(h[a], h'[a]) && h[a].head <= h'[a].head
  {
  }

  lemma Unholed(h: Heap, a: int, z: Hole, scopes: seq<Scope>, i: int, c: Cell, v: Value)
    requires ValidHeap(h) && Kept(h, a, z, scopes, i, c, v)
    ensures Kept(h, a, NONE, scopes, i, c, v)
  {
  }

  // ---- for_list ----

  lemma HeadedFilling(h0: Heap, a: int, n: nat)
    requires ValidHeap(h0) && 0 <= a < MAX_ARENAS && Room(h0, a, 2 + n)
    ensures Filling(h0, Headed(h0, a, n), a, n) && Headed(h0, a, n)[a].mem[h0[a].head + 1].val == n
  {
  }

  /** Cell `i` of the list is where it was before the block was taken. */
  lemma ElementHeld(s: State, h: Heap, n: nat, c: Cell, kids: seq<Value>, i: nat)
    requires ValidState(s) && ScopesOk(s.heap, s.cur, NONE, s.scopes, |s.stack|) && i < |kids|
    requires Kept(s.heap, s.cur, NONE, s.scopes, |s.stack|, c, L.Arr(kids)) && Filling(s.heap, h, s.cur, n)
    ensures Elems(s.heap, c).Some? && |Elems(s.heap, c).value| == |kids|
    ensures var r, at := Region(c.val), Off(c.val) + 2 + i;
      && h[r].active && 0 <= at < MAX_HEAP && h[r].mem[at] == Elems(s.heap, c).value[i]
      && Kept(h, s.cur, NONE, s.scopes, |s.stack|, h[r].mem[at], kids[i])
      && Kept(h, s.cur, HoleOf(s.heap, s.cur, n), s.scopes, |s.stack|, h[r].mem[at], kids[i])
  {
    hide Kept, Off, Region, Gen, ScopesOk;
    ElemsOf(s.heap, s.cur, NONE, s.scopes, |s.stack|, |s.stack|, c, kids);
    var x := Elems(s.heap, c).value[i];
    KeptHeld(s.heap, h, s.cur, n, s.scopes, |s.stack|, x, kids[i]);
    OffInRange(c.val);
    assert Live(s.heap, c.val) by { hide Rep; ElemsLive(s.heap, c); }
    GrownArena(s.heap, h, Region(c.val));
  }

  lemma ElemsLive(h: Heap, c: Cell)
    requires ValidHeap(h) && Elems(h, c).Some?
    ensures Live(h, c.val)
  {
  }

  /** The result block after `i` elements. */
  ghost predicate Mapped(s: State, h: Heap, outs: seq<Value>, i: nat)
    requires ValidState(s)
  {
    && Filling(s.heap, h, s.cur, |outs|) && h[s.cur].mem[s.heap[s.cur].head + 1].val == |outs|
    && Results(h, s.cur, HoleOf(s.heap, s.cur, |outs|), s.scopes, |s.stack|, s.heap[s.cur].head + 2, outs, i)
  }

  lemma MappedGrown(s: State, h: Heap, h': Heap, outs: seq<Value>, i: nat)
    requires ValidState(s) && Mapped(s, h, outs, i) && ValidHeap(h') && Grown(h, h')
    ensures Mapped(s, h', outs, i)
  {
    hide Kept, Results;
    ResultsGrown(h, h', s.cur, HoleOf(s.heap, s.cur, |outs|), s.scopes, |s.stack|, s.heap[s.cur].head + 2, outs, i);
  }

  lemma MappedWrite(s: State, vals: seq<Value>, h: Heap, outs: seq<Value>, i: nat, c: Cell)
    requires Calm(s, NONE, vals) && Mapped(s, h, outs, i) && i < |outs|
    requires Kept(h, s.cur, HoleOf(s.heap, s.cur, |outs|), s.scopes, |s.stack|, c, outs[i])
    ensures var at := s.heap[s.cur].head + 2 + i;
      at < MAX_HEAP && h[s.cur].active && ValidHeap(Write(h, s.cur, at, c)) && Mapped(s, Write(h, s.cur, at, c), outs, i + 1)
  {
    hide Kept, Results, Guarded;
    CalmSize(s, NONE, vals);
    var n, a, lo := |outs|, s.cur, s.heap[s.cur].head;
    FillingWrite(s.heap, h, a, n, lo + 2 + i, c);
    ResultsWrite(h, a, HoleOf(s.heap, a, n), s.scopes, |s.stack|, lo + 2, outs, i, c);
  }

  lemma MappedStart(s: State, vals: seq<Value>, outs: seq<Value>)
    requires Calm(s, NONE, vals) && Room(s.heap, s.cur, 2 + |outs|)
    ensures Mapped(s, Headed(s.heap, s.cur, |outs|), outs, 0)
  {
    hide Guarded, Headed;
    HeadedFilling(s.heap, s.cur, |outs|);
  }

  /** The block is complete and its pointer pushed. */
  lemma MappedDone(s: State, t: State, h: Heap, vals: seq<Value>, outs: seq<Value>)
    requires Calm(s, NONE, vals) && Mapped(s, h, outs, |outs|) && ValidState(t)
    requires t == s.(heap := h, stack := s.stack + [Cell(Pack(s.heap[s.cur].gen, s.cur, s.heap[s.cur].head), T_OBJ)])
    ensures Delivered(s, t, vals, L.Arr(outs))
  {
    hide Kept, Results, Guarded, Pack, Grown;
    Filled(s, h, |outs|, vals, HoleOf(s.heap, s.cur, |outs|), outs);
    Pushed(s, t, h, vals, Top(t, 0), L.Arr(outs));
  }

  lemma Pushed(s: State, t: State, h: Heap, vals: seq<Value>, c: Cell, v: Value)
    requires Calm(s, NONE, vals) && ValidState(t) && ValidHeap(h) && Grown(s.heap, h)
    requires t == s.(heap := h, stack := s.stack + [c]) && Kept(h, s.cur, NONE, s.scopes, |s.stack|, c, v)
    ensures Delivered(s, t, vals, v)
  {
    hide Kept, Guarded, Grown;
    GuardGrown(s.heap, h, s.cur, NONE, s.scopes, s.stack, vals);
    GuardPush(h, s.cur, NONE, s.scopes, s.stack, vals, c, v);
  }

  /** for_list(f, list): the result is the list of what f returns for each element. */
  method ForList(vm: Vm, addr: int, limit: nat, ghost g: Target, ghost vals: seq<Value>, ghost name: Value,
                 ghost list: Value, ghost outs: seq<Value>) returns (r: Status)
    requires vm.Valid() && Handed(vm.View(), vals, [name, list]) && (addr >= 0 ==> Compiled(vm.program, g, addr))
    requires addr >= 0 && L.IsArr(list) ==>
      |outs| == |list.kids| && forall i :: 0 <= i < |outs| ==> Returns(g, [list.kids[i]], outs[i])
    modifies vm, vm.stack, vm.stackTypes, vm.scopeStack, vm.arenas, vm.memory, vm.types
    ensures vm.Valid()
    ensures r == Failed <==> !(IsName(name) && L.IsArr(list) && addr >= 0)
    ensures r == Finished ==> Delivered(Drop(old(vm.View()), 2), vm.View(), vals, L.Arr(outs))
    ensures r == Full || r == Running ==>
      var s := Drop(old(vm.View()), 2);
      var cells := Elems(s.heap, Top(old(vm.View()), 0));
      ValidState(s) && cells.Some? && Interrupted(vm.program, s, addr, cells.value, None, limit, r)
  {
    hide Vm.Heap, Vm.Stack, Vm.Scopes, Vm.Cells, Guarded, Linked, Kept, Grown, L.Invoke, Pack, Off, Region, Gen, Headed, Elems, Results, Filling, Interrupted;
    Taken(vm.View(), vals, [name, list]);
    ghost var s0 := vm.View();
    var listRef, listType, funcVal, funcType;
    r, listRef, listType := vm.Pop();
    r, funcVal, funcType := vm.Pop();
    ghost var s := vm.View();
    ghost var c := Cell(listRef, listType);
    assert s == Drop(s0, 2) && |s.stack| == |vals|;
    assert c == s0.stack[|vals| + 1] && Cell(funcVal, funcType) == s0.stack[|vals| + 0];
    assert [name, list][0] == name && [name, list][1] == list;
    Tested(s.heap, s.cur, s.scopes, |s.stack|, c, list);
    Tested(s.heap, s.cur, s.scopes, |s.stack|, Cell(funcVal, funcType), name);
    if listType != T_OBJ { return Failed; }
    var len := vm.ArrayLength(listRef, listType);
    if len < 0 || funcType != T_STR || addr < 0 { return Failed; }
    assert L.IsArr(list) && L.Arr(list.kids) == list && c == Cell(listRef, T_OBJ) && len == |list.kids| by {
      ElemsOf(s.heap, s.cur, NONE, s.scopes, |s.stack|, |s.stack|, c, list.kids) by { CalmSize(s, NONE, vals); }
    }
    r := MapElements(vm, addr, listRef, len, limit, g, vals, list.kids, outs);
  }

  /** The loop of for_list over a list that unfolds to `kids`. */
  method MapElements(vm: Vm, addr: int, listRef: int, len: nat, limit: nat, ghost g: Target, ghost vals: seq<Value>,
                     ghost kids: seq<Value>, ghost outs: seq<Value>) returns (r: Status)
    requires vm.Valid() && Calm(vm.View(), NONE, vals) && Compiled(vm.program, g, addr)
    requires Kept(vm.Heap(), vm.currentArena, NONE, vm.Scopes(), |vm.Stack()|, Cell(listRef, T_OBJ), L.Arr(kids))
    requires len == |kids| == |outs| && forall i :: 0 <= i < |outs| ==> Returns(g, [kids[i]], outs[i])
    modifies vm, vm.stack, vm.stackTypes, vm.scopeStack, vm.arenas, vm.memory, vm.types
    ensures vm.Valid() && r != Failed
    ensures r == Finished ==> Delivered(old(vm.View()), vm.View(), vals, L.Arr(outs))
    ensures r != Finished ==>
      var cells := Elems(old(vm.Heap()), Cell(listRef, T_OBJ));
      cells.Some? && Interrupted(vm.program, old(vm.View()), addr, cells.value, None, limit, r)
  {
    hide Vm.Heap, Vm.Stack, Vm.Scopes, Vm.Cells, Guarded, Linked, Kept, Grown, L.Invoke, Pack, Off, Region, Gen, Headed, Elems, Mapped, Cut;
    hide Careful, Ready, HoleOf, Rep, Results;
    ghost var s := vm.View();
    CalmSize(s, NONE, vals);
    ListRead(s, vals, Cell(listRef, T_OBJ), kids);
    assert ValidState(s) && g.f < |g.fs|;
    assert s.heap[s.cur].active && 0 <= s.cur < MAX_ARENAS;
    hide Compiled, Calm, ScopesOk;
    var savedIp := vm.ip;
    var a, at := vm.currentArena, vm.arenas[vm.currentArena].head + 2;
    var ptr;
    r, ptr := vm.StartArray(len);
    if r != Running { return; }
    MappedStart(s, vals, outs);
    var i := 0;
    while i < len
      invariant 0 <= i <= len && vm.Valid() && vm.View() == s.(ip := vm.ip, heap := vm.Heap())
      invariant Mapped(s, vm.Heap(), outs, i)
    {
      ElementReady(vm, s, vals, Cell(listRef, T_OBJ), kids, outs, i);
      var val, ty := vm.memory[Region(listRef), Off(listRef) + 2 + i], vm.types[Region(listRef), Off(listRef) + 2 + i];
      var res, resType;
      ghost var h := vm.Heap();
      ghost var ip := vm.ip;
      r, res, resType := Apply(vm, addr, val, ty, None, limit, g, HoleOf(s.heap, s.cur, len), vals, [kids[i]], outs[i]);
      if r != Finished {
        MappedHeap(s, h, outs, i);
        CutFrom(vm.program, s, ip, h, addr, Elems(s.heap, Cell(listRef, T_OBJ)).value, i, None, limit, r);
        return;
      }
      MappedGrown(s, h, vm.Heap(), outs, i);
      MappedWrite(s, vals, vm.Heap(), outs, i, Cell(res, resType));
      vm.SetCell(a, at + i, res, resType);
      i := i + 1;
    }
    vm.ip := savedIp;
    ghost var h := vm.Heap();
    r := vm.Push(ptr, T_OBJ);
    if r == Running {
      MappedDone(s, vm.View(), h, vals, outs);
      r := Finished;
    }
  }

  lemma MappedHeap(s: State, h: Heap, outs: seq<Value>, i: nat)
    requires ValidState(s) && Mapped(s, h, outs, i)
    ensures ValidHeap(h) && Grown(s.heap, h)
  {
    hide Results;
  }

  lemma NoRoom(p: Program, s: State, addr: int, cells: seq<Cell>, param: Option<Cell>, limit: nat)
    requires ValidState(s)
    ensures s.heap[s.cur].head + 2 + |cells| >= MAX_HEAP || |s.stack| == STACK_SIZE ==> Interrupted(p, s, addr, cells, param, limit, Full)
  {
  }

  /** A callback that is cut interrupts the native. */
  lemma CutFrom(p: Program, s: State, ip: int, h: Heap, addr: int, cells: seq<Cell>, i: nat, param: Option<Cell>, limit: nat, r: Status)
    requires ValidState(s) && ValidHeap(h) && Grown(s.heap, h) && i < |cells|
    requires ValidState(s.(ip := ip, heap := h)) && Cut(p, s.(ip := ip, heap := h), h, addr, cells[i], param, limit, r)
    ensures Interrupted(p, s, addr, cells, param, limit, r)
  {
    hide Machine.Run, Grown, ValidState;
    assert Framed(p, s.(ip := ip, heap := h).(heap := h), addr, Arguments(cells[i].val, cells[i].tag, param))
        == Framed(p, s.(heap := h), addr, Arguments(cells[i].val, cells[i].tag, param));
    assert Cut(p, s, h, addr, cells[i], param, limit, r);
  }

  /** The next element, read from memory, is fit to be an argument. */
  lemma ElementReady(vm: Vm, s: State, vals: seq<Value>, c: Cell, kids: seq<Value>, outs: seq<Value>, i: nat)
    requires vm.Valid() && Calm(s, NONE, vals) && vm.View() == s.(ip := vm.ip, heap := vm.Heap())
    requires Kept(s.heap, s.cur, NONE, s.scopes, |s.stack|, c, L.Arr(kids)) && i < |kids| == |outs|
    requires Mapped(s, vm.Heap(), outs, i)
    ensures 0 <= Region(c.val) < MAX_ARENAS && 0 <= Off(c.val) + 2 + i < MAX_HEAP
    ensures Calm(vm.View(), HoleOf(s.heap, s.cur, |outs|), vals)
    ensures var r, at := Region(c.val), Off(c.val) + 2 + i;
      && Ready(vm.View(), HoleOf(s.heap, s.cur, |outs|), Arguments(vm.memory[r, at], vm.types[r, at], None), [kids[i]])
      && Elems(s.heap, c).Some? && |Elems(s.heap, c).value| == |kids|
      && Cell(vm.memory[r, at], vm.types[r, at]) == Elems(s.heap, c).value[i]
  {
    hide Vm.Stack, Vm.Scopes, Guarded, Kept, Grown, Off, Region, Filling, Elems;
    CalmSize(s, NONE, vals);
    CalmHeld(s, vm.View(), |outs|, vals);
    ElementHeld(s, vm.Heap(), |outs|, c, kids, i);
  }

  // ---- filter and param_filter ----

  /** The verdicts that keep an element. */
  predicate Passes(v: Value) {
    v.Leaf? && v.tag == T_NUM && v.val != 0
  }

  /** The positions of the passing verdicts, in order. */
  function Chosen(outs: seq<Value>): (r: seq<nat>)
    ensures |r| <= |outs| && forall j :: 0 <= j < |r| ==> r[j] < |outs|
  {
    if outs == [] then []
    else
      var n := |outs| - 1;
      Chosen(outs[..n]) + if Passes(outs[n]) then [n] else []
  }

  /** Chosen lists exactly the passing positions, each once and in order. */
  lemma {:induction false} ChosenIff(outs: seq<Value>)
    ensures forall i: nat :: i in Chosen(outs) <==> i < |outs| && outs[i].Leaf? && outs[i].tag == T_NUM && outs[i].val != 0
    ensures forall j, k :: 0 <= j < k < |Chosen(outs)| ==> Chosen(outs)[j] < Chosen(outs)[k]
  {
    if outs != [] {
      ChosenIff(outs[..|outs| - 1]);
    }
  }

  /** The elements whose verdict passes. */
  function Sieve<T>(xs: seq<T>, outs: seq<Value>): (r: seq<T>)
    requires |xs| == |outs|
  {
    seq(|Chosen(outs)|, j requires 0 <= j < |Chosen(outs)| => xs[Chosen(outs)[j]])
  }

  /** A further element is appended if its verdict is a number other than 0, and otherwise left out. */
  lemma SieveLaws<T>(xs: seq<T>, outs: seq<Value>, x: T, v: Value)
    requires |xs| == |outs|
    ensures Sieve<T>([], []) == []
    ensures Sieve(xs + [x], outs + [v]) == Sieve(xs, outs) + if v.Leaf? && v.tag == T_NUM && v.val != 0 then [x] else []
  {
    assert (outs + [v])[..|outs|] == outs;
  }

  /** The result block of a filter after `i` elements of `cells`. */
  ghost predicate Sifted(s: State, h: Heap, cells: seq<Cell>, outs: seq<Value>, i: nat)
    requires ValidState(s) && i <= |outs| == |cells|
  {
    var kept, lo := Chosen(outs[..i]), s.heap[s.cur].head;
    && Filling(s.heap, h, s.cur, |outs|)
    && forall j :: 0 <= j < |kept| ==> h[s.cur].mem[lo + 2 + j] == cells[kept[j]]
  }

  lemma SiftedGrown(s: State, h: Heap, h': Heap, cells: seq<Cell>, outs: seq<Value>, i: nat)
    requires ValidState(s) && i <= |outs| == |cells| && Sifted(s, h, cells, outs, i) && ValidHeap(h') && Grown(h, h')
    ensures Sifted(s, h', cells, outs, i)
  {
    StillFilling(s.heap, h, h', s.cur, |outs|);
  }

  /** The verdict on element `i` decides whether it is written. */
  lemma SiftedNext(s: State, h: Heap, cells: seq<Cell>, outs: seq<Value>, i: nat, c: Cell)
    requires ValidState(s) && i < |outs| == |cells| && Sifted(s, h, cells, outs, i) && c == cells[i]
    ensures var at := s.heap[s.cur].head + 2 + |Chosen(outs[..i])|;
      && at < MAX_HEAP && h[s.cur].active && ValidHeap(Write(h, s.cur, at, c))
      && |Chosen(outs[..i + 1])| == |Chosen(outs[..i])| + Bit(Passes(outs[i]))
      && Sifted(s, if Passes(outs[i]) then Write(h, s.cur, at, c) else h, cells, outs, i + 1)
  {
    assert outs[..i + 1][..i] == outs[..i];
    assert Chosen(outs[..i + 1]) == Chosen(outs[..i]) + if Passes(outs[i]) then [i] else [];
    FillingWrite(s.heap, h, s.cur, |outs|, s.heap[s.cur].head + 2 + |Chosen(outs[..i])|, c);
  }

  lemma SiftedStart(s: State, cells: seq<Cell>, outs: seq<Value>, ty: int)
    requires ValidState(s) && |outs| == |cells| && Room(s.heap, s.cur, 2 + |outs|)
    ensures var h := WithHead(s.heap, s.cur, s.heap[s.cur].head + 2 + |outs|);
      Sifted(s, Write(h, s.cur, s.heap[s.cur].head, Cell(TYPE_ARRAY, ty)), cells, outs, 0)
  {
    assert outs[..0] == [];
  }

  /** With the length written, the block is an array of the elements that passed. */
  lemma SiftedDone(s: State, vals: seq<Value>, h: Heap, c: Cell, kids: seq<Value>, outs: seq<Value>, ty: int)
    requires Calm(s, NONE, vals) && |outs| == |kids|
    requires Kept(s.heap, s.cur, NONE, s.scopes, |s.stack|, c, L.Arr(kids))
    requires Elems(s.heap, c).Some? && |Elems(s.heap, c).value| == |kids|
    requires Sifted(s, h, Elems(s.heap, c).value, outs, |outs|)
    ensures var at := s.heap[s.cur].head + 1;
      var h' := Write(h, s.cur, at, Cell(|Chosen(outs)|, ty));
      && at < MAX_HEAP && h[s.cur].active && ValidHeap(h') && Grown(s.heap, h')
      && Kept(h', s.cur, NONE, s.scopes, |s.stack|, Cell(Pack(s.heap[s.cur].gen, s.cur, s.heap[s.cur].head), T_OBJ),
              L.Arr(Sieve(kids, outs)))
  {
    hide Guarded, Kept, Pack, Elems, Off, Region;
    var n, a, lo, kept := |outs|, s.cur, s.heap[s.cur].head, Sieve(kids, outs);
    var h' := Write(h, a, lo + 1, Cell(|kept|, ty));
    assert outs[..n] == outs;
    FillingWrite(s.heap, h, a, n, lo + 1, Cell(|kept|, ty));
    CalmSize(s, NONE, vals);
    forall j | 0 <= j < |kept| ensures Kept(h', a, NONE, s.scopes, |s.stack|, h'[a].mem[lo + 2 + j], kept[j]) {
      ElementHeld(s, h', n, c, kids, Chosen(outs)[j]);
    }
    Filled(s, h', n, vals, NONE, kept);
  }

  /** The second argument of a param_filter callback, if there is one. */
  ghost predicate Extra(s: State, param: Option<Cell>, extra: seq<Value>)
    requires ValidState(s)
  {
    if param.None? then extra == []
    else |extra| == 1 && Kept(s.heap, s.cur, NONE, s.scopes, |s.stack|, param.value, extra[0])
  }

  lemma CandidateReady(vm: Vm, s: State, vals: seq<Value>, c: Cell, kids: seq<Value>, n: nat, i: nat,
                       param: Option<Cell>, extra: seq<Value>)
    requires vm.Valid() && Calm(s, NONE, vals) && vm.View() == s.(ip := vm.ip, heap := vm.Heap())
    requires Kept(s.heap, s.cur, NONE, s.scopes, |s.stack|, c, L.Arr(kids)) && i < |kids| && Extra(s, param, extra)
    requires Filling(s.heap, vm.Heap(), s.cur, n)
    ensures 0 <= Region(c.val) < MAX_ARENAS && 0 <= Off(c.val) + 2 + i < MAX_HEAP
    ensures Calm(vm.View(), NONE, vals)
    ensures var r, at := Region(c.val), Off(c.val) + 2 + i;
      && Ready(vm.View(), NONE, Arguments(vm.memory[r, at], vm.types[r, at], param), [kids[i]] + extra)
      && Elems(s.heap, c).Some? && |Elems(s.heap, c).value| == |kids|
      && Cell(vm.memory[r, at], vm.types[r, at]) == Elems(s.heap, c).value[i]
  {
    hide Vm.Stack, Vm.Scopes, Guarded, Kept, Grown, Off, Region, Filling, Elems;
    CalmSize(s, NONE, vals);
    CalmHeld(s, vm.View(), n, vals);
    ElementHeld(s, vm.Heap(), n, c, kids, i);
    if param.Some? {
      KeptHeld(s.heap, vm.Heap(), s.cur, n, s.scopes, |s.stack|, param.value, extra[0]);
    }
  }

  /** The result test of the filters. */
  lemma Judged(h: Heap, a: int, scopes: seq<Scope>, i: int, c: Cell, v: Value)
    requires ValidHeap(h) && Kept(h, a, NONE, scopes, i, c, v)
    ensures c.tag == T_NUM && c.val != 0 <==> Passes(v)
  {
  }

  /** The block for as many elements as the list has; its length is written last. */
  method StartSift(vm: Vm, len: nat, ghost vals: seq<Value>, ghost cells: seq<Cell>, ghost outs: seq<Value>)
    returns (r: Status, ptr: int)
    requires vm.Valid() && Calm(vm.View(), NONE, vals) && len == |outs| == |cells|
    modifies vm.arenas, vm.memory, vm.types
    ensures vm.Valid() && (r == Running || r == Full)
    ensures r == Full ==> old(vm.arenas[vm.currentArena].head) + 2 + len >= MAX_HEAP
    ensures r == Running ==>
      var s := old(vm.View());
      && vm.View() == s.(heap := vm.Heap()) && Sifted(s, vm.Heap(), cells, outs, 0)
      && ptr == Pack(s.heap[s.cur].gen, s.cur, s.heap[s.cur].head)
  {
    hide Vm.Heap, Vm.Stack, Vm.Scopes, Vm.Cells, Guarded, Pack, Sifted;
    ghost var s := vm.View();
    CalmSize(s, NONE, vals);
    var a, lo := vm.currentArena, vm.arenas[vm.currentArena].head;
    r, ptr := vm.HeapAlloc(len + 2);
    if r != Running { return; }
    SiftedStart(s, cells, outs, vm.types[a, lo]);
    vm.SetCell(a, lo, TYPE_ARRAY, vm.types[a, lo]);
  }

  /** The loop of filter and param_filter over a list that unfolds to `kids`; `lo` is where the block
      begins, and the result how many elements were kept. */
  method SiftLoop(vm: Vm, addr: int, listRef: int, len: nat, param: Option<Cell>, lo: int, limit: nat, ghost g: Target,
                  ghost s: State, ghost vals: seq<Value>, ghost kids: seq<Value>, ghost extra: seq<Value>, ghost outs: seq<Value>)
    returns (r: Status, kept: nat)
    requires vm.Valid() && Calm(s, NONE, vals) && Compiled(vm.program, g, addr) && lo == s.heap[s.cur].head
    requires Kept(s.heap, s.cur, NONE, s.scopes, |s.stack|, Cell(listRef, T_OBJ), L.Arr(kids)) && Extra(s, param, extra)
    requires len == |kids| == |outs| && forall i :: 0 <= i < |outs| ==> Returns(g, [kids[i]] + extra, outs[i])
    requires Elems(s.heap, Cell(listRef, T_OBJ)).Some? && |Elems(s.heap, Cell(listRef, T_OBJ)).value| == len
    requires vm.View() == s.(ip := vm.ip, heap := vm.Heap())
    requires Sifted(s, vm.Heap(), Elems(s.heap, Cell(listRef, T_OBJ)).value, outs, 0)
    modifies vm, vm.stack, vm.stackTypes, vm.scopeStack, vm.arenas, vm.memory, vm.types
    ensures vm.Valid() && r != Failed
    ensures r == Finished ==>
      && vm.View() == s.(ip := vm.ip, heap := vm.Heap()) && kept == |Chosen(outs)|
      && Sifted(s, vm.Heap(), Elems(s.heap, Cell(listRef, T_OBJ)).value, outs, |outs|)
    ensures r != Finished ==> Interrupted(vm.program, s, addr, Elems(s.heap, Cell(listRef, T_OBJ)).value, param, limit, r)
  {
    hide Vm.Heap, Vm.Stack, Vm.Scopes, Vm.Cells, Guarded, Linked, Kept, Grown, L.Invoke, Off, Region, Elems, Sifted,
      Chosen, Ready, Extra;
    ghost var c := Cell(listRef, T_OBJ);
    ghost var cells := Elems(s.heap, c).value;
    var i := 0;
    r, kept := Finished, 0;
    assert outs[..0] == [] && |Chosen([])| == 0;
    while i < len
      invariant 0 <= i <= len && vm.Valid() && vm.View() == s.(ip := vm.ip, heap := vm.Heap()) && r == Finished
      invariant kept == |Chosen(outs[..i])| && Sifted(s, vm.Heap(), cells, outs, i)
    {
      CandidateReady(vm, s, vals, c, kids, len, i, param, extra) by { SiftedFilling(s, vm.Heap(), cells, outs, i); }
      var val, ty := vm.memory[Region(listRef), Off(listRef) + 2 + i], vm.types[Region(listRef), Off(listRef) + 2 + i];
      var res, resType;
      ghost var h := vm.Heap();
      ghost var ip := vm.ip;
      r, res, resType := Apply(vm, addr, val, ty, param, limit, g, NONE, vals, [kids[i]] + extra, outs[i]);
      if r != Finished {
        SiftedHeap(s, h, cells, outs, i);
        CutFrom(vm.program, s, ip, h, addr, cells, i, param, limit, r);
        return;
      }
      Judged(vm.Heap(), s.cur, s.scopes, |s.stack|, Cell(res, resType), outs[i]);
      SiftedGrown(s, h, vm.Heap(), cells, outs, i);
      SiftedNext(s, vm.Heap(), cells, outs, i, Cell(val, ty));
      if resType == T_NUM && res != 0 {
        vm.SetCell(vm.currentArena, lo + 2 + kept, val, ty);
        kept := kept + 1;
      }
      i := i + 1;
    }
    assert outs[..len] == outs;
  }

  method SiftElements(vm: Vm, addr: int, listRef: int, len: nat, param: Option<Cell>, limit: nat, ghost g: Target,
                      ghost vals: seq<Value>, ghost kids: seq<Value>, ghost extra: seq<Value>, ghost outs: seq<Value>)
    returns (r: Status)
    requires vm.Valid() && Calm(vm.View(), NONE, vals) && Compiled(vm.program, g, addr)
    requires Kept(vm.Heap(), vm.currentArena, NONE, vm.Scopes(), |vm.Stack()|, Cell(listRef, T_OBJ), L.Arr(kids))
    requires Extra(vm.View(), param, extra)
    requires len == |kids| == |outs| && forall i :: 0 <= i < |outs| ==> Returns(g, [kids[i]] + extra, outs[i])
    modifies vm, vm.stack, vm.stackTypes, vm.scopeStack, vm.arenas, vm.memory, vm.types
    ensures vm.Valid() && r != Failed
    ensures r == Finished ==> Delivered(old(vm.View()), vm.View(), vals, L.Arr(Sieve(kids, outs)))
    ensures r != Finished ==>
      var cells := Elems(old(vm.Heap()), Cell(listRef, T_OBJ));
      cells.Some? && Interrupted(vm.program, old(vm.View()), addr, cells.value, param, limit, r)
  {
    hide Vm.Heap, Vm.Stack, Vm.Scopes, Vm.Cells, Guarded, Linked, Kept, Grown, L.Invoke, Pack, Off, Region, Elems, Sifted,
      Chosen, Sieve, Extra, Interrupted, Careful, Returns;
    ghost var s, c := vm.View(), Cell(listRef, T_OBJ);
    ListRead(s, vals, c, kids);
    NoRoom(vm.program, s, addr, Elems(s.heap, c).value, param, limit);
    assert ValidState(s);
    var savedIp, lo := vm.ip, vm.arenas[vm.currentArena].head;
    var ptr, kept;
    r, ptr := StartSift(vm, len, vals, Elems(s.heap, c).value, outs);
    if r != Running { return; }
    r, kept := SiftLoop(vm, addr, listRef, len, param, lo, limit, g, s, vals, kids, extra, outs);
    if r != Finished { return; }
    vm.ip := savedIp;
    r := SealSift(vm, ptr, lo, kept, s, vals, c, kids, outs);
  }

  /** The length is written and the result pushed. */
  method SealSift(vm: Vm, ptr: int, lo: int, kept: nat, ghost s: State, ghost vals: seq<Value>, ghost c: Cell,
                  ghost kids: seq<Value>, ghost outs: seq<Value>) returns (r: Status)
    requires vm.Valid() && Calm(s, NONE, vals) && vm.View() == s.(heap := vm.Heap()) && |outs| == |kids| && kept == |Chosen(outs)|
    requires Kept(s.heap, s.cur, NONE, s.scopes, |s.stack|, c, L.Arr(kids))
    requires Elems(s.heap, c).Some? && |Elems(s.heap, c).value| == |kids|
    requires Sifted(s, vm.Heap(), Elems(s.heap, c).value, outs, |outs|)
    requires lo == s.heap[s.cur].head && ptr == Pack(s.heap[s.cur].gen, s.cur, lo)
    modifies vm`sp, vm.stack, vm.stackTypes, vm.memory, vm.types
    ensures vm.Valid() && (r == Finished || (r == Full && |s.stack| == STACK_SIZE))
    ensures r == Finished ==> Delivered(s, vm.View(), vals, L.Arr(Sieve(kids, outs)))
  {
    hide Vm.Heap, Vm.Stack, Vm.Scopes, Vm.Cells, Guarded, Kept, Grown, Pack, Off, Region, Elems, Sifted, Chosen, Sieve;
    var a := vm.currentArena;
    SiftedRoom(s, vm.Heap(), Elems(s.heap, c).value, outs);
    SiftedDone(s, vals, vm.Heap(), c, kids, outs, vm.types[a, lo + 1]);
    hide Calm;
    vm.SetCell(a, lo + 1, kept, vm.types[a, lo + 1]);
    ghost var h := vm.Heap();
    r := vm.Push(ptr, T_OBJ);
    if r == Running {
      Pushed(s, vm.View(), h, vals, Cell(ptr, T_OBJ), L.Arr(Sieve(kids, outs)));
      r := Finished;
    }
  }

  lemma SiftedHeap(s: State, h: Heap, cells: seq<Cell>, outs: seq<Value>, i: nat)
    requires ValidState(s) && i <= |outs| == |cells| && Sifted(s, h, cells, outs, i)
    ensures ValidHeap(h) && Grown(s.heap, h)
  {
  }

  lemma SiftedRoom(s: State, h: Heap, cells: seq<Cell>, outs: seq<Value>)
    requires ValidState(s) && |outs| == |cells| && Sifted(s, h, cells, outs, |outs|)
    ensures 0 <= s.heap[s.cur].head && s.heap[s.cur].head + 1 < MAX_HEAP
  {
  }

  lemma SiftedFilling(s: State, h: Heap, cells: seq<Cell>, outs: seq<Value>, i: nat)
    requires ValidState(s) && i <= |outs| == |cells| && Sifted(s, h, cells, outs, i)
    ensures Filling(s.heap, h, s.cur, |outs|)
  {
  }

  lemma ListRead(s: State, vals: seq<Value>, c: Cell, kids: seq<Value>)
    requires Calm(s, NONE, vals) && Kept(s.heap, s.cur, NONE, s.scopes, |s.stack|, c, L.Arr(kids))
    ensures Elems(s.heap, c).Some? && |Elems(s.heap, c).value| == |kids|
  {
    hide Kept, Guarded;
    CalmSize(s, NONE, vals);
    ElemsOf(s.heap, s.cur, NONE, s.scopes, |s.stack|, |s.stack|, c, kids);
  }

  /** filter(list, f): the elements for which f returns a number other than zero, in their order. */
  method Filter(vm: Vm, addr: int, limit: nat, ghost g: Target, ghost vals: seq<Value>, ghost list: Value,
                ghost name: Value, ghost outs: seq<Value>) returns (r: Status)
    requires vm.Valid() && Handed(vm.View(), vals, [list, name]) && (addr >= 0 ==> Compiled(vm.program, g, addr))
    requires addr >= 0 && L.IsArr(list) ==>
      |outs| == |list.kids| && forall i :: 0 <= i < |outs| ==> Returns(g, [list.kids[i]], outs[i])
    modifies vm, vm.stack, vm.stackTypes, vm.scopeStack, vm.arenas, vm.memory, vm.types
    ensures vm.Valid()
    ensures r == Failed <==> !(IsName(name) && L.IsArr(list) && addr >= 0)
    ensures r == Finished ==> Delivered(Drop(old(vm.View()), 2), vm.View(), vals, L.Arr(Sieve(list.kids, outs)))
    ensures r == Full || r == Running ==>
      var s := Drop(old(vm.View()), 2);
      var cells := Elems(s.heap, Top(old(vm.View()), 1));
      ValidState(s) && cells.Some? && Interrupted(vm.program, s, addr, cells.value, None, limit, r)
  {
    hide Vm.Heap, Vm.Stack, Vm.Scopes, Vm.Cells, Guarded, Linked, Kept, Grown, L.Invoke, Pack, Off, Region, Gen, Elems, Interrupted;
    Taken(vm.View(), vals, [list, name]);
    ghost var s0 := vm.View();
    var funcVal, funcType, listRef, listType;
    r, funcVal, funcType := vm.Pop();
    r, listRef, listType := vm.Pop();
    ghost var s := vm.View();
    ghost var c := Cell(listRef, listType);
    assert s == Drop(s0, 2) && |s.stack| == |vals|;
    assert c == s0.stack[|vals| + 0] && Cell(funcVal, funcType) == s0.stack[|vals| + 1];
    assert [list, name][0] == list && [list, name][1] == name;
    Tested(s.heap, s.cur, s.scopes, |s.stack|, c, list);
    Tested(s.heap, s.cur, s.scopes, |s.stack|, Cell(funcVal, funcType), name);
    if listType != T_OBJ || funcType != T_STR { return Failed; }
    var len := vm.ArrayLength(listRef, listType);
    if len < 0 || addr < 0 { return Failed; }
    assert L.Arr(list.kids) == list && c == Cell(listRef, T_OBJ);
    ListRead(s, vals, c, list.kids);
    assert forall i :: 0 <= i < |outs| ==> [list.kids[i]] + [] == [list.kids[i]];
    r := SiftElements(vm, addr, listRef, len, None, limit, g, vals, list.kids, [], outs);
  }

  /** param_filter(list, f, x): f gets x as its second argument each time. */
  method ParamFilter(vm: Vm, addr: int, limit: nat, ghost g: Target, ghost vals: seq<Value>, ghost list: Value,
                     ghost name: Value, ghost x: Value, ghost outs: seq<Value>) returns (r: Status)
    requires vm.Valid() && Handed(vm.View(), vals, [list, name, x]) && (addr >= 0 ==> Compiled(vm.program, g, addr))
    requires addr >= 0 && L.IsArr(list) ==>
      |outs| == |list.kids| && forall i :: 0 <= i < |outs| ==> Returns(g, [list.kids[i]] + [x], outs[i])
    modifies vm, vm.stack, vm.stackTypes, vm.scopeStack, vm.arenas, vm.memory, vm.types
    ensures vm.Valid()
    ensures r == Failed <==> !(IsName(name) && L.IsArr(list) && addr >= 0)
    ensures r == Finished ==> Delivered(Drop(old(vm.View()), 3), vm.View(), vals, L.Arr(Sieve(list.kids, outs)))
    ensures r == Full || r == Running ==>
      var s, t := Drop(old(vm.View()), 3), old(vm.View());
      var cells := Elems(s.heap, Top(t, 2));
      ValidState(s) && cells.Some? && Interrupted(vm.program, s, addr, cells.value, Some(Top(t, 0)), limit, r)
  {
    hide Vm.Heap, Vm.Stack, Vm.Scopes, Vm.Cells, Guarded, Linked, Kept, Grown, L.Invoke, Pack, Off, Region, Gen, Elems, Interrupted;
    Taken(vm.View(), vals, [list, name, x]);
    ghost var s0 := vm.View();
    var paramVal, paramType, funcVal, funcType, listRef, listType;
    r, paramVal, paramType := vm.Pop();
    r, funcVal, funcType := vm.Pop();
    r, listRef, listType := vm.Pop();
    ghost var s := vm.View();
    ghost var c := Cell(listRef, listType);
    assert s == Drop(s0, 3) && |s.stack| == |vals|;
    assert c == s0.stack[|vals| + 0] && Cell(funcVal, funcType) == s0.stack[|vals| + 1];
    assert Cell(paramVal, paramType) == s0.stack[|vals| + 2];
    assert [list, name, x][0] == list && [list, name, x][1] == name && [list, name, x][2] == x;
    Tested(s.heap, s.cur, s.scopes, |s.stack|, c, list);
    Tested(s.heap, s.cur, s.scopes, |s.stack|, Cell(funcVal, funcType), name);
    if listType != T_OBJ || funcType != T_STR { return Failed; }
    var len := vm.ArrayLength(listRef, listType);
    if len < 0 || addr < 0 { return Failed; }
    assert L.Arr(list.kids) == list && c == Cell(listRef, T_OBJ);
    ListRead(s, vals, c, list.kids);
    r := SiftElements(vm, addr, listRef, len, Some(Cell(paramVal, paramType)), limit, g, vals, list.kids, [x], outs);
  }

  // ---- call ----

  /** The elements of an array go onto the stack. */
  method PushElements(vm: Vm, arrVal: int, argc: nat) returns (r: Status)
    requires vm.Valid() && Elems(vm.Heap(), Cell(arrVal, T_OBJ)).Some? && argc == |Elems(vm.Heap(), Cell(arrVal, T_OBJ)).value|
    modifies vm`sp, vm.stack, vm.stackTypes
    ensures vm.Valid()
    ensures var s, args := old(vm.View()), Elems(old(vm.Heap()), Cell(arrVal, T_OBJ)).value;
      if |s.stack| + |args| > STACK_SIZE then r == Full else r == Running && vm.View() == s.(stack := s.stack + args)
  {
    hide Vm.Heap, Vm.Stack, Vm.Scopes, Elems, Off, Region, Gen;
    ghost var s, args := vm.View(), Elems(vm.Heap(), Cell(arrVal, T_OBJ)).value;
    ElemsPlaced(vm.Heap(), Cell(arrVal, T_OBJ));
    r := Running;
    var i := 0;
    while i < argc
      invariant 0 <= i <= argc && vm.Valid() && r == Running && vm.View() == s.(stack := s.stack + args[..i])
    {
      var val, ty := vm.memory[Region(arrVal), Off(arrVal) + 2 + i], vm.types[Region(arrVal), Off(arrVal) + 2 + i];
      assert Cell(val, ty) == args[i] && s.stack + args[..i] + [args[i]] == s.stack + args[..i + 1];
      r := vm.Push(val, ty);
      if r != Running { return; }
      i := i + 1;
    }
    assert args[..argc] == args;
  }

  lemma ElemsPlaced(h: Heap, c: Cell)
    requires ValidHeap(h) && Elems(h, c).Some?
    ensures Live(h, c.val) && 0 <= Region(c.val) < MAX_ARENAS && 0 <= Off(c.val) && h[Region(c.val)].active
    ensures Off(c.val) + 2 + |Elems(h, c).value| <= MAX_HEAP
    ensures forall i :: 0 <= i < |Elems(h, c).value| ==> Elems(h, c).value[i] == h[Region(c.val)].mem[Off(c.val) + 2 + i]
  {
    hide Off, Region, Gen;
    OffInRange(c.val);
  }

  /** call(f, args): the elements of `args` go onto the stack and a frame is built around them. The
      frame is the one that OP_CALL builds. */
  method Call(vm: Vm, addr: int) returns (r: Status)
    requires vm.Valid() && vm.sp >= 1
    modifies vm`sp, vm`fp, vm`ip, vm.stack, vm.stackTypes
    ensures vm.Valid()
    ensures var s, t := old(vm.View()), Drop(old(vm.View()), 2);
      var args := Elems(s.heap, Top(s, 0));
      if Top(s, 1).tag != T_STR || Top(s, 0).tag != T_OBJ || args.None? || addr < 0 then r == Failed
      else if |t.stack| + |args.value| + 2 > STACK_SIZE then r == Full
      else vm.Refines(r, ExecCall(t.(stack := t.stack + args.value), addr, |args.value|))
  {
    hide Vm.Heap, Vm.Stack, Vm.Scopes, Off, Region, Gen, Elems, ExecCall, Vm.Refines;
    ghost var s := vm.View();
    var arrVal, arrType, nameVal, nameType;
    r, arrVal, arrType := vm.Pop();
    r, nameVal, nameType := vm.Pop();
    ghost var t := vm.View();
    assert t == Drop(s, 2);
    if nameType != T_STR || arrType != T_OBJ { return Failed; }
    assert Top(s, 0) == Cell(arrVal, T_OBJ);
    var argc := vm.ArrayLength(arrVal, arrType);
    if argc < 0 || addr < 0 { return Failed; }
    r := PushElements(vm, arrVal, argc);
    if r != Running { return; }
    assert vm.View() == t.(stack := t.stack + Elems(s.heap, Top(s, 0)).value);
    r := BuildFrame(vm, addr, argc);
  }

  method BuildFrame(vm: Vm, addr: int, argc: nat) returns (r: Status)
    requires vm.Valid() && argc <= vm.sp + 1
    modifies vm`sp, vm`fp, vm`ip, vm.stack, vm.stackTypes
    ensures vm.Valid() && vm.Refines(r, ExecCall(old(vm.View()), addr, argc))
    ensures old(vm.sp) + 3 > STACK_SIZE ==> r == Full
  {
    hide Vm.Heap, Vm.Scopes, ValidHeap;
    if vm.sp + 3 > STACK_SIZE { return Full; }
    var start := vm.sp - argc + 1;
    vm.ShiftArgs(start);
    vm.stack[start], vm.stack[start + 1] := vm.ip, vm.fp;
    vm.stackTypes[start], vm.stackTypes[start + 1] := T_NUM, T_NUM;
    vm.sp := vm.sp + 2;
    vm.Framed(old(vm.Stack()), start, vm.ip, vm.fp);
    vm.fp := start + 2;
    vm.ip := addr;
    r := Running;
  }

  /** So a function called by name returns to the caller what the source call returns. */
  lemma CallMeans(p: Program, g: Target, s: State, vals: seq<Value>, xs: seq<Value>, addr: int, v: Value) returns (ok: bool, t: State)
    requires Compiled(p, g, addr) && Returns(g, xs, v) && Handed(s, vals, xs)
    requires ExecCall(s, addr, |xs|).Next? && Orderly(p, ExecCall(s, addr, |xs|).s)
    ensures Arrives(p, ExecCall(s, addr, |xs|).s, ok, t)
    ensures ok ==> Delivered(Drop(s, |xs|), t, vals, v)
  {
    hide Guarded, Linked, Kept, Reach, Fills, Orderly, Step, L.Invoke, Grown;
    Taken(s, vals, xs);
    var u, m := ExecCall(s, addr, |xs|).s, |vals|;
    var low := vals + [L.NumV(s.ip), L.NumV(s.fp)];
    InsertLink(s, vals, xs);
    ok, t := FunctionMeans(g.k, g.fs, g.ln, p, g.f, u, low, xs, v, NONE);
    if ok {
      assert u.stack[..m] == s.stack[..m] && low[..m] == vals && u.fp == m + 2;
      assert t.stack == s.stack[..m] + [Top(t, 0)];
    }
  }

  lemma InsertLink(s: State, vals: seq<Value>, xs: seq<Value>)
    requires Handed(s, vals, xs) && |s.stack| == |vals| + |xs|
    ensures Guarded(s.heap, s.cur, NONE, s.scopes,
                    s.stack[..|vals|] + [Num(s.ip), Num(s.fp)] + s.stack[|vals|..],
                    vals + [L.NumV(s.ip), L.NumV(s.fp)] + xs)
  {
    hide Guarded;
    var m := |vals|;
    GuardInsert(s.heap, s.cur, NONE, s.scopes, s.stack, vals + xs, m, s.ip, s.fp);
    assert (vals + xs)[..m] == vals && (vals + xs)[m..] == xs;
  }
}
