/** Runs of the machine, the shape of a frame, and what each instruction does to a frame whose
    cells represent source values. */
module Frames {
  import opened Defines
  import opened Arenas
  import opened Evacuation
  import opened Machine
  import opened Protection
  import opened Returning
  import L = Language

  // ---- Runs ----

  ghost predicate Reach(p: Program, s: State, t: State) {
    ValidState(s) && exists n: nat :: Machine.Run(p, s, n) == Next(t)
  }

  /** The next instruction of `s` is not an OP_SVAR that lifts an outer boundary past an inner one. */
  ghost predicate StoreOk(p: Program, s: State)
    requires ValidState(s)
  {
    0 <= s.ip && s.ip + 1 < |p.code| && p.code[s.ip] == OP_SVAR && |s.stack| > 0 ==>
      Storable(s.heap, s.cur, s.scopes, s.fp, s.fp + p.code[s.ip + 1], Top(s, 0))
  }

  /** Every assignment that the run from `s` comes to keeps the boundaries in order. */
  ghost predicate Orderly(p: Program, s: State) {
    forall t :: Reach(p, s, t) ==> ValidState(t) && StoreOk(p, t)
  }

  /** The run from `s` fills the stack, the scope stack or a region. */
  ghost predicate Fills(p: Program, s: State) {
    ValidState(s) && exists n: nat :: Machine.Run(p, s, n) == Overflow
  }

  /** The run from `s` fills something, or comes to a store that puts the boundaries out of order. */
  ghost predicate Fails(p: Program, s: State) {
    Fills(p, s) || (exists t :: Reach(p, s, t) && ValidState(t) && !StoreOk(p, t))
  }

  ghost predicate Leads(p: Program, s: State, ok: bool, t: State) {
    if ok then Reach(p, s, t) else Fails(p, s)
  }

  lemma {:induction false} RunAdds(p: Program, s: State, n: nat, t: State, m: nat)
    requires ValidState(s) && Machine.Run(p, s, n) == Next(t)
    ensures ValidState(t) && Machine.Run(p, s, n + m) == Machine.Run(p, t, m)
    decreases n
  {
    hide Step, ValidState;
    if n > 0 {
      RunAdds(p, Step(p, s).s, n - 1, t, m);
    }
  }

  lemma ReachOn(p: Program, s: State, t: State, u: State)
    requires Reach(p, s, t) && Reach(p, t, u)
    ensures Reach(p, s, u)
  {
    hide ValidState, Machine.Run;
    var n: nat :| Machine.Run(p, s, n) == Next(t);
    var m: nat :| Machine.Run(p, t, m) == Next(u);
    RunAdds(p, s, n, t, m);
  }

  lemma Chain(p: Program, s: State, t: State, ok: bool, u: State)
    requires Reach(p, s, t) && Leads(p, t, ok, u)
    ensures Leads(p, s, ok, u)
  {
    hide ValidState, Machine.Run, StoreOk;
    if ok {
      ReachOn(p, s, t, u);
    } else if Fills(p, t) {
      var n: nat :| Machine.Run(p, s, n) == Next(t);
      var m: nat :| Machine.Run(p, t, m) == Overflow;
      RunAdds(p, s, n, t, m);
      assert Machine.Run(p, s, n + m) == Overflow;
    } else {
      var w :| Reach(p, t, w) && ValidState(w) && !StoreOk(p, w);
      ReachOn(p, s, t, w);
    }
  }

  /** The run arrives, or fills something on the way. */
  ghost predicate Arrives(p: Program, s: State, ok: bool, t: State) {
    if ok then Reach(p, s, t) else Fills(p, s)
  }

  /** Where every store is orderly, only a full resource keeps the run from arriving. */
  lemma OnlyFills(p: Program, s: State, ok: bool, t: State)
    requires Leads(p, s, ok, t) && Orderly(p, s)
    ensures Arrives(p, s, ok, t)
  {
    hide StoreOk;
  }

  lemma Stay(p: Program, s: State)
    requires ValidState(s)
    ensures Reach(p, s, s)
  {
    hide ValidState;
    assert Machine.Run(p, s, 0) == Next(s);
  }

  lemma Stepped(p: Program, s: State) returns (ok: bool, t: State)
    requires ValidState(s) && (Step(p, s).Next? || Step(p, s).Overflow?)
    ensures Leads(p, s, ok, t)
    ensures ok == Step(p, s).Next?
    ensures ok ==> Step(p, s) == Next(t) && ValidState(t)
  {
    hide ValidState, Step;
    ok := Step(p, s).Next?;
    t := if ok then Step(p, s).s else s;
    assert Machine.Run(p, s, 1) == Step(p, s) by {
      if ok { assert Machine.Run(p, t, 0) == Next(t); }
    }
  }

  // ---- Code ----

  ghost predicate Has(p: Program, ip: int, frag: seq<int>) {
    0 <= ip && ip + |frag| <= |p.code| && forall i :: 0 <= i < |frag| ==> p.code[ip + i] == frag[i]
  }

  lemma HasSplit(p: Program, ip: int, x: seq<int>, y: seq<int>)
    requires Has(p, ip, x + y)
    ensures Has(p, ip, x) && Has(p, ip + |x|, y)
  {
    forall i | 0 <= i < |x| ensures p.code[ip + i] == x[i] {
      assert (x + y)[i] == x[i];
    }
    forall i | 0 <= i < |y| ensures p.code[ip + |x| + i] == y[i] {
      assert (x + y)[|x| + i] == y[i];
      assert p.code[ip + (|x| + i)] == y[i];
    }
  }

  lemma Fetch(p: Program, s: State, op: int, arg: int)
    requires ValidState(s) && Has(p, s.ip, [op, arg])
    ensures Step(p, s) == Exec(p, s.(ip := s.ip + 1), op)
    ensures s.ip + 1 < |p.code| && p.code[s.ip + 1] == arg
  {
    hide ValidState, Exec;
    assert [op, arg][0] == op && [op, arg][1] == arg;
  }

  lemma FetchOne(p: Program, s: State, op: int)
    requires ValidState(s) && Has(p, s.ip, [op])
    ensures Step(p, s) == Exec(p, s.(ip := s.ip + 1), op)
  {
    hide ValidState, Exec;
    assert [op][0] == op;
  }

  // ---- Frames ----

  /** What a running function must give back untouched: the scopes and the stack below it, and the
      memory that was allocated when it was called. */
  datatype Frame = Frame(base: seq<Scope>, low: seq<Cell>, lowv: seq<Value>, a: int, was: Heap, z: Hole)

  ghost predicate Marked(fr: Frame, scopes: seq<Scope>, marks: seq<nat>) {
    && |scopes| == |fr.base| + |marks| && scopes[..|fr.base|] == fr.base
    && (forall k :: |fr.base| <= k < |scopes| ==>
          scopes[k].fp == |fr.low| && scopes[k].spAtEntry == |fr.low| + marks[k - |fr.base|] - 1)
    && (forall q, r :: 0 <= q < r < |marks| ==> marks[q] <= marks[r])
    && (forall k :: 0 <= k < |fr.base| ==> fr.base[k].fp < |fr.low| && fr.base[k].spAtEntry < |fr.low| - 2)
  }

  /** All memory allocated when the frame was entered is as it was, and the frame's own scopes
      rewind to no point below it. */
  ghost predicate Intact(fr: Frame, h: Heap, scopes: seq<Scope>) {
    && Grown(fr.was, h) && 0 <= fr.a < |fr.was| && Clears(fr.z, fr.was[fr.a].head)
    && forall k :: |fr.base| <= k < |scopes| ==> fr.was[fr.a].head <= scopes[k].head
  }

  lemma IntactGrown(fr: Frame, h: Heap, h': Heap, scopes: seq<Scope>)
    requires Intact(fr, h, scopes) && Grown(h, h')
    ensures Intact(fr, h', scopes)
  {
  }

  lemma IntactEnter(fr: Frame, h: Heap, scopes: seq<Scope>, sc: Scope)
    requires Intact(fr, h, scopes) && sc.head == h[fr.a].head
    ensures Intact(fr, h, scopes + [sc])
  {
  }

  /** The frame's own boundaries stay above the hole. */
  lemma IntactClears(fr: Frame, h: Heap, scopes: seq<Scope>)
    requires Intact(fr, h, scopes)
    ensures forall k :: |fr.base| <= k < |scopes| ==> Clears(fr.z, scopes[k].head)
  {
  }

  lemma IntactLeave(fr: Frame, h: Heap, scopes: seq<Scope>, k: nat)
    requires Intact(fr, h, scopes) && |fr.base| <= k < |scopes|
    ensures Intact(fr, WithHead(h, fr.a, scopes[k].head), scopes[..k])
  {
  }

  /** OP_RET rewinds to boundaries of the frame's own scopes only. */
  lemma {:induction false} IntactReturn(fr: Frame, h: Heap, scopes: seq<Scope>, fp: int, rv: Cell)
    requires ValidHeap(h) && 0 <= fr.a < MAX_ARENAS && |fr.base| <= |scopes| && Intact(fr, h, scopes)
    requires forall k :: 0 <= k < |scopes| ==> ValidScope(scopes[k])
    requires |fr.base| > 0 ==> scopes[|fr.base| - 1].fp != fp
    requires PopScopes(scopes, fp, fr.a, h, rv).Some?
    ensures Grown(fr.was, PopScopes(scopes, fp, fr.a, h, rv).value.heap)
    decreases |scopes|
  {
    hide Grown, Evac, Off;
    if |scopes| > |fr.base| && scopes[|scopes| - 1].fp == fp {
      var j := |scopes| - 1;
      var sc, rest := scopes[j], scopes[..j];
      assert forall k :: 0 <= k < j ==> rest[k] == scopes[k];
      if sc.arena != fr.a {
        IntactReturn(fr, h, rest, fp, rv);
      } else if rv.tag != T_OBJ {
        IntactLeave(fr, h, scopes, j);
        IntactReturn(fr, WithHead(h, fr.a, sc.head), rest, fp, rv);
      } else {
        var (h1, p) := Evac(h, rv.val, sc.head).value;
        IntactGrown(fr, h, h1, scopes);
        IntactLeave(fr, h1, scopes, j);
        IntactReturn(fr, if Off(p) < sc.head then WithHead(h1, fr.a, sc.head) else h1, rest, fp, Cell(p, T_OBJ));
      }
    }
  }

  /** The frame holds `xs`, the first `n` of them its locals and the rest temporaries; its scopes
      were entered at the local counts `marks`. */
  ghost predicate InFrame(fr: Frame, s: State, marks: seq<nat>, n: nat, xs: seq<Value>) {
    && ValidState(s) && s.cur == fr.a
    && s.fp == |fr.low| == |fr.lowv| && |fr.low| >= 2
    && |s.stack| == |fr.low| + |xs| && s.stack[..|fr.low|] == fr.low
    && n <= |xs| && (|marks| > 0 ==> marks[|marks| - 1] <= n)
    && Marked(fr, s.scopes, marks) && Intact(fr, s.heap, s.scopes)
    && Guarded(s.heap, s.cur, fr.z, s.scopes, s.stack, fr.lowv + xs)
  }

  /** Every scope was entered at or below the locals. */
  lemma EntriesLow(fr: Frame, s: State, marks: seq<nat>, n: nat, xs: seq<Value>)
    requires InFrame(fr, s, marks, n, xs)
    ensures forall k :: 0 <= k < |s.scopes| ==> s.scopes[k].spAtEntry < |fr.low| + n
    ensures forall k :: 0 <= k < |s.scopes| && |fr.low| <= s.scopes[k].spAtEntry ==> s.scopes[k].fp == |fr.low|
  {
    hide Guarded, ValidState, Intact;
    forall k | 0 <= k < |s.scopes|
      ensures s.scopes[k].spAtEntry < |fr.low| + n
      ensures |fr.low| <= s.scopes[k].spAtEntry ==> s.scopes[k].fp == |fr.low|
    {
      if k < |fr.base| {
        assert s.scopes[k] == s.scopes[..|fr.base|][k] == fr.base[k];
      } else {
        assert marks[k - |fr.base|] <= marks[|marks| - 1];
      }
    }
  }

  // ---- Frame changes ----

  lemma FrameGrow(fr: Frame, s: State, t: State, marks: seq<nat>, n: nat, xs: seq<Value>)
    requires InFrame(fr, s, marks, n, xs) && ValidState(t) && Grown(s.heap, t.heap)
    requires t.cur == s.cur && t.fp == s.fp && t.stack == s.stack && t.scopes == s.scopes
    ensures InFrame(fr, t, marks, n, xs)
  {
    hide Guarded, Grown, Marked, Intact;
    IntactGrown(fr, s.heap, t.heap, s.scopes);
    GuardGrown(s.heap, t.heap, s.cur, fr.z, s.scopes, s.stack, fr.lowv + xs) by { CurOk(s); }
  }

  lemma CurOk(s: State)
    requires ValidState(s)
    ensures 0 <= s.cur < MAX_ARENAS && ValidHeap(s.heap)
  {
  }

  lemma FrameMove(fr: Frame, s: State, t: State, marks: seq<nat>, n: nat, xs: seq<Value>)
    requires InFrame(fr, s, marks, n, xs) && t == s.(ip := t.ip)
    ensures InFrame(fr, t, marks, n, xs)
  {
    hide Guarded, Marked, Intact;
    assert ValidState(t);
  }

  lemma FramePush(fr: Frame, s: State, t: State, marks: seq<nat>, n: nat, xs: seq<Value>, c: Cell, v: Value)
    requires InFrame(fr, s, marks, n, xs) && ValidState(t)
    requires t == s.(ip := t.ip, stack := s.stack + [c])
    requires Kept(s.heap, s.cur, fr.z, s.scopes, |s.stack|, c, v)
    ensures InFrame(fr, t, marks, n, xs + [v])
  {
    hide Guarded, Kept, Marked, Intact;
    GuardPush(s.heap, s.cur, fr.z, s.scopes, s.stack, fr.lowv + xs, c, v);
    assert fr.lowv + (xs + [v]) == (fr.lowv + xs) + [v];
  }

  lemma FrameDrop(fr: Frame, s: State, t: State, marks: seq<nat>, n: nat, xs: seq<Value>, m: nat)
    requires InFrame(fr, s, marks, n, xs) && ValidState(t) && n + m <= |xs|
    requires t == Drop(s, m).(ip := t.ip)
    ensures InFrame(fr, t, marks, n, xs[..|xs| - m])
  {
    hide Kept, Marked, Intact;
    EntriesLow(fr, s, marks, n, xs);
    GuardDrop(s.heap, s.cur, fr.z, s.scopes, s.stack, fr.lowv + xs, m);
    assert (fr.lowv + xs)[..|fr.lowv + xs| - m] == fr.lowv + xs[..|xs| - m];
  }

  /** Temporaries may be counted as locals, or the other way round down to the last mark. */
  lemma Recount(fr: Frame, s: State, marks: seq<nat>, n: nat, n': nat, xs: seq<Value>)
    requires InFrame(fr, s, marks, n, xs) && n' <= |xs| && (|marks| > 0 ==> marks[|marks| - 1] <= n')
    ensures InFrame(fr, s, marks, n', xs)
  {
    hide ValidState, Guarded, Marked, Intact;
  }

  lemma CellKept(fr: Frame, s: State, marks: seq<nat>, n: nat, xs: seq<Value>, i: nat)
    requires InFrame(fr, s, marks, n, xs) && i < |xs|
    ensures Kept(s.heap, s.cur, fr.z, s.scopes, |fr.low| + i, s.stack[|fr.low| + i], xs[i])
    ensures ScopesOk(s.heap, s.cur, fr.z, s.scopes, |s.stack|)
  {
    hide Kept, Marked, Intact;
    assert (fr.lowv + xs)[|fr.low| + i] == xs[i];
  }

  /** A number's cell is the number; an object's cell is a non-null pointer. */
  lemma CellOf(h: Heap, a: int, z: Hole, scopes: seq<Scope>, i: int, c: Cell, v: Value)
    requires ValidHeap(h) && Kept(h, a, z, scopes, i, c, v)
    ensures v.Leaf? ==> c == Cell(v.val, v.tag) && v.tag != T_OBJ
    ensures !v.Leaf? ==> c.tag == T_OBJ && c.val > 0
    ensures (c.val != 0) == L.Truthy(v)
  {
    if !v.Leaf? {
      LiveNotNull(h, c.val);
    }
  }

  lemma TopCell(fr: Frame, s: State, marks: seq<nat>, n: nat, xs: seq<Value>, k: nat)
    requires InFrame(fr, s, marks, n, xs) && k < |xs|
    ensures var v := xs[|xs| - 1 - k];
      && k < |s.stack|
      && (v.Leaf? ==> Top(s, k) == Cell(v.val, v.tag) && v.tag != T_OBJ)
      && (!v.Leaf? ==> Top(s, k).tag == T_OBJ)
      && (Top(s, k).val != 0) == L.Truthy(v)
      && Kept(s.heap, s.cur, fr.z, s.scopes, |s.stack| - 1 - k, Top(s, k), v)
  {
    hide Kept, Marked, Intact, Guarded;
    CellKept(fr, s, marks, n, xs, |xs| - 1 - k);
    CellOf(s.heap, s.cur, fr.z, s.scopes, |s.stack| - 1 - k, Top(s, k), xs[|xs| - 1 - k]);
  }

  // ---- Arrays ----

  /** The elements of a kept array, each fit to sit on top of the stack. */
  lemma ElemsOf(h: Heap, a: int, z: Hole, scopes: seq<Scope>, n: int, i: int, c: Cell, kids: seq<Value>)
    requires ValidHeap(h) && ScopesOk(h, a, z, scopes, n) && Kept(h, a, z, scopes, i, c, L.Arr(kids))
    ensures Elems(h, c).Some? && |Elems(h, c).value| == |kids| && Off(c.val) + 2 + |kids| <= h[Region(c.val)].head
    ensures forall j :: 0 <= j < |kids| ==> Kept(h, a, z, scopes, n, Elems(h, c).value[j], kids[j])
  {
    hide Off, Region, Gen;
    var cells := Elems(h, c).value;
    forall j | 0 <= j < |kids| ensures Kept(h, a, z, scopes, n, cells[j], kids[j]) {
      assert cells[j] == At(h, c.val, 2 + j);
      if z.lo < z.hi { KidParted(h, a, z.lo, z.hi, c, kids, j); }
      forall k | 0 <= k < |scopes| ensures Parted(h, a, scopes[k].head, scopes[k].head, cells[j], kids[j]) {
        KidParted(h, a, scopes[k].head, scopes[k].head, c, kids, j) by { KeptParted(h, a, z, scopes, i, c, L.Arr(kids), k); }
      }
    }
  }

  lemma KidParted(h: Heap, a: int, b: int, t: int, c: Cell, kids: seq<Value>, j: nat)
    requires ValidHeap(h) && Parted(h, a, b, t, c, L.Arr(kids)) && j < |kids|
    requires Live(h, c.val) && Off(c.val) + 2 + |kids| <= MAX_HEAP
    ensures Parted(h, a, b, t, At(h, c.val, 2 + j), kids[j])
  {
    hide Off, Region, Gen;
  }

  /** Allocating an array of kept cells and pushing it. */
  lemma FrameArray(fr: Frame, s: State, marks: seq<nat>, n: nat, xs: seq<Value>, cells: seq<Cell>, kids: seq<Value>, at: seq<int>)
    requires InFrame(fr, s, marks, n, xs) && |at| == |cells| == |kids|
    requires forall i :: 0 <= i < |cells| ==> Kept(s.heap, s.cur, fr.z, s.scopes, at[i], cells[i], kids[i])
    ensures !PushArray(s, cells).Halted? && !PushArray(s, cells).Stuck?
    ensures PushArray(s, cells).Next? ==>
      var t := PushArray(s, cells).s;
      t.ip == s.ip && InFrame(fr, t, marks, n, xs + [L.Arr(kids)])
  {
    hide Kept, Marked, Intact, Off, Pack, Grown;
    if PushArray(s, cells).Next? {
      var t := PushArray(s, cells).s;
      assert ScopesOk(s.heap, s.cur, fr.z, s.scopes, |s.stack|);
      ArrayKept(s.heap, s.cur, fr.z, s.scopes, |s.stack|, at, cells, kids);
      var s1 := s.(heap := t.heap);
      FrameGrow(fr, s, s1, marks, n, xs);
      FramePush(fr, s1, t, marks, n, xs, Top(t, 0), L.Arr(kids));
    }
  }
}
