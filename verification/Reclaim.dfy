/** What the machine gives back and when it gives up: leaving a block or a function returns its memory,
    regions come and go whole, and an instruction overflows only where something is full
    (src/vm.c:292-326, 503-522, 1230-1279, 1822-1840, 1874-1894). */
module Reclaim {
  import opened Defines
  import opened Arenas
  import opened Evacuation
  import opened Sizing
  import opened Machine
  import opened Frames
  import opened Protection
  import opened Returning

  // ---- Blocks ----

  /** Opening a scope notes the head; nothing else changes. */
  lemma EnterStep(p: Program, s: State)
    requires ValidState(s) && Has(p, s.ip, [OP_SCOPE_ENTER])
    ensures if |s.scopes| == MAX_SCOPES then Step(p, s) == Overflow
      else Step(p, s) == Next(s.(ip := s.ip + 1, scopes := s.scopes + [Scope(s.cur, s.heap[s.cur].head, s.fp, |s.stack| - 1)]))
  {
    hide ValidHeap;
    FetchOne(p, s, OP_SCOPE_ENTER);
  }

  /** A block that ran in its own region and left the marks alone has taken no memory in the end: the head
      is where it was, and nothing else of the heap is touched on the way out. */
  lemma BlockReclaims(p: Program, s: State, s1: State, s2: State, t: State)
    requires ValidState(s) && Has(p, s.ip, [OP_SCOPE_ENTER]) && Step(p, s) == Next(s1)
    requires ValidState(s2) && s2.cur == s1.cur && s2.scopes == s1.scopes
    requires Has(p, s2.ip, [OP_SCOPE_EXIT]) && Step(p, s2) == Next(t)
    ensures t.scopes == s.scopes && t.cur == s.cur && t.fp == s2.fp && t.stack == s2.stack && t.ip == s2.ip + 1
    ensures t.heap == s2.heap[s.cur := s2.heap[s.cur].(head := s.heap[s.cur].head)]
  {
    hide Step, ValidHeap;
    EnterStep(p, s);
    ExitStep(p, s2);
  }

  /** Leaving a scope goes back to its mark, in the region where it was opened and only there. */
  lemma ExitStep(p: Program, s: State)
    requires ValidState(s) && Has(p, s.ip, [OP_SCOPE_EXIT])
    ensures var n := |s.scopes|;
      if n == 0 then Step(p, s) == Next(s.(ip := s.ip + 1))
      else
        var sc := s.scopes[n - 1];
        Step(p, s) == Next(s.(ip := s.ip + 1, scopes := s.scopes[..n - 1],
          heap := if sc.arena == s.cur then s.heap[s.cur := s.heap[s.cur].(head := sc.head)] else s.heap))
  {
    hide ValidHeap;
    FetchOne(p, s, OP_SCOPE_EXIT);
  }

  // ---- Returns ----

  /** The result is no object, or lies below every mark of the frame. */
  ghost predicate Settles(scopes: seq<Scope>, k: nat, rv: Cell)
    requires k <= |scopes|
  {
    rv.tag != T_OBJ || forall j :: k <= j < |scopes| ==> Off(rv.val) < scopes[j].head
  }

  /** Then leaving the frame's scopes rewinds to the mark of the outermost and copies nothing. */
  lemma {:induction false} UnwindReclaims(scopes: seq<Scope>, fp: int, cur: int, h: Heap, rv: Cell, k: nat)
    requires ValidHeap(h) && 0 <= cur < MAX_ARENAS && forall j :: 0 <= j < |scopes| ==> ValidScope(scopes[j])
    requires k < |scopes| && (k == 0 || scopes[k - 1].fp != fp)
    requires forall j :: k <= j < |scopes| ==> scopes[j].fp == fp && scopes[j].arena == cur
    requires Settles(scopes, k, rv)
    ensures PopScopes(scopes, fp, cur, h, rv) == Some(Unwound(scopes[..k], WithHead(h, cur, scopes[k].head), rv))
    decreases |scopes|
  {
    hide Off, Evac;
    var n := |scopes| - 1;
    var rest, h1 := scopes[..n], WithHead(h, cur, scopes[n].head);
    assert ValidScope(scopes[n]);
    if rv.tag == T_OBJ { LowStays(h, rv.val, scopes[n].head); }
    assert rv.tag == T_OBJ ==> rv == Cell(rv.val, T_OBJ);
    if k < n {
      assert rest[..k] == scopes[..k] && rest[k] == scopes[k];
      UnwindReclaims(rest, fp, cur, h1, rv, k);
      assert WithHead(h1, cur, rest[k].head) == WithHead(h, cur, rest[k].head);
    } else {
      assert PopScopes(rest, fp, cur, h1, rv) == Some(Unwound(rest, h1, rv));
    }
  }

  lemma LowStays(h: Heap, p: int, target: int)
    requires ValidHeap(h) && Off(p) < target
    ensures Evac(h, p, target) == Some((h, p))
  {
    hide EvacKids, EvacData;
  }

  /** So a function whose result is a number, or was there before, gives back all the memory that it took:
      the head returns to where the first scope of the frame was opened or last marked. */
  lemma ReturnReclaims(p: Program, s: State, k: nat)
    requires ValidState(s) && Has(p, s.ip, [OP_RET]) && 2 <= s.fp <= |s.stack|
    requires k < |s.scopes| && (k == 0 || s.scopes[k - 1].fp != s.fp)
    requires forall j :: k <= j < |s.scopes| ==> s.scopes[j].fp == s.fp && s.scopes[j].arena == s.cur
    requires Settles(s.scopes, k, Top(s, 0))
    ensures Step(p, s) == Next(State(s.stack[s.fp - 2].val, s.stack[s.fp - 1].val, s.stack[..s.fp - 2] + [Top(s, 0)],
                                     s.scopes[..k], WithHead(s.heap, s.cur, s.scopes[k].head), s.cur))
  {
    hide ValidHeap, PopScopes, Exec, WithHead;
    FetchOne(p, s, OP_RET);
    UnwindReclaims(s.scopes, s.fp, s.cur, s.heap, Top(s, 0), k);
    RetExec(p, s);
  }

  lemma RetExec(p: Program, s: State)
    requires ValidState(s) && 0 <= s.ip && 2 <= s.fp <= |s.stack|
    ensures Exec(p, s.(ip := s.ip + 1), OP_RET) == ExecRet(s.(ip := s.ip + 1))
  {
    hide ExecRet;
  }

  /** A return copies its result at most once for each scope of the frame, so it fails only for want of that
      much room. */
  lemma {:induction false} PopFits(h: Heap, a: int, z: Hole, scopes: seq<Scope>, n: int, fp: int, keep: nat,
                                   low: seq<Cell>, lowv: seq<Value>, c: Cell, v: Value)
    requires ValidHeap(h) && keep <= |scopes| && ScopesOk(h, a, z, scopes, n)
    requires forall k :: 0 <= k < |scopes| ==> ValidScope(scopes[k])
    requires forall k :: keep <= k < |scopes| ==> scopes[k].fp == fp && |low| - 1 <= scopes[k].spAtEntry
    requires forall k :: keep <= k < |scopes| ==> Clears(z, scopes[k].head)
    requires keep > 0 ==> scopes[keep - 1].fp != fp
    requires AllKept(h, a, z, scopes, low, lowv) && Returnable(h, a, z, scopes, c, v)
    requires Spare(h, Copies(|scopes| - keep, Weight(v)))
    ensures PopScopes(scopes, fp, a, h, c).Some?
    decreases |scopes|
  {
    hide Off, Evac, Kept, Returnable, AllKept, ScopesOk, Weight, Rep;
    if |scopes| > keep {
      var j := |scopes| - 1;
      var sc, rest, w := scopes[j], scopes[..j], Copies(|scopes| - 1 - keep, Weight(v));
      LastScope(h, a, z, scopes, n);
      assert Copies(|scopes| - keep, Weight(v)) == Weight(v) + w;
      if c.tag != T_OBJ {
        PopRewind(h, a, z, scopes, n, low, lowv, c, v);
        LowerSpare(h, a, sc.head, w);
        PopFits(WithHead(h, a, sc.head), a, z, rest, n, fp, keep, low, lowv, c, v);
      } else {
        assert c == Cell(c.val, T_OBJ);
        ResultRep(h, a, z, scopes, c, v);
        GrownSelf(h);
        EvacFits(h, h, c.val, sc.head, v, w);
        var q := Evac(h, c.val, sc.head).value.1;
        if Off(q) < sc.head {
          LowResult(h, a, z, c.val, sc.head, scopes, v);
          PopRewind(h, a, z, scopes, n, low, lowv, c, v);
          LowerSpare(h, a, sc.head, w);
          PopFits(WithHead(h, a, sc.head), a, z, rest, n, fp, keep, low, lowv, c, v);
        } else {
          var h1, _ := PopCopy(h, a, z, scopes, n, low, lowv, c.val, v);
          PopFits(h1, a, z, rest, n, fp, keep, low, lowv, Cell(q, T_OBJ), v);
        }
      }
    }
  }

  /** `m` times `w`. */
  function Copies(m: nat, w: nat): nat {
    if m == 0 then 0 else w + Copies(m - 1, w)
  }

  lemma ResultRep(h: Heap, a: int, z: Hole, scopes: seq<Scope>, c: Cell, v: Value)
    requires ValidHeap(h) && Returnable(h, a, z, scopes, c, v)
    ensures Rep(h, NoGap(), c, v)
  {
    hide Rep;
    RepHomeAny(h, a, c, v);
  }

  lemma LowerSpare(h: Heap, a: int, head: int, k: nat)
    requires ValidHeap(h) && 0 <= a < MAX_ARENAS && 0 <= head <= h[a].head && Spare(h, k)
    ensures ValidHeap(WithHead(h, a, head)) && Spare(WithHead(h, a, head), k)
  {
  }

  // ---- Regions ----

  /** OP_NEW_ARENA opens the lowest free region, empty and zeroed, under a generation other than its last,
      and fails only if there is none. */
  lemma NewRegionStep(p: Program, s: State) returns (id: nat)
    requires ValidState(s) && Has(p, s.ip, [OP_NEW_ARENA]) && |s.stack| < STACK_SIZE
    ensures 0 < id <= MAX_ARENAS && forall i :: 0 < i < id ==> s.heap[i].active
    ensures id == MAX_ARENAS ==> Step(p, s) == Stuck
    ensures id < MAX_ARENAS ==> !s.heap[id].active && Step(p, s).Next?
    ensures id < MAX_ARENAS ==>
      var t := Step(p, s).s;
      && t == s.(ip := s.ip + 1, stack := s.stack + [Cell(id, T_NUM)], heap := t.heap)
      && t.heap[id].active && t.heap[id].head == 0 && t.heap[id].gen != s.heap[id].gen
      && t.heap[id].mem == seq(MAX_HEAP, j => Cell(0, T_NUM))
      && forall i :: 0 <= i < MAX_ARENAS && i != id ==> t.heap[i] == s.heap[i]
  {
    id := FirstInactive(s.heap, 1);
    hide *;
    assert ValidState(s.(ip := s.ip + 1)) by { OtherIp(s, s.ip + 1); }
    FetchOne(p, s, OP_NEW_ARENA);
    NewRegionExec(p, s.(ip := s.ip + 1));
    FirstFree(s.heap, 1);
    OpenedGen(s.heap, id);
  }

  lemma OtherIp(s: State, ip: int)
    requires ValidState(s)
    ensures ValidState(s.(ip := ip)) && ValidHeap(s.heap) && |s.heap| == MAX_ARENAS
  {
  }

  lemma {:induction false} FirstFree(h: Heap, i: nat)
    requires ValidHeap(h) && i <= MAX_ARENAS
    ensures forall j :: i <= j < FirstInactive(h, i) ==> h[j].active
    decreases MAX_ARENAS - i
  {
    if i < MAX_ARENAS && h[i].active {
      FirstFree(h, i + 1);
    }
  }

  lemma NewRegionExec(p: Program, s: State)
    requires ValidState(s) && 0 <= s.ip && |s.stack| < STACK_SIZE
    ensures var id := FirstInactive(s.heap, 1);
      Exec(p, s, OP_NEW_ARENA) == if id == MAX_ARENAS then Stuck else Next(s.(heap := Opened(s.heap, id), stack := s.stack + [Cell(id, T_NUM)]))
  {
    hide Opened, ValidHeap, FirstInactive;
  }

  lemma OpenedGen(h: Heap, id: nat)
    requires ValidHeap(h)
    ensures id < MAX_ARENAS ==>
      var r := Opened(h, id);
      && r[id].active && r[id].head == 0 && r[id].gen != h[id].gen && |r[id].mem| == MAX_HEAP
      && r[id].mem == seq(MAX_HEAP, j => Cell(0, T_NUM))
      && forall i :: 0 <= i < MAX_ARENAS && i != id ==> r[i] == h[i]
  {
  }

  /** OP_DEL_ARENA refuses region 0 and ends every pointer into the region; the others are as they were. */
  lemma FreeRegionStep(p: Program, s: State, q: int)
    requires ValidState(s) && Has(p, s.ip, [OP_DEL_ARENA]) && |s.stack| >= 1
    ensures Step(p, s) == Stuck <==> Top(s, 0).val <= 0
    ensures Top(s, 0).val > 0 ==>
      && Step(p, s).Next?
      && Step(p, s).s == s.(ip := s.ip + 1, stack := s.stack[..|s.stack| - 1], heap := Step(p, s).s.heap)
      && (Region(q) == Top(s, 0).val ==> !Live(Step(p, s).s.heap, q))
      && forall i :: 0 <= i < MAX_ARENAS && i != Top(s, 0).val ==> Step(p, s).s.heap[i] == s.heap[i]
  {
    hide Off, Region, Gen;
    FetchOne(p, s, OP_DEL_ARENA);
    FreeRegionExec(p, s.(ip := s.ip + 1));
    hide Exec, ValidHeap;
  }

  lemma FreeRegionExec(p: Program, s: State)
    requires ValidState(s) && 0 <= s.ip && |s.stack| >= 1
    ensures var id := Top(s, 0).val;
      Exec(p, s, OP_DEL_ARENA) == if id <= 0 then Stuck
        else Next(s.(stack := s.stack[..|s.stack| - 1],
                     heap := if id >= MAX_ARENAS then s.heap else s.heap[id := Arena([], 0, false, s.heap[id].gen)]))
  {
    hide ValidHeap;
  }

  /** OP_SET_CTX directs allocation to an open region, or to region 0, and to no other. */
  lemma SetContextStep(p: Program, s: State)
    requires ValidState(s) && Has(p, s.ip, [OP_SET_CTX]) && |s.stack| >= 1
    ensures var id := Top(s, 0).val;
      if id == 0 || (0 < id < MAX_ARENAS && s.heap[id].active) then
        Step(p, s) == Next(s.(ip := s.ip + 1, cur := id, stack := s.stack[..|s.stack| - 1]))
      else Step(p, s) == Stuck
  {
    hide ValidHeap;
    FetchOne(p, s, OP_SET_CTX);
  }

  // ---- Overflow ----

  /** The elements of the array that the instruction at `s.ip` makes. */
  ghost function Makes(p: Program, s: State): nat
    requires ValidState(s) && 0 <= s.ip < |p.code|
  {
    var op := p.code[s.ip];
    if op == OP_ARR && s.ip + 1 < |p.code| && p.code[s.ip + 1] > 0 then p.code[s.ip + 1]
    else if op == OP_RANGE && |s.stack| >= 2 then Abs(Top(s, 0).val - Top(s, 1).val) + 1
    else if op == OP_SLICE && |s.stack| >= 3 && Elems(s.heap, Top(s, 2)).Some? then |Elems(s.heap, Top(s, 2)).value|
    else 0
  }

  /** An instruction other than a return overflows only if the stack has no room for a frame, all scopes are in
      use, or the region has none for the new array. */
  lemma OverflowOnlyFull(p: Program, s: State)
    requires ValidState(s) && Step(p, s) == Overflow && p.code[s.ip] != OP_RET
    ensures 0 <= s.ip < |p.code|
    ensures var op := p.code[s.ip];
      || |s.stack| + 2 > STACK_SIZE
      || (op == OP_SCOPE_ENTER && |s.scopes| == MAX_SCOPES)
      || (op in {OP_ARR, OP_RANGE, OP_SLICE} && s.heap[s.cur].head + 2 + Makes(p, s) >= MAX_HEAP)
      || (op in {OP_ARR, OP_RANGE, OP_SLICE} && !s.heap[s.cur].active && 2 + Makes(p, s) >= MAX_HEAP)
  {
    hide ValidHeap, Elems, Arith, PushArray, Slice, Opened;
    var op, s1 := p.code[s.ip], s.(ip := s.ip + 1);
    if op == OP_SLICE {
      SliceFull(s1);
    } else if op == OP_RANGE {
      var start, stop := Top(s, 1).val, Top(s, 0).val;
      ArrayFull(Drop(s1, 2), seq(RangeLen(start, stop), i => Num(RangeAt(start, stop, i))));
    } else if op == OP_ARR && s1.ip < |p.code| && 0 <= p.code[s1.ip] <= |s.stack| {
      ArrayFull(Drop(s1.(ip := s1.ip + 1), p.code[s1.ip]), s.stack[|s.stack| - p.code[s1.ip]..]);
    }
  }

  lemma ArrayFull(s: State, cells: seq<Cell>)
    requires ValidState(s) && PushArray(s, cells) == Overflow
    ensures |s.stack| >= STACK_SIZE || (if s.heap[s.cur].active then s.heap[s.cur].head else 0) + 2 + |cells| >= MAX_HEAP
  {
    hide Append, ArrayBlock, Pack;
  }

  lemma SliceFull(s: State)
    requires ValidState(s) && ExecSlice(s) == Overflow
    ensures |s.stack| >= 3 && Elems(s.heap, Top(s, 2)).Some?
    ensures (if s.heap[s.cur].active then s.heap[s.cur].head else 0) + 2 + |Elems(s.heap, Top(s, 2)).value| >= MAX_HEAP
  {
    hide PushArray, Elems;
    var cells := Elems(s.heap, Top(s, 2)).value;
    ArrayFull(Drop(s, 3), Slice(cells, Top(s, 1).val, Top(s, 0).val));
  }
}
