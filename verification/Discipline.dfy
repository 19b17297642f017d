/** Bump arenas stay stacks: over every run that frees no region, whatever it allocates, assigns,
    calls, returns from or switches between, the memory allocated before a live scope was entered is
    neither handed out again nor changed (src/vm.c:503-515, 1205-1216, 1252-1271, 1822-1840). */
module Discipline {
  import opened Defines
  import opened Arenas
  import opened Evacuation
  import opened Machine

  /** `entries[k]` is the head that scope `k`'s region had when the scope was entered. */
  ghost predicate Disciplined(s: State, entries: seq<int>) {
    && ValidState(s) && s.heap[0].active && s.heap[s.cur].active
    && Ordered(s.heap, s.scopes, entries)
  }

  ghost predicate Ordered(h: Heap, scopes: seq<Scope>, entries: seq<int>)
    requires ValidHeap(h)
  {
    && |entries| == |scopes|
    && (forall k :: 0 <= k < |scopes| ==>
          && ValidScope(scopes[k]) && h[scopes[k].arena].active
          && 0 <= entries[k] <= scopes[k].head && entries[k] <= h[scopes[k].arena].head)
    && (forall j, k :: 0 <= j < k < |scopes| && scopes[j].arena == scopes[k].arena ==> entries[j] <= entries[k])
  }

  function EntriesAfter(s: State, t: State, entries: seq<int>): (r: seq<int>)
    requires 0 <= s.cur < |s.heap|
  {
    if |t.scopes| > |entries| then entries + [s.heap[s.cur].head] else entries[..|t.scopes|]
  }

  /** The step leaves everything below the entry points of the scopes that stay open as it was. */
  ghost predicate Preserves(s: State, t: State, entries: seq<int>) {
    && Disciplined(s, entries) && Disciplined(t, EntriesAfter(s, t, entries))
    && forall k :: 0 <= k < |s.scopes| && k < |t.scopes| ==>
         && t.scopes[k].arena == s.scopes[k].arena
         && forall j :: 0 <= j < entries[k] ==>
              j < |s.heap[s.scopes[k].arena].mem| && j < |t.heap[s.scopes[k].arena].mem|
              && t.heap[s.scopes[k].arena].mem[j] == s.heap[s.scopes[k].arena].mem[j]
  }

  // ---- The kinds of step ----

  lemma SameMemory(s: State, t: State, entries: seq<int>)
    requires Disciplined(s, entries) && ValidState(t) && t.heap[t.cur].active
    requires t.heap == s.heap && t.scopes == s.scopes
    ensures Preserves(s, t, entries)
  {
    assert entries[..|t.scopes|] == entries;
  }

  /** Growing any heads, or opening regions that were closed. */
  lemma MoreMemory(s: State, t: State, entries: seq<int>)
    requires Disciplined(s, entries) && ValidState(t) && t.cur == s.cur && t.scopes == s.scopes
    requires forall i :: 0 <= i < MAX_ARENAS && s.heap[i].active ==>
      && t.heap[i].active && s.heap[i].head <= t.heap[i].head
      && forall j :: 0 <= j < s.heap[i].head ==> t.heap[i].mem[j] == s.heap[i].mem[j]
    ensures Preserves(s, t, entries)
  {
    assert entries[..|t.scopes|] == entries;
  }

  lemma Bumping(s: State, t: State, entries: seq<int>, idx: int, off: int)
    requires Disciplined(s, entries) && ValidState(t) && t.cur == s.cur && t.heap == s.heap
    requires t.scopes == BumpAll(s.scopes, s.fp, idx, s.cur, off, s.heap[s.cur].head)
    ensures Preserves(s, t, entries)
  {
    assert entries[..|t.scopes|] == entries;
  }

  lemma Entering(s: State, t: State, entries: seq<int>)
    requires Disciplined(s, entries) && ExecEnter(s) == Next(t)
    ensures Preserves(s, t, entries)
  {
  }

  /** A region rewound to the boundary of the last scope keeps what the others protect. */
  lemma RewindOrdered(h: Heap, scopes: seq<Scope>, entries: seq<int>)
    requires ValidHeap(h) && |scopes| > 0 && Ordered(h, scopes, entries)
    ensures var j := |scopes| - 1;
      Ordered(WithHead(h, scopes[j].arena, scopes[j].head), scopes[..j], entries[..j])
  {
  }

  lemma Leaving(s: State, t: State, entries: seq<int>)
    requires Disciplined(s, entries) && ExecExit(s) == Next(t)
    ensures Preserves(s, t, entries)
  {
    if |s.scopes| > 0 {
      RewindOrdered(s.heap, s.scopes, entries);
    } else {
      SameMemory(s, t, entries);
    }
  }

  /** The part of `h` below the entry points of the first `n` scopes is the same in `h'`. */
  ghost predicate Frozen(h: Heap, h': Heap, scopes: seq<Scope>, entries: seq<int>, n: nat)
    requires ValidHeap(h) && ValidHeap(h') && n <= |scopes| && n <= |entries|
  {
    forall k :: 0 <= k < n ==>
      && 0 <= scopes[k].arena < MAX_ARENAS && entries[k] <= MAX_HEAP
      && h[scopes[k].arena].active && h'[scopes[k].arena].active
      && SamePrefix(h[scopes[k].arena].mem, h'[scopes[k].arena].mem, entries[k])
  }

  ghost predicate SamePrefix(m: seq<Cell>, m': seq<Cell>, n: int)
    requires n <= |m| && n <= |m'|
  {
    forall j :: 0 <= j < n ==> m'[j] == m[j]
  }

  ghost predicate SameRegions(h: Heap, h': Heap)
    requires |h| == MAX_ARENAS && |h'| == MAX_ARENAS
  {
    forall i :: 0 <= i < MAX_ARENAS ==> h'[i].active == h[i].active
  }

  lemma GrownOrdered(h: Heap, h': Heap, scopes: seq<Scope>, entries: seq<int>)
    requires ValidHeap(h) && ValidHeap(h') && Grown(h, h') && Ordered(h, scopes, entries)
    ensures Ordered(h', scopes, entries) && Frozen(h, h', scopes, entries, |scopes|) && SameRegions(h, h')
  {
    assert forall i :: 0 <= i < MAX_ARENAS ==> SameArena(h[i], h'[i]) && h[i].head <= h'[i].head;
    forall k | 0 <= k < |scopes|
      ensures h'[scopes[k].arena].active && entries[k] <= h'[scopes[k].arena].head
      ensures forall j :: 0 <= j < entries[k] ==> h'[scopes[k].arena].mem[j] == h[scopes[k].arena].mem[j]
    {
      var a := scopes[k].arena;
      assert ValidArena(h[a]) && ValidArena(h'[a]) && SameArena(h[a], h'[a]);
    }
  }

  lemma FrozenTrans(h: Heap, h1: Heap, h2: Heap, scopes: seq<Scope>, entries: seq<int>, m: nat, n: nat)
    requires ValidHeap(h) && ValidHeap(h1) && ValidHeap(h2) && n <= m <= |scopes| == |entries|
    requires Frozen(h, h1, scopes, entries, m) && Frozen(h1, h2, scopes, entries, n)
    ensures Frozen(h, h2, scopes, entries, n)
  {
    forall k | 0 <= k < n
      ensures SamePrefix(h[scopes[k].arena].mem, h2[scopes[k].arena].mem, entries[k])
    {
      var a := scopes[k].arena;
      assert SamePrefix(h[a].mem, h1[a].mem, entries[k]) && SamePrefix(h1[a].mem, h2[a].mem, entries[k]);
    }
  }

  lemma FrozenPrefix(h: Heap, h': Heap, scopes: seq<Scope>, entries: seq<int>, j: nat, n: nat)
    requires ValidHeap(h) && ValidHeap(h') && n <= j <= |scopes| == |entries|
    requires Frozen(h, h', scopes[..j], entries[..j], n)
    ensures Frozen(h, h', scopes, entries, n)
  {
    hide SamePrefix, ValidHeap;
    assert forall k :: 0 <= k < n ==> scopes[..j][k] == scopes[k] && entries[..j][k] == entries[k];
  }

  lemma RewindFrozen(h: Heap, scopes: seq<Scope>, entries: seq<int>, a: int, head: int)
    requires ValidHeap(h) && Ordered(h, scopes, entries) && 0 <= a < MAX_ARENAS && 0 <= head < MAX_HEAP
    ensures Frozen(h, WithHead(h, a, head), scopes, entries, |scopes|) && SameRegions(h, WithHead(h, a, head))
  {
  }

  /** OP_RET leaves the scopes of one frame, rewinding and copying as it goes. */
  lemma {:induction false} PoppedOrdered(scopes: seq<Scope>, fp: int, cur: int, h: Heap, rv: Cell, entries: seq<int>)
    requires ValidHeap(h) && 0 <= cur < MAX_ARENAS && Ordered(h, scopes, entries)
    requires forall k :: 0 <= k < |scopes| ==> ValidScope(scopes[k])
    requires PopScopes(scopes, fp, cur, h, rv).Some?
    ensures var u := PopScopes(scopes, fp, cur, h, rv).value;
      && |u.scopes| <= |scopes| && u.scopes == scopes[..|u.scopes|]
      && Ordered(u.heap, u.scopes, entries[..|u.scopes|])
      && Frozen(h, u.heap, scopes, entries, |u.scopes|) && SameRegions(h, u.heap)
    decreases |scopes|
  {
    hide Evac, Off, Ordered, Frozen, SameRegions;
    var u := PopScopes(scopes, fp, cur, h, rv).value;
    if |scopes| == 0 || scopes[|scopes| - 1].fp != fp {
      StaysOrdered(h, scopes, entries);
    } else {
      var j := |scopes| - 1;
      var sc, rest := scopes[j], scopes[..j];
      assert ValidScope(sc) by { FirstScopes(h, scopes, entries, j); }
      FirstScopes(h, scopes, entries, j);
      var (h1, rv1) := if rv.tag == T_OBJ && sc.arena == cur
        then (Evac(h, rv.val, sc.head).value.0, Cell(Evac(h, rv.val, sc.head).value.1, T_OBJ)) else (h, rv);
      var rewinds := sc.arena == cur && (rv.tag != T_OBJ || Off(rv1.val) < sc.head);
      var h2 := if rewinds then WithHead(h1, cur, sc.head) else h1;
      assert Grown(h, h1);
      PopOnce(h, h1, h2, scopes, entries, cur, rewinds);
      PoppedOrdered(rest, fp, cur, h2, rv1, entries[..j]);
      var n := |u.scopes|;
      assert rest[..n] == scopes[..n] && entries[..j][..n] == entries[..n];
      FrozenPrefix(h2, u.heap, scopes, entries, j, n);
      FrozenTrans(h, h2, u.heap, scopes, entries, j, n);
      RegionsTrans(h, h2, u.heap);
    }
  }

  lemma RegionsTrans(h: Heap, h1: Heap, h2: Heap)
    requires |h| == MAX_ARENAS && |h1| == MAX_ARENAS && |h2| == MAX_ARENAS && SameRegions(h, h1) && SameRegions(h1, h2)
    ensures SameRegions(h, h2)
  {
  }

  lemma StaysOrdered(h: Heap, scopes: seq<Scope>, entries: seq<int>)
    requires ValidHeap(h) && Ordered(h, scopes, entries)
    ensures scopes[..|scopes|] == scopes && entries[..|scopes|] == entries
    ensures Frozen(h, h, scopes, entries, |scopes|) && SameRegions(h, h)
  {
  }

  lemma FirstScopes(h: Heap, scopes: seq<Scope>, entries: seq<int>, j: nat)
    requires ValidHeap(h) && Ordered(h, scopes, entries) && j < |scopes|
    ensures |entries| == |scopes| && Ordered(h, scopes[..j], entries[..j]) && ValidScope(scopes[j])
    ensures forall k :: 0 <= k < |scopes| ==> ValidScope(scopes[k])
  {
  }

  lemma PopOnce(h: Heap, h1: Heap, h2: Heap, scopes: seq<Scope>, entries: seq<int>, cur: int, rewinds: bool)
    requires ValidHeap(h) && ValidHeap(h1) && Grown(h, h1) && |scopes| > 0 && Ordered(h, scopes, entries)
    requires 0 <= cur < MAX_ARENAS
    requires var sc := scopes[|scopes| - 1];
      && (rewinds ==> sc.arena == cur && 0 <= sc.head < MAX_HEAP)
      && h2 == if rewinds then WithHead(h1, cur, sc.head) else h1
    ensures var j := |scopes| - 1;
      && ValidHeap(h2) && Ordered(h2, scopes[..j], entries[..j])
      && Frozen(h, h2, scopes, entries, j) && SameRegions(h, h2)
  {
    hide Grown, SameRegions, Ordered;
    var j := |scopes| - 1;
    GrownOrdered(h, h1, scopes, entries);
    FirstScopes(h1, scopes, entries, j);
    if rewinds {
      RewindOrdered(h1, scopes, entries);
      RewindFrozen(h1, scopes, entries, cur, scopes[j].head);
      FrozenTrans(h, h1, h2, scopes, entries, j + 1, j);
      RegionsTrans(h, h1, h2);
    }
  }

  lemma Returning(s: State, t: State, entries: seq<int>)
    requires Disciplined(s, entries) && ExecRet(s) == Next(t)
    ensures Preserves(s, t, entries)
  {
    hide PopScopes;
    PoppedOrdered(s.scopes, s.fp, s.cur, s.heap, Top(s, 0), entries);
  }

  lemma Allocating(s: State, t: State, cells: seq<Cell>, s0: State, entries: seq<int>)
    requires Disciplined(s, entries) && ValidState(s0) && PushArray(s0, cells) == Next(t)
    requires s0.heap == s.heap && s0.scopes == s.scopes && s0.cur == s.cur
    ensures Preserves(s, t, entries)
  {
    hide Pack;
    assert Grown(s.heap, t.heap);
    assert forall i :: 0 <= i < MAX_ARENAS ==> SameArena(s.heap[i], t.heap[i]);
    MoreMemory(s, t, entries);
  }

  lemma RegionOps(s: State, t: State, op: int, entries: seq<int>)
    requires Disciplined(s, entries) && ExecRegion(s, op) == Next(t) && op != OP_DEL_ARENA
    ensures Preserves(s, t, entries)
  {
    if op == OP_NEW_ARENA {
      MoreMemory(s, t, entries);
    } else {
      SameMemory(s, t, entries);
    }
  }

  // ---- Every step ----

  lemma StepPreserves(p: Program, s: State, entries: seq<int>, t: State)
    requires Disciplined(s, entries) && Step(p, s) == Next(t)
    requires p.code[s.ip] != OP_DEL_ARENA
    ensures Preserves(s, t, entries)
  {
    hide *;
    var s1 := s.(ip := s.ip + 1);
    ValidOf(s, entries);
    DisciplinedAt(s, entries, s.ip + 1);
    StepIsExec(p, s, t);
    ExecPreserves(p, s1, p.code[s.ip], entries, t);
    Reanchored(s, s1, t, entries);
  }

  lemma StepIsExec(p: Program, s: State, t: State)
    requires ValidState(s) && Step(p, s) == Next(t)
    ensures 0 <= s.ip < |p.code| && ValidState(s.(ip := s.ip + 1)) && Exec(p, s.(ip := s.ip + 1), p.code[s.ip]) == Next(t)
  {
    hide ValidHeap, Exec;
  }

  lemma DisciplinedAt(s: State, entries: seq<int>, ip: int)
    requires Disciplined(s, entries)
    ensures ValidState(s) && Disciplined(s.(ip := ip), entries)
  {
    hide ValidHeap, Ordered;
  }

  lemma Reanchored(s: State, s1: State, t: State, entries: seq<int>)
    requires Disciplined(s, entries) && s1 == s.(ip := s1.ip) && Preserves(s1, t, entries)
    ensures Preserves(s, t, entries)
  {
  }

  /** Instructions that touch only the stack and the instruction pointer. */
  predicate StackOnly(op: int) {
    || IsMath(op) || IsCompare(op) || op == OP_OR || op == OP_AND || op == OP_AGET || op == OP_ALEN
    || op == OP_IT_KEY || op == OP_IT_VAL || op == OP_IT_DEF || op == OP_DUP || op == OP_POP
    || op == OP_PSH_NUM || op == OP_LVAR || op == OP_JMP || op == OP_JZ || op == OP_JNZ || op == OP_CALL
  }

  lemma StackOnlyStep(p: Program, s: State, op: int, t: State)
    requires ValidState(s) && 0 <= s.ip && StackOnly(op) && Exec(p, s, op) == Next(t)
    ensures t.heap == s.heap && t.scopes == s.scopes && t.cur == s.cur
  {
    hide Elems, Arith, Holds;
  }

  lemma ExecPreserves(p: Program, s: State, op: int, entries: seq<int>, t: State)
    requires Disciplined(s, entries) && 0 <= s.ip && op != OP_DEL_ARENA && Exec(p, s, op) == Next(t)
    ensures Preserves(s, t, entries)
  {
    hide Disciplined, Preserves, ValidState, PushArray, ExecRet, ExecRegion, ExecEnter, ExecExit, Elems;
    ValidOf(s, entries);
    if StackOnly(op) {
      StackOnlyStep(p, s, op, t);
      SameMemory(s, t, entries) by { StillActive(s, t, entries); }
    } else if op == OP_SCOPE_ENTER {
      Entering(s, t, entries);
    } else if op == OP_SCOPE_EXIT {
      Leaving(s, t, entries);
    } else if op == OP_RET {
      Returning(s, t, entries);
    } else if op == OP_NEW_ARENA || op == OP_SET_CTX {
      RegionOps(s, t, op, entries);
    } else if op == OP_SVAR {
      Storing(p, s, entries, t);
    } else {
      var s0, cells := AllocatingStep(p, s, op, t);
      Allocating(s, t, cells, s0, entries);
    }
  }

  lemma StillActive(s: State, t: State, entries: seq<int>)
    requires Disciplined(s, entries) && t.heap == s.heap && t.cur == s.cur
    ensures |t.heap| == MAX_ARENAS && 0 <= t.cur < MAX_ARENAS && t.heap[t.cur].active
  {
  }

  lemma AllocatingStep(p: Program, s: State, op: int, t: State) returns (s0: State, cells: seq<Cell>)
    requires ValidState(s) && 0 <= s.ip && Exec(p, s, op) == Next(t)
    requires !StackOnly(op) && op !in {OP_SCOPE_ENTER, OP_SCOPE_EXIT, OP_RET, OP_NEW_ARENA, OP_DEL_ARENA, OP_SET_CTX, OP_SVAR}
    ensures ValidState(s0) && s0.heap == s.heap && s0.scopes == s.scopes && s0.cur == s.cur
    ensures PushArray(s0, cells) == Next(t)
  {
    hide Elems, PushArray, Slice;
    if op == OP_SLICE {
      s0, cells := Drop(s, 3), Slice(Elems(s.heap, Top(s, 2)).value, Top(s, 1).val, Top(s, 0).val);
    } else if op == OP_RANGE {
      var start, stop := Top(s, 1).val, Top(s, 0).val;
      s0, cells := Drop(s, 2), seq(RangeLen(start, stop), i => Num(RangeAt(start, stop, i)));
    } else {
      var n := p.code[s.ip];
      s0, cells := Drop(s.(ip := s.ip + 1), n), s.stack[|s.stack| - n..];
    }
  }

  lemma Storing(p: Program, s: State, entries: seq<int>, t: State)
    requires Disciplined(s, entries) && 0 <= s.ip && Exec(p, s, OP_SVAR) == Next(t)
    ensures Preserves(s, t, entries)
  {
    hide Disciplined, Preserves, Off;
    var c := Top(s, 0);
    assert ValidState(s) by { ValidOf(s, entries); }
    StillActive(s, s, entries);
    if c.tag != T_OBJ {
      SameMemory(s, t, entries);
    } else {
      Bumping(s, t, entries, s.fp + p.code[s.ip], Off(c.val));
    }
  }

  lemma ValidOf(s: State, entries: seq<int>)
    requires Disciplined(s, entries)
    ensures ValidState(s)
  {
  }

  // ---- Every run ----

  /** The first `n` steps succeed, free no region, and keep scope `k` open throughout. */
  ghost predicate Quiet(p: Program, s: State, n: nat, k: nat)
    requires ValidState(s)
    decreases n
  {
    n == 0 ||
    (Step(p, s).Next? && p.code[s.ip] != OP_DEL_ARENA && k < |Step(p, s).s.scopes| && Quiet(p, Step(p, s).s, n - 1, k))
  }

  /** For the whole life of scope `k`, the head of its region stays at or above where it was on entry
      and no cell below that point changes. */
  lemma {:induction false} ScopeMemorySafe(p: Program, s: State, entries: seq<int>, n: nat, k: nat)
    returns (t: State, entries': seq<int>)
    requires Disciplined(s, entries) && k < |s.scopes| && Quiet(p, s, n, k)
    ensures Run(p, s, n) == Next(t) && Disciplined(t, entries') && k < |t.scopes|
    ensures t.scopes[k].arena == s.scopes[k].arena && entries'[k] == entries[k]
    ensures var a := s.scopes[k].arena;
      && entries[k] <= t.heap[a].head
      && t.heap[a].active && s.heap[a].active
      && forall j :: 0 <= j < entries[k] ==> t.heap[a].mem[j] == s.heap[a].mem[j]
    decreases n
  {
    hide Step;
    if n == 0 {
      t, entries' := s, entries;
    } else {
      var u := Step(p, s).s;
      StepPreserves(p, s, entries, u);
      var us := EntriesAfter(s, u, entries);
      assert us[k] == entries[k];
      t, entries' := ScopeMemorySafe(p, u, us, n - 1, k);
    }
  }

  /** An allocation inside the scope therefore never reaches below its entry point. */
  lemma AllocatedAbove(s: State, entries: seq<int>, k: nat, cells: seq<Cell>, t: State)
    requires Disciplined(s, entries) && k < |s.scopes| && s.scopes[k].arena == s.cur
    requires PushArray(s, cells) == Next(t)
    ensures Region(Top(t, 0).val) == s.cur && entries[k] <= Off(Top(t, 0).val)
  {
    hide Off, Region, Gen, Pack;
    PackRoundTrip(s.heap[s.cur].gen, s.cur, s.heap[s.cur].head);
  }
}
