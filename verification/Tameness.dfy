/** A syntactic test that suffices for the store hypothesis: where every assignment is of a number or a
    fresh array, or to a variable that outlives at most the innermost scope, no run ever puts the
    boundaries out of order (src/vm.c:1191-1217). */
module Tameness {
  import opened Defines
  import opened Arenas
  import opened Evacuation
  import opened Machine
  import opened Protection
  import opened Frames
  import opened Codegen
  import opened Depths
  import opened Agreement
  import opened Activations
  import opened Meaning
  import L = Language

  /** All scopes are in the current region, their boundaries in order and below its head. */
  ghost predicate Level(s: State) {
    && ValidState(s) && s.heap[s.cur].active
    && (forall k :: 0 <= k < |s.scopes| ==> s.scopes[k].arena == s.cur && s.scopes[k].head <= s.heap[s.cur].head)
    && forall j, k :: 0 <= j < k < |s.scopes| ==> s.scopes[j].head <= s.scopes[k].head
  }

  /** The top of the stack is a number, or an object above every boundary. */
  ghost predicate MildTop(s: State) {
    |s.stack| > 0 && (Top(s, 0).tag == T_OBJ ==> forall k :: 0 <= k < |s.scopes| ==> s.scopes[k].head <= Off(Top(s, 0).val))
  }

  ghost predicate Steady(d: Build, s: State, acts: seq<nat>) {
    && Consistent(d, s, acts) && Level(s)
    && (NoteAt(ListingOf(d, acts[|acts| - 1]), s.ip).mild ==> MildTop(s))
  }

  /** Such an assignment keeps the boundaries in order. */
  lemma TameStore(d: Build, s: State, acts: seq<nat>)
    requires Sound(d) && d.tame && Steady(d, s, acts)
    ensures StoreOk(d.p, s)
  {
    hide Sound, Consistent, NoteAt, Waiting, Off, ValidHeap, Goes;
    Running(d, s, acts);
    var g := ListingOf(d, acts[|acts| - 1]);
    var n := NoteAt(g, s.ip);
    if d.p.code[s.ip] == OP_SVAR {
      var arg := d.p.code[s.ip + 1];
      assert n.mild || !OutlivesTwo(arg, n.marks);
      if !n.mild {
        forall k | 0 <= k < |s.scopes| && Outlived(s.scopes[k], s.fp, s.fp + arg, s.cur) ensures k == |s.scopes| - 1 {
          assert k >= |s.scopes| - |n.marks|;
          assert s.scopes[k].spAtEntry == s.fp + n.marks[k - (|s.scopes| - |n.marks|)] - 1;
        }
      }
    }
  }

  // ---- Boundaries stay in order ----

  lemma StackOnlyLevel(s: State, t: State)
    requires Level(s) && ValidState(t) && t.heap == s.heap && t.scopes == s.scopes && t.cur == s.cur
    ensures Level(t)
  {
  }

  lemma EnterLevel(s: State, t: State)
    requires Level(s) && ExecEnter(s) == Next(t)
    ensures Level(t)
  {
  }

  lemma ExitLevel(s: State, t: State)
    requires Level(s) && ExecExit(s) == Next(t)
    ensures Level(t)
  {
  }

  /** A new array lies above every boundary. */
  lemma NewLevel(s: State, s0: State, cells: seq<Cell>, t: State)
    requires Level(s) && ValidState(s0) && s0.heap == s.heap && s0.scopes == s.scopes && s0.cur == s.cur
    requires PushArray(s0, cells) == Next(t)
    ensures Level(t) && MildTop(t)
  {
    hide Off, Region, Gen, Pack, ArrayBlock, Append;
    PackRoundTrip(s.heap[s.cur].gen, s.cur, s.heap[s.cur].head);
  }

  lemma StoreLevel(p: Program, s: State, ms: seq<nat>, t: State)
    requires Level(s) && 0 <= s.ip < |p.code| && p.code[s.ip] == OP_SVAR && StoreOk(p, s) && Step(p, s) == Next(t)
    requires Open(s.scopes, s.fp, ms) && Sorted(ms) && forall k :: 0 <= k < |s.scopes| - |ms| ==> s.scopes[k].fp < s.fp
    ensures Level(t)
  {
    hide Off, ValidHeap, Open;
    assert forall j, k :: 0 <= j < k < |s.scopes| && s.scopes[j].fp == s.fp ==> s.scopes[k].fp == s.fp && s.scopes[j].spAtEntry <= s.scopes[k].spAtEntry
      by { OwnSorted(s, ms); }
  }

  lemma OwnSorted(s: State, ms: seq<nat>)
    requires Open(s.scopes, s.fp, ms) && Sorted(ms) && forall k :: 0 <= k < |s.scopes| - |ms| ==> s.scopes[k].fp < s.fp
    ensures forall j, k :: 0 <= j < k < |s.scopes| && s.scopes[j].fp == s.fp ==> s.scopes[k].fp == s.fp && s.scopes[j].spAtEntry <= s.scopes[k].spAtEntry
  {
    var n := |s.scopes| - |ms|;
    forall j, k | 0 <= j < k < |s.scopes| && s.scopes[j].fp == s.fp
      ensures s.scopes[k].fp == s.fp && s.scopes[j].spAtEntry <= s.scopes[k].spAtEntry
    {
      assert j >= n && ms[j - n] <= ms[k - n];
    }
  }

  /** Returning rewinds to a boundary, which the others are below, or copies above the head. */
  lemma {:induction false} PopsLevel(scopes: seq<Scope>, fp: int, cur: int, h: Heap, rv: Cell)
    requires ValidHeap(h) && 0 <= cur < MAX_ARENAS && h[cur].active
    requires forall k :: 0 <= k < |scopes| ==> ValidScope(scopes[k]) && scopes[k].arena == cur && scopes[k].head <= h[cur].head
    requires forall j, k :: 0 <= j < k < |scopes| ==> scopes[j].head <= scopes[k].head
    requires PopScopes(scopes, fp, cur, h, rv).Some?
    ensures var u := PopScopes(scopes, fp, cur, h, rv).value;
      && |u.scopes| <= |scopes| && u.scopes == scopes[..|u.scopes|] && u.heap[cur].active
      && forall k :: 0 <= k < |u.scopes| ==> u.scopes[k].head <= u.heap[cur].head
    decreases |scopes|
  {
    hide Evac, Off;
    if |scopes| > 0 && scopes[|scopes| - 1].fp == fp {
      var j := |scopes| - 1;
      var sc, rest := scopes[j], scopes[..j];
      if rv.tag != T_OBJ {
        PopsLevel(rest, fp, cur, WithHead(h, cur, sc.head), rv);
      } else {
        var (h1, q) := Evac(h, rv.val, sc.head).value;
        assert SameArena(h[cur], h1[cur]);
        PopsLevel(rest, fp, cur, if Off(q) < sc.head then WithHead(h1, cur, sc.head) else h1, Cell(q, T_OBJ));
      }
    }
  }

  lemma RetLevel(s: State, t: State)
    requires Level(s) && ExecRet(s) == Next(t)
    ensures Level(t)
  {
    hide PopScopes, ValidHeap;
    PopsLevel(s.scopes, s.fp, s.cur, s.heap, Top(s, 0));
  }

  // ---- Steps ----

  /** Instructions that leave the scopes and the memory as they are. */
  predicate Quiet(op: int) {
    || IsMath(op) || IsCompare(op)
    || op in {OP_AND, OP_OR, OP_AGET, OP_IT_DEF, OP_ALEN, OP_POP, OP_PSH_NUM, OP_LVAR, OP_JMP, OP_JZ, OP_CALL}
  }

  lemma QuietStep(p: Program, s: State, t: State)
    requires ValidState(s) && 0 <= s.ip < |p.code| && Quiet(p.code[s.ip]) && Step(p, s) == Next(t)
    ensures t.heap == s.heap && t.scopes == s.scopes && t.cur == s.cur
  {
    hide Elems, Arith, Holds, ValidHeap;
  }

  lemma AllocStep(p: Program, s: State, t: State) returns (s0: State, cells: seq<Cell>)
    requires ValidState(s) && 0 <= s.ip < |p.code| && p.code[s.ip] in {OP_ARR, OP_SLICE, OP_RANGE} && Step(p, s) == Next(t)
    ensures ValidState(s0) && s0.heap == s.heap && s0.scopes == s.scopes && s0.cur == s.cur && PushArray(s0, cells) == Next(t)
  {
    hide Elems, PushArray, Slice, ValidHeap;
    var op, s1 := p.code[s.ip], s.(ip := s.ip + 1);
    if op == OP_SLICE {
      s0, cells := Drop(s1, 3), Slice(Elems(s.heap, Top(s, 2)).value, Top(s, 1).val, Top(s, 0).val);
    } else if op == OP_RANGE {
      var start, stop := Top(s, 1).val, Top(s, 0).val;
      s0, cells := Drop(s1, 2), seq(RangeLen(start, stop), i => Num(RangeAt(start, stop, i)));
    } else {
      var n := p.code[s1.ip];
      s0, cells := Drop(s.(ip := s.ip + 2), n), s.stack[|s.stack| - n..];
    }
  }

  lemma LevelStep(p: Program, g: Listing, s: State, n: Note, t: State)
    requires Level(s) && Inside(s, n) && g.p == p && Flow(g, s.ip, n) && StoreOk(p, s) && Step(p, s) == Next(t)
    ensures Level(t)
  {
    hide Goes, IsEntry, Level, ValidHeap, Off;
    var op := p.code[s.ip];
    assert ValidState(t);
    if Quiet(op) {
      QuietStep(p, s, t);
      StackOnlyLevel(s, t);
    } else if op == OP_SCOPE_ENTER {
      EnterLevel(s.(ip := s.ip + 1), t) by { LevelAt(s, s.ip + 1); }
    } else if op == OP_SCOPE_EXIT {
      ExitLevel(s.(ip := s.ip + 1), t) by { LevelAt(s, s.ip + 1); }
    } else if op == OP_RET {
      RetLevel(s.(ip := s.ip + 1), t) by { LevelAt(s, s.ip + 1); }
    } else if op == OP_SVAR {
      StoreLevel(p, s, n.marks, t);
    } else {
      var s0, cells := AllocStep(p, s, t);
      NewLevel(s, s0, cells, t);
    }
  }

  lemma LevelAt(s: State, ip: int)
    requires Level(s)
    ensures Level(s.(ip := ip))
  {
  }

  /** Where the top is noted as mild, it is. */
  lemma MildStep(p: Program, g: Listing, s: State, n: Note, t: State)
    requires Level(s) && ValidState(s) && Inside(s, n) && n.Spot? && g.p == p && Flow(g, s.ip, n) && Step(p, s) == Next(t)
    requires n.mild ==> MildTop(s)
    requires p.code[s.ip] != OP_CALL && p.code[s.ip] != OP_RET
    ensures NoteAt(g, t.ip).mild && NoteAt(g, t.ip).Spot? ==> MildTop(t)
  {
    hide IsEntry, Level, ValidHeap, Off, NoteAt, Inside;
    var op := p.code[s.ip];
    if op in {OP_ARR, OP_SLICE, OP_RANGE} {
      var s0, cells := AllocStep(p, s, t);
      NewLevel(s, s0, cells, t);
    } else if op == OP_JMP {
      JumpMild(p, g, s, n, t);
    } else if IsMath(op) || IsCompare(op) || op == OP_AND || op == OP_OR || op == OP_ALEN || op == OP_PSH_NUM {
      NumberOnTop(p, s, t);
    } else {
      NotMild(p, g, s, n, t);
    }
  }

  lemma JumpMild(p: Program, g: Listing, s: State, n: Note, t: State)
    requires ValidState(s) && n.Spot? && g.p == p && Flow(g, s.ip, n) && Step(p, s) == Next(t) && p.code[s.ip] == OP_JMP
    requires n.mild ==> MildTop(s)
    ensures NoteAt(g, t.ip).Spot? && NoteAt(g, t.ip).mild ==> MildTop(t)
  {
    hide ValidHeap, NoteAt, Off;
  }

  lemma NumberOnTop(p: Program, s: State, t: State)
    requires ValidState(s) && 0 <= s.ip < |p.code| && Step(p, s) == Next(t)
    requires var op := p.code[s.ip]; IsMath(op) || IsCompare(op) || op in {OP_AND, OP_OR, OP_ALEN, OP_PSH_NUM}
    ensures MildTop(t)
  {
    hide Elems, Arith, Holds, ValidHeap, Off;
  }

  /** After the other instructions nothing is noted of the top. */
  lemma NotMild(p: Program, g: Listing, s: State, n: Note, t: State)
    requires ValidState(s) && n.Spot? && g.p == p && Flow(g, s.ip, n) && Step(p, s) == Next(t)
    requires p.code[s.ip] in {OP_AGET, OP_IT_DEF, OP_POP, OP_SCOPE_ENTER, OP_SCOPE_EXIT, OP_LVAR, OP_SVAR, OP_JZ}
    ensures NoteAt(g, t.ip).Spot? && !NoteAt(g, t.ip).mild
  {
    hide Elems, ValidHeap, Off, NoteAt, BumpAll;
  }

  /** The invariant of every run of tame code. */
  lemma SteadyStep(d: Build, s: State, acts: seq<nat>, t: State) returns (acts': seq<nat>)
    requires Sound(d) && d.tame && Steady(d, s, acts) && Step(d.p, s) == Next(t)
    ensures StoreOk(d.p, s) && 0 <= s.ip < |d.p.code|
    ensures Steady(d, t, acts') || (|acts| == 1 && d.p.code[s.ip] == OP_RET)
  {
    hide Sound, Consistent, NoteAt, Level, Flow, Inside, StoreOk, MildTop, Step;
    TameStore(d, s, acts);
    Running(d, s, acts);
    var g := ListingOf(d, acts[|acts| - 1]);
    LevelStep(d.p, g, s, NoteAt(g, s.ip), t);
    acts' := StepConsistent(d, s, acts, t);
    if d.p.code[s.ip] != OP_CALL && d.p.code[s.ip] != OP_RET {
      assert ValidState(s) && NoteAt(g, s.ip).Spot? by { SpotOf(d, s, acts); }
      MildStep(d.p, g, s, NoteAt(g, s.ip), t);
      SpotOf(d, t, acts');
    }
  }


  /** The bottom function returns to where it was called from. */
  lemma HomeReached(d: Build, s: State, acts: seq<nat>, t: State)
    requires Consistent(d, s, acts) && |acts| == 1 && 0 <= s.ip < |d.p.code| && d.p.code[s.ip] == OP_RET && Step(d.p, s) == Next(t)
    ensures t.ip == d.home
  {
    hide PopScopes, ValidState, NoteAt;
  }

  /** In tame code no run of a function that returns past the code ever makes an unsafe store. */
  lemma {:induction false} SteadyRun(d: Build, s: State, acts: seq<nat>, n: nat, t: State)
    requires Sound(d) && d.tame && d.home >= |d.p.code| && Steady(d, s, acts) && Machine.Run(d.p, s, n) == Next(t)
    ensures ValidState(t) && StoreOk(d.p, t)
    decreases n
  {
    hide Sound, Steady, StoreOk, Step;
    TameStore(d, s, acts);
    if n > 0 {
      assert Consistent(d, s, acts) by { SteadyParts(d, s, acts); }
      hide Consistent;
      var s1 := Step(d.p, s).s;
      var a1 := SteadyStep(d, s, acts, s1);
      if Steady(d, s1, a1) {
        SteadyRun(d, s1, a1, n - 1, t);
      } else {
        HomeReached(d, s, acts, s1);
        Halts(d.p, s1, n - 1, t);
      }
    }
  }

  lemma SteadyParts(d: Build, s: State, acts: seq<nat>)
    requires Steady(d, s, acts)
    ensures Consistent(d, s, acts)
  {
  }

  lemma Halts(p: Program, s: State, n: nat, t: State)
    requires ValidState(s) && s.ip >= |p.code| && Machine.Run(p, s, n) == Next(t)
    ensures t == s && StoreOk(p, t)
  {
  }

  /** So the store hypothesis of the main theorem holds of every tame program, however it is called. */
  lemma TameOrderly(d: Build, f: nat, s: State, args: seq<Value>, z: Hole, low: seq<Value>)
    requires Sound(d) && d.tame && f < |d.fs| && |args| == d.fs[f].arity && |d.ln.addrs| == |d.fs|
    requires Entered(d.p, s, d.ln.addrs[f], args) && s.stack[s.fp - 2].val == d.home >= |d.p.code|
    requires Guarded(s.heap, s.cur, z, s.scopes, s.stack, low + args)
    ensures Orderly(d.p, s)
  {
    hide Sound, StoreOk, Machine.Run, Steady;
    EntryConsistent(d, f, s, args);
    assert Steady(d, s, [f]) by { EntrySteady(d, f, s, z, low + args); }
    forall t | Reach(d.p, s, t) ensures ValidState(t) && StoreOk(d.p, t) {
      var n: nat :| Machine.Run(d.p, s, n) == Next(t);
      SteadyRun(d, s, [f], n, t);
    }
  }

  lemma EntrySteady(d: Build, f: nat, s: State, z: Hole, vs: seq<Value>)
    requires Sound(d) && f < |d.fs| == |d.ln.addrs| && Consistent(d, s, [f]) && s.ip == d.ln.addrs[f]
    requires ValidState(s) && Guarded(s.heap, s.cur, z, s.scopes, s.stack, vs)
    ensures Steady(d, s, [f])
  {
    hide Sound, Consistent, NoteAt, Kept, ValidHeap;
    EntryBegins(d, f);
  }
}
