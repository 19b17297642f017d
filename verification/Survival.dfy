/** Maps outlive nested scopes and calls: a map regrown inside a scope that is younger than its header
    keeps its pairs when that scope is left, because growth lifts the boundaries above the header over
    the new block (src/vm.c:1246-1271, 1417-1440, 1822-1840). */
module Survival {
  import opened Defines
  import opened Arenas
  import opened Evacuation
  import opened Machine
  import opened Maps
  import D = Discipline

  ghost predicate Has(h: Heap, p: int, x: Layout)
    requires ValidHeap(h)
  {
    MapAt(h, p, x.cap, x.data, x.pairs) && Region(x.data) == Region(p)
  }

  /** Each boundary above the map's header is above all of the map. */
  ghost predicate Sheltered(scopes: seq<Scope>, p: int, x: Layout) {
    forall k :: 0 <= k < |scopes| && scopes[k].arena == Region(p) && Off(p) < scopes[k].head ==>
      Off(p) + 4 <= scopes[k].head && Off(x.data) + 2 * x.cap <= scopes[k].head
  }

  /** The map was made when `n0` scopes were open, and those since are younger. */
  ghost predicate Held(s: State, p: int, x: Layout, n0: nat) {
    && ValidState(s) && Has(s.heap, p, x) && Sheltered(s.scopes, p, x) && n0 <= |s.scopes|
    && forall k :: n0 <= k < |s.scopes| && s.scopes[k].arena == Region(p) ==> Off(p) < s.scopes[k].head
  }

  // ---- The map itself ----

  /** What does not touch the cells below the heads keeps the map. */
  lemma HasGrown(h: Heap, h': Heap, p: int, x: Layout)
    requires ValidHeap(h) && ValidHeap(h') && Has(h, p, x) && Undisturbed(h, h')
    ensures Has(h', p, x)
  {
    hide Off, Region, Gen, Flat;
    var a := Region(p);
    assert h'[a].mem[Off(x.data)..Off(x.data) + 2 * |x.pairs|] == h[a].mem[Off(x.data)..Off(x.data) + 2 * |x.pairs|];
  }

  /** So does rewinding to a boundary above it. */
  lemma HasRewound(h: Heap, a: int, b: int, p: int, x: Layout)
    requires ValidHeap(h) && 0 <= a < MAX_ARENAS && 0 <= b < MAX_HEAP && Has(h, p, x)
    requires a == Region(p) ==> Off(p) + 4 <= b && Off(x.data) + 2 * x.cap <= b
    ensures Has(WithHead(h, a, b), p, x)
  {
    hide Off, Region, Gen, Flat;
  }

  lemma GrownUndisturbed(h: Heap, h': Heap)
    requires ValidHeap(h) && ValidHeap(h') && Grown(h, h')
    ensures Undisturbed(h, h')
  {
    assert forall i :: 0 <= i < MAX_ARENAS ==> SameArena(h[i], h'[i]);
  }

  // ---- Growth ----

  /** Storing in a map of the current region keeps it sheltered, however often it grows. */
  lemma SetsHeld(s: State, t: State, p: int, k: Cell, v: Cell, x: Layout, y: Layout, n0: nat)
    requires Held(s, p, x, n0) && Sets(s, t, p, k, v, x, y) && s.cur == Region(p)
    ensures Held(t, p, y, n0)
  {
    hide Off, Region, Gen, Flat, Put, Unique;
  }

  /** The exact condition: a regrown block is above none of a region's boundaries that were above the
      header; one that was not, because the header is in another region, stays below the block. */
  lemma RegrownSheltered(s: State, t: State, p: int, k: Cell, v: Cell, x: Layout, y: Layout, i: nat)
    requires Sets(s, t, p, k, v, x, y) && IndexOf(x.pairs, k) == |x.pairs| == x.cap && x.cap > 0
    requires i < |s.scopes| && s.scopes[i].arena == s.cur && 0 <= s.scopes[i].head <= Off(y.data)
    ensures Off(y.data) + 2 * y.cap <= t.scopes[i].head <==> Off(p) < s.scopes[i].head
  {
    hide Off, Region, Gen, Flat, Put, Unique, MapAt, MapFrame;
  }

  /** Growth lifts a boundary to the new head, and touches only those of the current region that were above the
      header. */
  lemma RegrownElsewhere(s: State, t: State, p: int, k: Cell, v: Cell, x: Layout, y: Layout, i: nat)
    requires Sets(s, t, p, k, v, x, y) && i < |s.scopes|
    ensures |t.scopes| == |s.scopes| && t.scopes[i].arena == s.scopes[i].arena && t.scopes[i].fp == s.scopes[i].fp
    ensures t.scopes[i].spAtEntry == s.scopes[i].spAtEntry
    ensures t.scopes[i].head == s.scopes[i].head ||
      (s.scopes[i].arena == s.cur && s.scopes[i].head > Off(p) && t.scopes[i].head == t.heap[s.cur].head)
    ensures t.scopes[i].head != s.scopes[i].head ==> IndexOf(x.pairs, k) == |x.pairs| == x.cap
  {
    hide Off, Region, Gen, Flat, Put, Unique, MapAt, MapFrame;
  }

  // ---- Steps of the machine ----

  lemma QuietHeld(s: State, t: State, p: int, x: Layout, n0: nat)
    requires Held(s, p, x, n0) && ValidState(t) && t.scopes == s.scopes && Undisturbed(s.heap, t.heap)
    ensures Held(t, p, x, n0)
  {
    hide Has, Sheltered, Off, Region, Undisturbed;
    HasGrown(s.heap, t.heap, p, x);
  }

  lemma SameUndisturbed(h: Heap)
    requires ValidHeap(h)
    ensures Undisturbed(h, h)
  {
  }

  lemma AllocHeld(s: State, s0: State, cells: seq<Cell>, t: State, p: int, x: Layout, n0: nat)
    requires Held(s, p, x, n0) && ValidState(s0) && s0.heap == s.heap && s0.scopes == s.scopes && s0.cur == s.cur
    requires PushArray(s0, cells) == Next(t)
    ensures Held(t, p, x, n0)
  {
    hide Held, Pack, ArrayBlock;
    assert Undisturbed(s.heap, t.heap) by {
      var h := if s.heap[s.cur].active then s.heap else Opened(s.heap, s.cur);
      GrownUndisturbed(h, Append(h, s.cur, ArrayBlock(h, s.cur, cells)));
    }
    QuietHeld(s, t, p, x, n0);
  }

  /** Raising boundaries of the current region to its head keeps them above the map. */
  lemma RaisedHeld(s: State, t: State, p: int, x: Layout, n0: nat)
    requires Held(s, p, x, n0) && ValidState(t) && t.heap == s.heap && |t.scopes| == |s.scopes|
    requires forall k :: 0 <= k < |s.scopes| ==>
      t.scopes[k] == s.scopes[k] || (s.scopes[k].arena == s.cur && t.scopes[k] == s.scopes[k].(head := s.heap[s.cur].head))
    ensures Held(t, p, x, n0)
  {
    hide Off, Region, Gen, Flat;
  }

  lemma EnterHeld(s: State, t: State, p: int, x: Layout, n0: nat)
    requires Held(s, p, x, n0) && ExecEnter(s) == Next(t)
    ensures Held(t, p, x, n0)
  {
    hide Off, Region, Gen, Flat;
  }

  /** Leaving a scope that is younger than the map. */
  lemma LeaveHeld(s: State, t: State, p: int, x: Layout, n0: nat)
    requires Held(s, p, x, n0) && n0 < |s.scopes| && ValidState(t)
    requires var j := |s.scopes| - 1;
      t.scopes == s.scopes[..j] && (t.heap == s.heap || t.heap == WithHead(s.heap, s.scopes[j].arena, s.scopes[j].head))
    ensures Held(t, p, x, n0)
  {
    hide Off, Region, Gen, MapAt;
    var j := |s.scopes| - 1;
    if t.heap != s.heap {
      HasRewound(s.heap, s.scopes[j].arena, s.scopes[j].head, p, x);
    }
  }

  lemma ExitHeld(s: State, t: State, p: int, x: Layout, n0: nat)
    requires Held(s, p, x, n0) && ExecExit(s) == Next(t) && n0 <= |t.scopes|
    ensures Held(t, p, x, n0)
  {
    if |s.scopes| > 0 {
      LeaveHeld(s, t, p, x, n0);
    }
  }

  /** OP_RET leaves the scopes of its frame one after the other, copying the result out. */
  lemma {:induction false} PopsHeld(s: State, fp: int, rv: Cell, p: int, x: Layout, n0: nat)
    requires Held(s, p, x, n0) && PopScopes(s.scopes, fp, s.cur, s.heap, rv).Some?
    requires n0 <= |PopScopes(s.scopes, fp, s.cur, s.heap, rv).value.scopes|
    ensures var u := PopScopes(s.scopes, fp, s.cur, s.heap, rv).value; Held(s.(scopes := u.scopes, heap := u.heap), p, x, n0)
    decreases |s.scopes|
  {
    hide Held, Evac, Off;
    assert ValidState(s) by { HeldValid(s, p, x, n0); }
    if |s.scopes| > 0 && s.scopes[|s.scopes| - 1].fp == fp {
      var j := |s.scopes| - 1;
      var sc, rest := s.scopes[j], s.scopes[..j];
      assert ValidScope(sc);
      var (h1, rv1) := if rv.tag == T_OBJ && sc.arena == s.cur
        then (Evac(s.heap, rv.val, sc.head).value.0, Cell(Evac(s.heap, rv.val, sc.head).value.1, T_OBJ)) else (s.heap, rv);
      var rewinds := sc.arena == s.cur && (rv.tag != T_OBJ || Off(rv1.val) < sc.head);
      var h2 := if rewinds then WithHead(h1, s.cur, sc.head) else h1;
      var s1, s2 := s.(heap := h1), s.(scopes := rest, heap := h2);
      GrownHere(s.heap, h1);
      QuietHeld(s, s1, p, x, n0);
      LeaveHeld(s1, s2, p, x, n0);
      PopsHeld(s2, fp, rv1, p, x, n0);
    }
  }

  lemma HeldValid(s: State, p: int, x: Layout, n0: nat)
    requires Held(s, p, x, n0)
    ensures ValidState(s)
  {
  }

  lemma GrownHere(h: Heap, h': Heap)
    requires ValidHeap(h) && ValidHeap(h') && (h' == h || Grown(h, h'))
    ensures Undisturbed(h, h')
  {
    if h' != h { GrownUndisturbed(h, h'); }
  }

  lemma RetHeld(s: State, t: State, p: int, x: Layout, n0: nat)
    requires Held(s, p, x, n0) && ExecRet(s) == Next(t) && n0 <= |t.scopes|
    ensures Held(t, p, x, n0)
  {
    hide PopScopes, Has, Sheltered, Off, Region;
    PopsHeld(s, s.fp, Top(s, 0), p, x, n0);
  }

  lemma OpenHeld(s: State, t: State, op: int, p: int, x: Layout, n0: nat)
    requires Held(s, p, x, n0) && ExecRegion(s, op) == Next(t) && op != OP_DEL_ARENA
    ensures Held(t, p, x, n0)
  {
    hide Held;
    assert ValidState(s) by { HeldValid(s, p, x, n0); }
    QuietHeld(s, t, p, x, n0);
  }

  /** Every instruction but the freeing of a region keeps the map, as long as no scope that was open
      when the map was made is left. */
  lemma StepHeld(prog: Program, s: State, t: State, p: int, x: Layout, n0: nat)
    requires Held(s, p, x, n0) && Step(prog, s) == Next(t) && prog.code[s.ip] != OP_DEL_ARENA && n0 <= |t.scopes|
    ensures Held(t, p, x, n0)
  {
    hide Held, ExecRet, ExecRegion, ExecEnter, ExecExit, PushArray, ValidHeap;
    var op, s1 := prog.code[s.ip], s.(ip := s.ip + 1);
    assert Held(s1, p, x, n0) by { HeldAt(s, p, x, n0, s.ip + 1); }
    assert ValidState(s1) by { HeldValid(s1, p, x, n0); }
    if D.StackOnly(op) {
      D.StackOnlyStep(prog, s1, op, t);
      SameUndisturbed(s.heap);
      QuietHeld(s1, t, p, x, n0);
    } else if op == OP_SCOPE_ENTER {
      EnterHeld(s1, t, p, x, n0);
    } else if op == OP_SCOPE_EXIT {
      ExitHeld(s1, t, p, x, n0);
    } else if op == OP_RET {
      RetHeld(s1, t, p, x, n0);
    } else if op == OP_NEW_ARENA || op == OP_SET_CTX {
      OpenHeld(s1, t, op, p, x, n0);
    } else if op == OP_SVAR {
      RaisedHeld(s1, t, p, x, n0) by { StoreRaises(prog, s1, t); }
    } else {
      var s0, cells := D.AllocatingStep(prog, s1, op, t);
      AllocHeld(s1, s0, cells, t, p, x, n0);
    }
  }

  lemma HeldAt(s: State, p: int, x: Layout, n0: nat, ip: int)
    requires Held(s, p, x, n0)
    ensures Held(s.(ip := ip), p, x, n0)
  {
  }

  lemma StoreRaises(prog: Program, s: State, t: State)
    requires ValidState(s) && 0 <= s.ip && Exec(prog, s, OP_SVAR) == Next(t)
    ensures t.heap == s.heap && |t.scopes| == |s.scopes|
    ensures forall k :: 0 <= k < |s.scopes| ==>
      t.scopes[k] == s.scopes[k] || (s.scopes[k].arena == s.cur && t.scopes[k] == s.scopes[k].(head := s.heap[s.cur].head))
  {
    hide Off;
  }

  // ---- Whole runs, with maps ----

  /** An instruction; a value stored in the map; a new map or a value stored in another one. */
  datatype Turn = Instruction | Store(k: Cell, v: Cell) | Elsewhere(q: int, data: int, cap: nat)

  ghost predicate DisjointMaps(p: int, x: Layout, q: int, data: int, cap: nat) {
    && Separate(p, 4, q, 4) && Separate(p, 4, data, 2 * cap) && Separate(x.data, 2 * x.cap, q, 4) && Separate(x.data, 2 * x.cap, data, 2 * cap)
  }

  ghost predicate Separate(p: int, n: int, q: int, m: int) {
    Region(p) != Region(q) || Off(p) + n <= Off(q) || Off(q) + m <= Off(p)
  }

  ghost predicate Turned(prog: Program, s: State, x: Layout, turn: Turn, t: State, y: Layout, p: int)
    requires ValidState(s) && ValidState(t)
  {
    match turn
    case Instruction => Step(prog, s) == Next(t) && prog.code[s.ip] != OP_DEL_ARENA && y == x
    case Store(k, v) => s.cur == Region(p) && Sets(s, t, p, k, v, x, y)
    case Elsewhere(q, data, cap) =>
      && y == x && DisjointMaps(p, x, q, data, cap) && MapFrame(s.heap, t.heap, q, data, cap) && t.cur == s.cur
      && (t.scopes == s.scopes || t.scopes == LiftAll(s.scopes, s.cur, Off(q), t.heap[s.cur].head))
  }

  /** What the map holds after the turns. */
  function Stored(ps: seq<Pair>, turns: seq<Turn>): seq<Pair> {
    if turns == [] then ps
    else
      var qs, last := Stored(ps, turns[..|turns| - 1]), turns[|turns| - 1];
      if last.Store? then Put(qs, last.k, last.v) else qs
  }

  /** A map disturbed neither by its growth nor by that of others keeps exactly what was stored in it,
      over every run that leaves no scope opened before it. */
  lemma {:induction false} MapSurvives(prog: Program, states: seq<State>, layouts: seq<Layout>, turns: seq<Turn>, p: int, n0: nat)
    requires |states| == |layouts| == |turns| + 1 && Held(states[0], p, layouts[0], n0)
    requires forall i :: 0 <= i < |states| ==> ValidState(states[i]) && n0 <= |states[i].scopes|
    requires forall i :: 0 <= i < |turns| ==> Turned(prog, states[i], layouts[i], turns[i], states[i + 1], layouts[i + 1], p)
    ensures Held(states[|turns|], p, layouts[|turns|], n0)
    ensures layouts[|turns|].pairs == Stored(layouts[0].pairs, turns)
    decreases |turns|
  {
    hide Held, Turned, ValidState, Put;
    if turns != [] {
      var n := |turns| - 1;
      MapSurvives(prog, states[..n + 1], layouts[..n + 1], turns[..n], p, n0);
      TurnHeld(prog, states[n], layouts[n], turns[n], states[n + 1], layouts[n + 1], p, n0);
    }
  }

  lemma TurnHeld(prog: Program, s: State, x: Layout, turn: Turn, t: State, y: Layout, p: int, n0: nat)
    requires Held(s, p, x, n0) && ValidState(s) && ValidState(t) && Turned(prog, s, x, turn, t, y, p) && n0 <= |t.scopes|
    ensures Held(t, p, y, n0)
    ensures y.pairs == if turn.Store? then Put(x.pairs, turn.k, turn.v) else x.pairs
  {
    hide Held, ValidState, DisjointMaps, MapFrame, LiftAll, Step;
    match turn
    case Instruction => StepHeld(prog, s, t, p, x, n0);
    case Store(k, v) => SetsHeld(s, t, p, k, v, x, y, n0);
    case Elsewhere(q, data, cap) => ElsewhereHeld(s, t, p, x, q, data, cap, n0);
  }

  lemma ElsewhereHeld(s: State, t: State, p: int, x: Layout, q: int, data: int, cap: nat, n0: nat)
    requires Held(s, p, x, n0) && ValidState(t) && t.cur == s.cur
    requires DisjointMaps(p, x, q, data, cap) && MapFrame(s.heap, t.heap, q, data, cap)
    requires t.scopes == s.scopes || t.scopes == LiftAll(s.scopes, s.cur, Off(q), t.heap[s.cur].head)
    ensures Held(t, p, x, n0)
  {
    hide Off, Region, Gen, Flat;
    var a := Region(p);
    assert t.heap[a].mem[Off(x.data)..Off(x.data) + 2 * |x.pairs|] == s.heap[a].mem[Off(x.data)..Off(x.data) + 2 * |x.pairs|];
  }

  /** A new map is held from the start, if no boundary lies above the head. */
  lemma NewHeld(s: State, t: State, p: int, d: int)
    requires ValidState(s) && ValidState(t) && t == s.(heap := t.heap) && MapAt(t.heap, p, INITIAL_CAP, d, [])
    requires Region(p) == Region(d) == s.cur
    requires forall k :: 0 <= k < |s.scopes| && s.scopes[k].arena == s.cur ==> s.scopes[k].head <= Off(p)
    ensures Held(t, p, Layout(INITIAL_CAP, d, []), |s.scopes|)
  {
    hide MapAt, Off, Region;
  }

  // ---- The arena discipline ----

  /** Making a map is an allocation like any other. */
  lemma NewMapPreserves(s: State, t: State, entries: seq<int>)
    requires D.Disciplined(s, entries) && ValidState(t) && t == s.(heap := t.heap) && Undisturbed(s.heap, t.heap)
    ensures D.Preserves(s, t, entries)
  {
    D.MoreMemory(s, t, entries);
  }

  /** Storing in one keeps the discipline too: heads stay above where the open scopes found them, and
      below that only the map's own header and block can change. */
  lemma SetsDisciplined(s: State, t: State, p: int, k: Cell, v: Cell, x: Layout, y: Layout, entries: seq<int>)
    requires D.Disciplined(s, entries) && Sets(s, t, p, k, v, x, y)
    ensures D.Disciplined(t, entries)
    ensures forall i, j :: 0 <= i < |s.scopes| && 0 <= j < entries[i] && !InMap(p, x, s.scopes[i].arena, j) ==>
      j < |s.heap[s.scopes[i].arena].mem| && j < |t.heap[s.scopes[i].arena].mem|
      && t.heap[s.scopes[i].arena].mem[j] == s.heap[s.scopes[i].arena].mem[j]
  {
    hide Off, Region, Put, MapAt;
  }

  ghost predicate InMap(p: int, x: Layout, a: int, j: int) {
    (a == Region(p) && Off(p) <= j < Off(p) + 4) || (a == Region(x.data) && Off(x.data) <= j < Off(x.data) + 2 * x.cap)
  }
}
