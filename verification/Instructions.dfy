/** Each instruction, run in a frame that represents source values, computes what the source
    operation computes on those values. */
module Instructions {
  import opened Defines
  import opened Arenas
  import opened Evacuation
  import opened Machine
  import opened Protection
  import opened Frames
  import L = Language
  import opened Codegen

  lemma DoConst(p: Program, fr: Frame, s: State, marks: seq<nat>, n: nat, xs: seq<Value>, k: int, ln: Link)
    returns (ok: bool, t: State)
    requires InFrame(fr, s, marks, n, xs) && ln.consts == p.consts && k in p.consts
    requires Has(p, s.ip, PushConst(k, ln))
    ensures Leads(p, s, ok, t)
    ensures ok ==> t.ip == s.ip + 2 && InFrame(fr, t, marks, n, xs + [L.NumV(k)])
  {
    hide Guarded, Marked, Intact, Kept, ConstIndex;
    Fetch(p, s, OP_PSH_NUM, ConstIndex(p.consts, k));
    ok, t := Stepped(p, s);
    if ok {
      LeafKept(s.heap, s.cur, fr.z, s.scopes, |s.stack|, k);
      FramePush(fr, s, t, marks, n, xs, Num(k), L.NumV(k));
    }
  }

  lemma DoLoad(p: Program, fr: Frame, s: State, marks: seq<nat>, n: nat, xs: seq<Value>, x: nat)
    returns (ok: bool, t: State)
    requires InFrame(fr, s, marks, n, xs) && x < |xs|
    requires Has(p, s.ip, [OP_LVAR, x])
    ensures Leads(p, s, ok, t)
    ensures ok ==> t.ip == s.ip + 2 && InFrame(fr, t, marks, n, xs + [xs[x]])
  {
    hide Guarded, Marked, Intact, Kept, ScopesOk;
    Fetch(p, s, OP_LVAR, x);
    ok, t := Stepped(p, s);
    if ok {
      CellKept(fr, s, marks, n, xs, x);
      KeptOnTop(s.heap, s.cur, fr.z, s.scopes, |s.stack|, |fr.low| + x, s.stack[|fr.low| + x], xs[x]);
      FramePush(fr, s, t, marks, n, xs, s.stack[|fr.low| + x], xs[x]);
    }
  }

  /** Replacing the `m` topmost temporaries by a number. */
  lemma ReplaceNum(fr: Frame, s: State, t: State, marks: seq<nat>, n: nat, xs: seq<Value>, m: nat, k: int)
    requires InFrame(fr, s, marks, n, xs) && n + m <= |xs| && ValidState(t)
    requires t == Drop(s, m).(ip := t.ip, stack := Drop(s, m).stack + [Num(k)])
    ensures InFrame(fr, t, marks, n, xs[..|xs| - m] + [L.NumV(k)])
  {
    hide Guarded, Marked, Intact, Kept;
    var s1 := Drop(s, m);
    assert ValidState(s1);
    FrameDrop(fr, s, s1, marks, n, xs, m);
    LeafKept(s1.heap, s1.cur, fr.z, s1.scopes, |s1.stack|, k);
    FramePush(fr, s1, t, marks, n, xs[..|xs| - m], Num(k), L.NumV(k));
  }

  /** Replacing the `m` topmost temporaries by a cell that some scope-independent reason keeps. */
  lemma ReplaceCell(fr: Frame, s: State, t: State, marks: seq<nat>, n: nat, xs: seq<Value>, m: nat, c: Cell, v: Value, i: int)
    requires InFrame(fr, s, marks, n, xs) && n + m <= |xs| && ValidState(t)
    requires t == Drop(s, m).(ip := t.ip, stack := Drop(s, m).stack + [c])
    requires Kept(s.heap, s.cur, fr.z, s.scopes, i, c, v)
    ensures InFrame(fr, t, marks, n, xs[..|xs| - m] + [v])
  {
    hide Marked, Intact, Kept;
    var s1 := Drop(s, m);
    assert ValidState(s1);
    FrameDrop(fr, s, s1, marks, n, xs, m);
    KeptOnTop(s1.heap, s1.cur, fr.z, s1.scopes, |s1.stack|, i, c, v);
    FramePush(fr, s1, t, marks, n, xs[..|xs| - m], c, v);
  }

  lemma DoBinary(p: Program, fr: Frame, s: State, marks: seq<nat>, n: nat, xs: seq<Value>, op: L.BinOp, v: Value)
    returns (ok: bool, t: State)
    requires InFrame(fr, s, marks, n, xs) && n + 2 <= |xs|
    requires Has(p, s.ip, [L.OpCode(op)])
    requires L.Apply(op, xs[|xs| - 2], xs[|xs| - 1]) == Some(v)
    ensures Leads(p, s, ok, t)
    ensures ok ==> t.ip == s.ip + 1 && InFrame(fr, t, marks, n, xs[..|xs| - 2] + [v])
  {
    hide Guarded, Marked, Intact, Kept, ScopesOk, InFrame, L.Apply, Exec, Step;
    InFrameValid(fr, s, marks, n, xs);
    FetchOne(p, s, L.OpCode(op));
    TopCell(fr, s, marks, n, xs, 0);
    TopCell(fr, s, marks, n, xs, 1);
    if op == L.To {
      ok, t := DoRange(p, fr, s, marks, n, xs, v);
    } else {
      BinaryStep(p, s, op, xs[|xs| - 2], xs[|xs| - 1], v);
      ok, t := Stepped(p, s);
      if ok {
        ReplaceNum(fr, s, t, marks, n, xs, 2, v.val);
      }
    }
  }

  /** The operator instruction computes what the source operator does. */
  lemma BinaryStep(p: Program, s: State, op: L.BinOp, a: Value, b: Value, v: Value)
    requires ValidState(s) && 0 <= s.ip && |s.stack| >= 2 && op != L.To && L.Apply(op, a, b) == Some(v)
    requires Step(p, s) == Exec(p, s.(ip := s.ip + 1), L.OpCode(op))
    requires (a.Leaf? ==> Top(s, 1) == Cell(a.val, a.tag)) && (b.Leaf? ==> Top(s, 0) == Cell(b.val, b.tag))
    requires (Top(s, 1).val != 0) == L.Truthy(a) && (Top(s, 0).val != 0) == L.Truthy(b)
    ensures v == L.NumV(v.val) && Step(p, s) == Push(Drop(s.(ip := s.ip + 1), 2), Num(v.val))
  {
    hide ValidState, Arith, Holds;
  }

  lemma InFrameValid(fr: Frame, s: State, marks: seq<nat>, n: nat, xs: seq<Value>)
    requires InFrame(fr, s, marks, n, xs)
    ensures ValidState(s) && |s.stack| == |fr.low| + |xs|
  {
    hide Guarded, Marked, Intact;
  }

  lemma DoRange(p: Program, fr: Frame, s: State, marks: seq<nat>, n: nat, xs: seq<Value>, v: Value)
    returns (ok: bool, t: State)
    requires InFrame(fr, s, marks, n, xs) && n + 2 <= |xs|
    requires 0 <= s.ip && Step(p, s) == Exec(p, s.(ip := s.ip + 1), OP_RANGE)
    requires L.Apply(L.To, xs[|xs| - 2], xs[|xs| - 1]) == Some(v)
    ensures Leads(p, s, ok, t)
    ensures ok ==> t.ip == s.ip + 1 && InFrame(fr, t, marks, n, xs[..|xs| - 2] + [v])
  {
    hide Guarded, Marked, Intact, Kept, ScopesOk, PushArray;
    TopCell(fr, s, marks, n, xs, 0);
    TopCell(fr, s, marks, n, xs, 1);
    var a, b := Top(s, 1).val, Top(s, 0).val;
    var s1 := Drop(s.(ip := s.ip + 1), 2);
    var cells := seq(RangeLen(a, b), i => Num(RangeAt(a, b, i)));
    var kids := seq(RangeLen(a, b), i => L.NumV(RangeAt(a, b, i)));
    assert ValidState(s1);
    FrameDrop(fr, s, s1, marks, n, xs, 2);
    forall i | 0 <= i < |cells| ensures Kept(s1.heap, s1.cur, fr.z, s1.scopes, 0, cells[i], kids[i]) {
      LeafKept(s1.heap, s1.cur, fr.z, s1.scopes, 0, RangeAt(a, b, i));
    }
    assert v == L.Arr(kids);
    assert Step(p, s) == PushArray(s1, cells);
    FrameArray(fr, s1, marks, n, xs[..|xs| - 2], cells, kids, seq(|cells|, i => 0));
    ok, t := Stepped(p, s);
  }

  lemma DoList(p: Program, fr: Frame, s: State, marks: seq<nat>, n: nat, xs: seq<Value>, m: nat)
    returns (ok: bool, t: State)
    requires InFrame(fr, s, marks, n, xs) && n + m <= |xs|
    requires Has(p, s.ip, [OP_ARR, m])
    ensures Leads(p, s, ok, t)
    ensures ok ==> t.ip == s.ip + 2 && InFrame(fr, t, marks, n, xs[..|xs| - m] + [L.Arr(xs[|xs| - m..])])
  {
    hide Guarded, Marked, Intact, Kept, ScopesOk, PushArray;
    Fetch(p, s, OP_ARR, m);
    var s1 := Drop(s.(ip := s.ip + 2), m);
    var cells, kids := s.stack[|s.stack| - m..], xs[|xs| - m..];
    assert ValidState(s1);
    FrameDrop(fr, s, s1, marks, n, xs, m);
    var at := seq(m, i => |s.stack| - m + i);
    forall i | 0 <= i < m ensures Kept(s1.heap, s1.cur, fr.z, s1.scopes, at[i], cells[i], kids[i]) {
      CellKept(fr, s, marks, n, xs, |xs| - m + i);
    }
    assert Step(p, s) == PushArray(s1, cells);
    FrameArray(fr, s1, marks, n, xs[..|xs| - m], cells, kids, at);
    ok, t := Stepped(p, s);
  }

  /** The array `k` places below the top, with its elements. */
  lemma ArrayCells(fr: Frame, s: State, marks: seq<nat>, n: nat, xs: seq<Value>, k: nat)
    requires InFrame(fr, s, marks, n, xs) && k < |xs| && L.IsArr(xs[|xs| - 1 - k])
    ensures k < |s.stack|
    ensures var r := Elems(s.heap, Top(s, k));
      var kids := xs[|xs| - 1 - k].kids;
      && r.Some? && |r.value| == |kids|
      && Off(Top(s, k).val) + 2 + |kids| <= s.heap[Region(Top(s, k).val)].head
      && forall j :: 0 <= j < |kids| ==> Kept(s.heap, s.cur, fr.z, s.scopes, |s.stack|, r.value[j], kids[j])
  {
    hide Kept, Marked, Intact, Guarded, Elems, ScopesOk, Off, Region;
    TopCell(fr, s, marks, n, xs, k);
    CellKept(fr, s, marks, n, xs, |xs| - 1 - k);
    ElemsOf(s.heap, s.cur, fr.z, s.scopes, |s.stack|, |s.stack| - 1 - k, Top(s, k), xs[|xs| - 1 - k].kids);
  }

  lemma DoIndex(p: Program, fr: Frame, s: State, marks: seq<nat>, n: nat, xs: seq<Value>, v: Value)
    returns (ok: bool, t: State)
    requires InFrame(fr, s, marks, n, xs) && n + 2 <= |xs|
    requires Has(p, s.ip, [OP_AGET])
    requires L.ElementAt(xs[|xs| - 2], xs[|xs| - 1]) == Some(v)
    ensures Leads(p, s, ok, t)
    ensures ok ==> t.ip == s.ip + 1 && InFrame(fr, t, marks, n, xs[..|xs| - 2] + [v])
  {
    hide Guarded, Marked, Intact, Kept, ScopesOk, Elems;
    FetchOne(p, s, OP_AGET);
    TopCell(fr, s, marks, n, xs, 0);
    ArrayCells(fr, s, marks, n, xs, 1);
    var cells, key := Elems(s.heap, Top(s, 1)).value, Top(s, 0).val;
    var idx := if key < 0 then key + |cells| else key;
    ok, t := Stepped(p, s);
    if ok {
      ReplaceCell(fr, s, t, marks, n, xs, 2, cells[idx], v, |s.stack|);
    }
  }

  lemma DoIterate(p: Program, fr: Frame, s: State, marks: seq<nat>, n: nat, xs: seq<Value>)
    returns (ok: bool, t: State)
    requires InFrame(fr, s, marks, n, xs) && n + 2 <= |xs|
    requires Has(p, s.ip, [OP_IT_DEF])
    requires L.IsArr(xs[|xs| - 2]) && L.IsNum(xs[|xs| - 1]) && 0 <= xs[|xs| - 1].val < |xs[|xs| - 2].kids|
    ensures Leads(p, s, ok, t)
    ensures ok ==> t.ip == s.ip + 1
    ensures ok ==> InFrame(fr, t, marks, n, xs[..|xs| - 2] + [xs[|xs| - 2].kids[xs[|xs| - 1].val]])
  {
    hide Guarded, Marked, Intact, Kept, ScopesOk, Elems;
    FetchOne(p, s, OP_IT_DEF);
    TopCell(fr, s, marks, n, xs, 0);
    ArrayCells(fr, s, marks, n, xs, 1);
    var cells, idx := Elems(s.heap, Top(s, 1)).value, Top(s, 0).val;
    ok, t := Stepped(p, s);
    if ok {
      ReplaceCell(fr, s, t, marks, n, xs, 2, cells[idx], xs[|xs| - 2].kids[idx], |s.stack|);
    }
  }

  lemma DoLength(p: Program, fr: Frame, s: State, marks: seq<nat>, n: nat, xs: seq<Value>)
    returns (ok: bool, t: State)
    requires InFrame(fr, s, marks, n, xs) && n + 1 <= |xs|
    requires Has(p, s.ip, [OP_ALEN]) && L.IsArr(xs[|xs| - 1])
    ensures Leads(p, s, ok, t)
    ensures ok ==> t.ip == s.ip + 1 && InFrame(fr, t, marks, n, xs[..|xs| - 1] + [L.NumV(|xs[|xs| - 1].kids|)])
  {
    hide Guarded, Marked, Intact, Kept, ScopesOk, Elems;
    FetchOne(p, s, OP_ALEN);
    ArrayCells(fr, s, marks, n, xs, 0);
    ok, t := Stepped(p, s);
    if ok {
      ReplaceNum(fr, s, t, marks, n, xs, 1, |xs[|xs| - 1].kids|);
    }
  }

  lemma DoSpan(p: Program, fr: Frame, s: State, marks: seq<nat>, n: nat, xs: seq<Value>, v: Value)
    returns (ok: bool, t: State)
    requires InFrame(fr, s, marks, n, xs) && n + 3 <= |xs|
    requires Has(p, s.ip, [OP_SLICE])
    requires L.SpanOf(xs[|xs| - 3], xs[|xs| - 2], xs[|xs| - 1]) == Some(v)
    ensures Leads(p, s, ok, t)
    ensures ok ==> t.ip == s.ip + 1 && InFrame(fr, t, marks, n, xs[..|xs| - 3] + [v])
  {
    hide Guarded, Marked, Intact, Kept, ScopesOk, Elems, PushArray, Slice, Exec, Off, Region;
    FetchOne(p, s, OP_SLICE);
    TopCell(fr, s, marks, n, xs, 0);
    TopCell(fr, s, marks, n, xs, 1);
    ArrayCells(fr, s, marks, n, xs, 2);
    var all, vals := Elems(s.heap, Top(s, 2)).value, xs[|xs| - 3].kids;
    var lo, hi := Top(s, 1).val, Top(s, 0).val;
    var s1 := Drop(s.(ip := s.ip + 1), 3);
    assert ValidState(s1);
    FrameDrop(fr, s, s1, marks, n, xs, 3);
    assert !Straddles(s, Top(s, 2).val, |all|);
    SliceStep(p, s.(ip := s.ip + 1));
    SliceCells(s1.heap, s1.cur, fr.z, s1.scopes, |s.stack|, all, vals, lo, hi);
    FrameArray(fr, s1, marks, n, xs[..|xs| - 3], Slice(all, lo, hi), Slice(vals, lo, hi),
               seq(|Slice(all, lo, hi)|, i => |s.stack|));
    ok, t := Stepped(p, s);
  }

  lemma SliceStep(p: Program, s: State)
    requires ValidState(s) && 0 <= s.ip && |s.stack| >= 3 && Elems(s.heap, Top(s, 2)).Some?
    requires !Straddles(s, Top(s, 2).val, |Elems(s.heap, Top(s, 2)).value|)
    ensures ValidState(Drop(s, 3))
    ensures Exec(p, s, OP_SLICE)
      == PushArray(Drop(s, 3), Slice(Elems(s.heap, Top(s, 2)).value, Top(s, 1).val, Top(s, 0).val))
  {
    hide Elems, PushArray, Slice;
  }

  /** The same positions of the cells and of the values. */
  lemma SliceCells(h: Heap, a: int, z: Hole, scopes: seq<Scope>, n: int, cells: seq<Cell>, vals: seq<Value>, lo: int, hi: int)
    requires ValidHeap(h) && |cells| == |vals|
    requires forall j :: 0 <= j < |cells| ==> Kept(h, a, z, scopes, n, cells[j], vals[j])
    ensures forall j :: 0 <= j < |Slice(cells, lo, hi)| ==>
      Kept(h, a, z, scopes, n, Slice(cells, lo, hi)[j], Slice(vals, lo, hi)[j])
  {
    hide Kept;
    forall i | 0 <= i < |Slice(cells, lo, hi)|
      ensures Kept(h, a, z, scopes, n, Slice(cells, lo, hi)[i], Slice(vals, lo, hi)[i])
    {
      var j := SliceStart(lo, |cells|) + i;
      assert Slice(cells, lo, hi)[i] == cells[j] && Slice(vals, lo, hi)[i] == vals[j];
    }
  }

  lemma DoPop(p: Program, fr: Frame, s: State, marks: seq<nat>, n: nat, xs: seq<Value>)
    returns (ok: bool, t: State)
    requires InFrame(fr, s, marks, n, xs) && n + 1 <= |xs|
    requires Has(p, s.ip, [OP_POP])
    ensures Leads(p, s, ok, t)
    ensures ok ==> t.ip == s.ip + 1 && InFrame(fr, t, marks, n, xs[..|xs| - 1])
  {
    hide Guarded, Marked, Intact;
    FetchOne(p, s, OP_POP);
    ok, t := Stepped(p, s);
    if ok {
      FrameDrop(fr, s, t, marks, n, xs, 1);
    }
  }

  lemma DoJump(p: Program, fr: Frame, s: State, marks: seq<nat>, n: nat, xs: seq<Value>, target: int)
    returns (ok: bool, t: State)
    requires InFrame(fr, s, marks, n, xs)
    requires Has(p, s.ip, [OP_JMP, target])
    ensures Leads(p, s, ok, t)
    ensures ok ==> t.ip == target && InFrame(fr, t, marks, n, xs)
  {
    hide Guarded, Marked, Intact;
    Fetch(p, s, OP_JMP, target);
    ok, t := Stepped(p, s);
    if ok {
      FrameMove(fr, s, t, marks, n, xs);
    }
  }

  /** A jump on zero falls through exactly on truthy values. */
  lemma DoBranch(p: Program, fr: Frame, s: State, marks: seq<nat>, n: nat, xs: seq<Value>, target: int)
    returns (ok: bool, t: State)
    requires InFrame(fr, s, marks, n, xs) && n + 1 <= |xs|
    requires Has(p, s.ip, [OP_JZ, target])
    ensures Leads(p, s, ok, t)
    ensures ok ==> InFrame(fr, t, marks, n, xs[..|xs| - 1])
    ensures ok ==> t.ip == if L.Truthy(xs[|xs| - 1]) then s.ip + 2 else target
  {
    hide Guarded, Marked, Intact, Kept;
    Fetch(p, s, OP_JZ, target);
    TopCell(fr, s, marks, n, xs, 0);
    ok, t := Stepped(p, s);
    if ok {
      FrameDrop(fr, s, t, marks, n, xs, 1);
    }
  }

  // ---- Locals ----

  lemma StoredMarked(fr: Frame, h: Heap, scopes: seq<Scope>, marks: seq<nat>, x: nat, c: Cell)
    requires ValidHeap(h) && 0 <= fr.a < MAX_ARENAS && Marked(fr, scopes, marks)
    ensures Marked(fr, StoreScopes(h, fr.a, scopes, |fr.low|, |fr.low| + x, c), marks)
  {
    hide Off;
    var scopes' := StoreScopes(h, fr.a, scopes, |fr.low|, |fr.low| + x, c);
    forall k | 0 <= k < |fr.base| ensures scopes'[k] == fr.base[k] {
      assert scopes[k] == scopes[..|fr.base|][k] == fr.base[k];
    }
    assert scopes'[..|fr.base|] == fr.base;
  }

  lemma StoredIntact(fr: Frame, h: Heap, scopes: seq<Scope>, idx: int, c: Cell)
    requires ValidHeap(h) && 0 <= fr.a < MAX_ARENAS && Intact(fr, h, scopes)
    ensures Intact(fr, h, StoreScopes(h, fr.a, scopes, |fr.low|, idx, c))
  {
    hide Off;
  }

  lemma DoStore(p: Program, fr: Frame, s: State, marks: seq<nat>, n: nat, xs: seq<Value>, x: nat)
    returns (ok: bool, t: State)
    requires InFrame(fr, s, marks, n, xs) && x + 1 < |xs| && n + 1 <= |xs|
    requires Has(p, s.ip, [OP_SVAR, x])
    ensures Leads(p, s, ok, t)
    ensures ok ==> t.ip == s.ip + 2 && InFrame(fr, t, marks, n, xs[x := xs[|xs| - 1]][..|xs| - 1])
  {
    hide Guarded, Kept, ScopesOk, Marked, Intact, Off, Storable;
    Fetch(p, s, OP_SVAR, x);
    assert p.code[s.ip] == OP_SVAR by { assert [OP_SVAR, x][0] == OP_SVAR; }
    if StoreOk(p, s) {
      ok, t := Stepped(p, s);
      if ok {
        FrameStored(fr, s, t, marks, n, xs, x);
      }
    } else {
      ok, t := false, s;
      Stay(p, s);
    }
  }

  lemma FrameStored(fr: Frame, s: State, t: State, marks: seq<nat>, n: nat, xs: seq<Value>, x: nat)
    requires InFrame(fr, s, marks, n, xs) && x + 1 < |xs| && n + 1 <= |xs|
    requires 0 <= s.cur < |s.heap| && |s.stack| > 0 && Storable(s.heap, s.cur, s.scopes, s.fp, s.fp + x, Top(s, 0))
    requires ValidState(t) && ValidState(s) && 0 <= s.fp + x < |s.stack|
    requires t == Drop(s.(stack := s.stack[s.fp + x := Top(s, 0)]), 1).(
      ip := t.ip, scopes := StoreScopes(s.heap, s.cur, s.scopes, s.fp, s.fp + x, Top(s, 0)))
    ensures InFrame(fr, t, marks, n, xs[x := xs[|xs| - 1]][..|xs| - 1])
  {
    hide Guarded, Kept, ScopesOk, Marked, Intact, Off, StoreScopes, Storable;
    EntriesLow(fr, s, marks, n, xs);
    var all, idx := fr.lowv + xs, |fr.low| + x;
    assert all[|all| - 1] == xs[|xs| - 1];
    GuardStore(s.heap, s.cur, fr.z, s.scopes, s.stack, all, s.fp, idx);
    StoredMarked(fr, s.heap, s.scopes, marks, x, Top(s, 0));
    StoredIntact(fr, s.heap, s.scopes, idx, Top(s, 0));
    assert all[idx := all[|all| - 1]][..|all| - 1] == fr.lowv + xs[x := xs[|xs| - 1]][..|xs| - 1];
  }

  // ---- Scopes ----

  lemma DoEnter(p: Program, fr: Frame, s: State, marks: seq<nat>, xs: seq<Value>)
    returns (ok: bool, t: State)
    requires InFrame(fr, s, marks, |xs|, xs)
    requires Has(p, s.ip, [OP_SCOPE_ENTER])
    ensures Leads(p, s, ok, t)
    ensures ok ==> t.ip == s.ip + 1 && InFrame(fr, t, marks + [|xs|], |xs|, xs)
  {
    hide Guarded, Marked, Intact;
    FetchOne(p, s, OP_SCOPE_ENTER);
    ok, t := Stepped(p, s);
    if ok {
      GuardEnter(s.heap, s.cur, fr.z, s.scopes, s.stack, fr.lowv + xs, s.fp);
      IntactEnter(fr, s.heap, s.scopes, t.scopes[|s.scopes|]);
      EnterMarked(fr, s.scopes, marks, t.scopes[|s.scopes|], |xs|);
    }
  }

  lemma EnterMarked(fr: Frame, scopes: seq<Scope>, marks: seq<nat>, sc: Scope, n: nat)
    requires Marked(fr, scopes, marks) && (|marks| > 0 ==> marks[|marks| - 1] <= n)
    requires sc.fp == |fr.low| && sc.spAtEntry == |fr.low| + n - 1
    ensures Marked(fr, scopes + [sc], marks + [n])
  {
    assert (scopes + [sc])[..|fr.base|] == scopes[..|fr.base|];
    forall r | 0 <= r < |marks| ensures marks[r] <= n {
      assert marks[r] <= marks[|marks| - 1];
    }
  }

  ghost function OneExit(s: State): (t: State)
    requires ValidState(s) && |s.scopes| > 0
    ensures ValidState(t)
  {
    var j := |s.scopes| - 1;
    s.(ip := s.ip + 1, scopes := s.scopes[..j], heap := WithHead(s.heap, s.cur, s.scopes[j].head))
  }

  /** `k` scope exits in a row rewind the region to the boundary of the outermost scope left. */
  ghost function Exits(s: State, k: nat): (t: State)
    requires ValidState(s) && k <= |s.scopes|
    ensures ValidState(t)
    ensures t.ip == s.ip + k && t.fp == s.fp && t.stack == s.stack && t.cur == s.cur
    ensures t.scopes == s.scopes[..|s.scopes| - k]
    ensures k == 0 ==> t.heap == s.heap
    ensures 0 <= s.cur < |s.heap| && (k > 0 ==> t.heap == WithHead(s.heap, s.cur, s.scopes[|s.scopes| - k].head))
    decreases k
  {
    if k == 0 then s else Exits(OneExit(s), k - 1)
  }

  lemma ExitStep(p: Program, s: State)
    requires ValidState(s) && |s.scopes| > 0 && Has(p, s.ip, [OP_SCOPE_EXIT])
    requires s.scopes[|s.scopes| - 1].arena == s.cur
    ensures Step(p, s) == Next(OneExit(s))
  {
    FetchOne(p, s, OP_SCOPE_EXIT);
  }

  lemma {:induction false} ExitRun(p: Program, s: State, k: nat)
    requires ValidState(s) && k <= |s.scopes| && Has(p, s.ip, Times(OP_SCOPE_EXIT, k))
    requires forall i :: |s.scopes| - k <= i < |s.scopes| ==> s.scopes[i].arena == s.cur
    ensures Reach(p, s, Exits(s, k))
    decreases k
  {
    hide ValidState, Step;
    if k == 0 {
      Stay(p, s);
    } else {
      assert Times(OP_SCOPE_EXIT, k) == [OP_SCOPE_EXIT] + Times(OP_SCOPE_EXIT, k - 1);
      HasSplit(p, s.ip, [OP_SCOPE_EXIT], Times(OP_SCOPE_EXIT, k - 1));
      ExitStep(p, s);
      var ok, u := Stepped(p, s);
      ExitRun(p, u, k - 1);
      Chain(p, s, u, true, Exits(s, k));
    }
  }

  lemma {:induction false} PopRun(p: Program, s: State, k: nat)
    requires ValidState(s) && k <= |s.stack| && Has(p, s.ip, Times(OP_POP, k))
    ensures var t := Drop(s, k).(ip := s.ip + k);
      ValidState(t) && Reach(p, s, t)
    decreases k
  {
    hide ValidState, Has;
    if k == 0 {
      assert Drop(s, 0).(ip := s.ip) == s;
      Stay(p, s);
    } else {
      assert Times(OP_POP, k) == [OP_POP] + Times(OP_POP, k - 1);
      HasSplit(p, s.ip, [OP_POP], Times(OP_POP, k - 1));
      FetchOne(p, s, OP_POP);
      var ok, u := Stepped(p, s);
      PopRun(p, u, k - 1);
      assert Drop(u, k - 1).(ip := u.ip + (k - 1)) == Drop(s, k).(ip := s.ip + k);
      Chain(p, s, u, true, Drop(s, k).(ip := s.ip + k));
    }
  }

  /** Dropping locals down to the last mark. */
  lemma DoPops(p: Program, fr: Frame, s: State, marks: seq<nat>, xs: seq<Value>, m: nat)
    returns (t: State)
    requires InFrame(fr, s, marks, |xs|, xs) && m <= |xs| && (|marks| > 0 ==> marks[|marks| - 1] <= m)
    requires Has(p, s.ip, Times(OP_POP, |xs| - m))
    ensures Reach(p, s, t) && t.ip == s.ip + (|xs| - m) && InFrame(fr, t, marks, m, xs[..m])
  {
    hide Guarded, Marked, Intact;
    Recount(fr, s, marks, |xs|, m, xs);
    PopRun(p, s, |xs| - m);
    t := Drop(s, |xs| - m).(ip := s.ip + (|xs| - m));
    FrameDrop(fr, s, t, marks, m, xs, |xs| - m);
  }

  /** Leaving every scope from the q-th on and dropping the locals declared inside them. */
  lemma DoUnwind(p: Program, fr: Frame, s: State, marks: seq<nat>, xs: seq<Value>, q: nat)
    returns (t: State)
    requires InFrame(fr, s, marks, |xs|, xs) && q < |marks|
    requires Has(p, s.ip, Times(OP_SCOPE_EXIT, |marks| - q) + Times(OP_POP, |xs| - marks[q]))
    ensures marks[q] <= |xs| && Reach(p, s, t) && t.ip == s.ip + (|marks| - q) + (|xs| - marks[q])
    ensures InFrame(fr, t, marks[..q], marks[q], xs[..marks[q]])
  {
    hide Guarded, Kept, ScopesOk, Marked, Intact, Exits, Times, Has, Reach, Step, Machine.Run;
    ArenasOk(fr, s, marks, xs);
    LeftShape(fr, s, marks, xs, q);
    UnwindRun(p, s, |marks| - q, |xs| - marks[q]);
    t := Unwinding(s, |marks| - q, |xs| - marks[q]);
    FrameLeft(fr, s, t, marks, xs, q);
  }

  ghost function Unwinding(s: State, k: nat, m: nat): (t: State)
    requires ValidState(s) && k <= |s.scopes| && m <= |s.stack|
    ensures ValidState(t)
  {
    Drop(Exits(s, k), m).(ip := s.ip + k + m)
  }

  lemma UnwindRun(p: Program, s: State, k: nat, m: nat)
    requires ValidState(s) && k <= |s.scopes| && m <= |s.stack|
    requires forall i :: |s.scopes| - k <= i < |s.scopes| ==> s.scopes[i].arena == s.cur
    requires Has(p, s.ip, Times(OP_SCOPE_EXIT, k) + Times(OP_POP, m))
    ensures Reach(p, s, Unwinding(s, k, m))
  {
    hide Exits, Times, Has, Reach, ValidState, Step;
    HasSplit(p, s.ip, Times(OP_SCOPE_EXIT, k), Times(OP_POP, m));
    ExitRun(p, s, k);
    PopRun(p, Exits(s, k), m);
    Chain(p, s, Exits(s, k), true, Unwinding(s, k, m));
  }

  lemma LeftShape(fr: Frame, s: State, marks: seq<nat>, xs: seq<Value>, q: nat)
    requires InFrame(fr, s, marks, |xs|, xs) && q < |marks|
    ensures marks[q] <= |xs| && |s.scopes| == |fr.base| + |marks|
    ensures s.scopes[|fr.base| + q].spAtEntry == |fr.low| + marks[q] - 1
  {
    hide Guarded;
    assert marks[q] <= marks[|marks| - 1];
  }

  lemma FrameLeft(fr: Frame, s: State, t: State, marks: seq<nat>, xs: seq<Value>, q: nat)
    requires InFrame(fr, s, marks, |xs|, xs) && q < |marks| && marks[q] <= |xs| && ValidState(t)
    requires |s.scopes| == |fr.base| + |marks| && 0 <= s.cur < |s.heap|
    requires t == State(t.ip, s.fp, s.stack[..|fr.low| + marks[q]], s.scopes[..|fr.base| + q],
                        WithHead(s.heap, s.cur, s.scopes[|fr.base| + q].head), s.cur)
    ensures InFrame(fr, t, marks[..q], marks[q], xs[..marks[q]])
  {
    hide Guarded, Kept, ScopesOk, Marked, Intact;
    ArenasOk(fr, s, marks, xs);
    LeftShape(fr, s, marks, xs, q);
    IntactClears(fr, s.heap, s.scopes);
    GuardLeave(s.heap, s.cur, fr.z, s.scopes, s.stack, fr.lowv + xs, |fr.base| + q);
    assert (fr.lowv + xs)[..|fr.low| + marks[q]] == fr.lowv + xs[..marks[q]];
    UnwoundMarked(fr, s.scopes, marks, q);
    IntactLeave(fr, s.heap, s.scopes, |fr.base| + q);
  }

  lemma ArenasOk(fr: Frame, s: State, marks: seq<nat>, xs: seq<Value>)
    requires InFrame(fr, s, marks, |xs|, xs)
    ensures forall i :: 0 <= i < |s.scopes| ==> s.scopes[i].arena == s.cur
    ensures forall j, k :: 0 <= j < k < |s.scopes| ==> s.scopes[j].spAtEntry <= s.scopes[k].spAtEntry
  {
    hide Kept, Marked, Intact;
  }

  lemma UnwoundMarked(fr: Frame, scopes: seq<Scope>, marks: seq<nat>, q: nat)
    requires Marked(fr, scopes, marks) && q <= |marks|
    ensures Marked(fr, scopes[..|fr.base| + q], marks[..q])
    ensures q > 0 && q < |marks| ==> marks[..q][q - 1] <= marks[q]
  {
    var scopes' := scopes[..|fr.base| + q];
    assert scopes'[..|fr.base|] == scopes[..|fr.base|];
    assert forall k :: 0 <= k < |scopes'| ==> scopes'[k] == scopes[k];
    assert forall r :: 0 <= r < q ==> marks[..q][r] == marks[r];
  }
}
