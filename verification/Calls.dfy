/** OP_CALL builds a frame whose arguments are the callee's first locals; OP_RET gives back exactly
    the caller's frame, scopes and stack with one result where the arguments began
    (src/vm.c:1230-1279). */
module Calls {
  import opened Defines
  import opened Arenas
  import opened Machine
  import opened Protection
  import opened Returning
  import opened Frames
  import L = Language

  /** The frame a call builds: everything below the arguments, the return address, the caller's fp. */
  ghost function Callee(s: State, ret: int, vals: seq<Value>, argc: nat, z: Hole): Frame
    requires argc <= |s.stack| && argc <= |vals|
  {
    Frame(s.scopes, s.stack[..|s.stack| - argc] + [Num(ret), Num(s.fp)],
          vals[..|vals| - argc] + [L.NumV(ret), L.NumV(s.fp)], s.cur, s.heap, z)
  }

  /** Cells above every entry height are kept at any such height. */
  lemma KeptMoved(h: Heap, a: int, z: Hole, scopes: seq<Scope>, n: int, i: int, j: int, c: Cell, v: Value)
    requires ValidHeap(h) && ScopesOk(h, a, z, scopes, n) && n <= j && Kept(h, a, z, scopes, i, c, v)
    ensures Kept(h, a, z, scopes, j, c, v)
  {
    hide Rep, Parted;
    forall k | 0 <= k < |scopes| ensures Parted(h, a, scopes[k].head, scopes[k].head, c, v) {
      KeptParted(h, a, z, scopes, i, c, v, k);
    }
  }

  lemma GuardInsert(h: Heap, a: int, z: Hole, scopes: seq<Scope>, stack: seq<Cell>, vs: seq<Value>, m: nat, x: int, y: int)
    requires ValidHeap(h) && Guarded(h, a, z, scopes, stack, vs) && m <= |stack|
    requires forall k :: 0 <= k < |scopes| ==> scopes[k].spAtEntry < m
    ensures Guarded(h, a, z, scopes, stack[..m] + [Num(x), Num(y)] + stack[m..],
                    vs[..m] + [L.NumV(x), L.NumV(y)] + vs[m..])
  {
    hide Kept;
    var stack' := stack[..m] + [Num(x), Num(y)] + stack[m..];
    var vs' := vs[..m] + [L.NumV(x), L.NumV(y)] + vs[m..];
    assert ScopesOk(h, a, z, scopes, m);
    forall i | 0 <= i < |stack'| ensures Kept(h, a, z, scopes, i, stack'[i], vs'[i]) {
      if i == m {
        LeafKept(h, a, z, scopes, i, x);
      } else if i == m + 1 {
        LeafKept(h, a, z, scopes, i, y);
      } else if i > m {
        assert stack'[i] == stack[i - 2] && vs'[i] == vs[i - 2];
        KeptMoved(h, a, z, scopes, m, i - 2, i, stack[i - 2], vs[i - 2]);
      }
    }
  }

  lemma DoCall(p: Program, fr: Frame, s: State, marks: seq<nat>, n: nat, xs: seq<Value>, target: int, argc: nat)
    returns (ok: bool, t: State)
    requires InFrame(fr, s, marks, n, xs) && n + argc <= |xs|
    requires Has(p, s.ip, [OP_CALL, target, argc])
    ensures Leads(p, s, ok, t)
    ensures argc <= |s.stack|
    ensures ok ==> t.ip == target && t.cur == s.cur
    ensures ok ==> InFrame(Callee(s, s.ip + 3, fr.lowv + xs, argc, fr.z), t, [], argc, xs[|xs| - argc..])
  {
    hide Guarded, Marked, Intact, Kept;
    assert [OP_CALL, target, argc][0] == OP_CALL && [OP_CALL, target, argc][1] == target;
    assert [OP_CALL, target, argc][2] == argc;
    CallStep(p, s, target, argc);
    ok, t := Stepped(p, s);
    if ok {
      var m, all := |s.stack| - argc, fr.lowv + xs;
      EntriesLow(fr, s, marks, n, xs);
      GuardInsert(s.heap, s.cur, fr.z, s.scopes, s.stack, all, m, s.ip + 3, s.fp);
      var cf := Callee(s, s.ip + 3, all, argc, fr.z);
      assert all[m..] == xs[|xs| - argc..];
      assert t.stack[..|cf.low|] == cf.low;
      CalleeMarked(fr, s, marks, n, xs, cf, argc);
      FrameScopesOk(fr, s, marks, n, xs);
      CalleeIntact(cf, s);
    }
  }

  lemma CallStep(p: Program, s: State, target: int, argc: nat)
    requires ValidState(s) && 0 <= s.ip && s.ip + 2 < |p.code| && argc <= |s.stack|
    requires p.code[s.ip] == OP_CALL && p.code[s.ip + 1] == target && p.code[s.ip + 2] == argc
    ensures Step(p, s) == ExecCall(s.(ip := s.ip + 3), target, argc)
  {
    hide ExecCall;
  }

  lemma CalleeMarked(fr: Frame, s: State, marks: seq<nat>, n: nat, xs: seq<Value>, cf: Frame, argc: nat)
    requires InFrame(fr, s, marks, n, xs) && n + argc <= |xs|
    requires cf.base == s.scopes && |cf.low| == |s.stack| - argc + 2
    ensures Marked(cf, s.scopes, [])
  {
    hide Guarded;
    EntriesLow(fr, s, marks, n, xs);
    forall k | 0 <= k < |cf.base| ensures cf.base[k].fp < |cf.low| && cf.base[k].spAtEntry < |cf.low| - 2 {
      if k < |fr.base| {
        assert s.scopes[k] == s.scopes[..|fr.base|][k] == fr.base[k];
      } else {
        assert s.scopes[k].spAtEntry == |fr.low| + marks[k - |fr.base|] - 1;
      }
    }
    assert cf.base == s.scopes[..|s.scopes|];
  }

  lemma FrameScopesOk(fr: Frame, s: State, marks: seq<nat>, n: nat, xs: seq<Value>)
    requires InFrame(fr, s, marks, n, xs)
    ensures ScopesOk(s.heap, s.cur, fr.z, s.scopes, |s.stack|)
  {
    hide Marked, Intact, Kept, ScopesOk;
  }

  lemma CalleeIntact(cf: Frame, s: State)
    requires ValidState(s) && ScopesOk(s.heap, s.cur, cf.z, s.scopes, |s.stack|)
    requires cf.was == s.heap && cf.base == s.scopes && cf.a == s.cur
    ensures Intact(cf, s.heap, s.scopes)
  {
  }

  /** The state a return leaves: the stack below the frame plus the result. */
  ghost predicate Returned(fr: Frame, t: State, v: Value) {
    && ValidState(t) && t.cur == fr.a
    && |fr.low| >= 2 && |fr.lowv| == |fr.low|
    && t.ip == fr.low[|fr.low| - 2].val && t.fp == fr.low[|fr.low| - 1].val
    && t.scopes == fr.base && Grown(fr.was, t.heap)
    && |t.stack| == |fr.low| - 1 && t.stack[..|fr.low| - 2] == fr.low[..|fr.low| - 2]
    && Guarded(t.heap, t.cur, fr.z, t.scopes, t.stack, fr.lowv[..|fr.lowv| - 2] + [v])
  }

  lemma DoRet(p: Program, fr: Frame, s: State, marks: seq<nat>, n: nat, xs: seq<Value>)
    returns (ok: bool, t: State)
    requires InFrame(fr, s, marks, n, xs) && |xs| >= 1
    requires Has(p, s.ip, [OP_RET])
    ensures Leads(p, s, ok, t)
    ensures ok ==> Returned(fr, t, xs[|xs| - 1])
  {
    FetchOne(p, s, OP_RET);
    RetStep(fr, s, marks, n, xs);
    hide InFrame;
    ok, t := Stepped(p, s);
    if ok {
      assert Exec(p, s.(ip := s.ip + 1), OP_RET) == ExecRet(s.(ip := s.ip + 1));
      RetKept(fr, s, marks, n, xs, t);
    }
  }

  lemma RetStep(fr: Frame, s: State, marks: seq<nat>, n: nat, xs: seq<Value>)
    requires InFrame(fr, s, marks, n, xs) && |xs| >= 1
    ensures ValidState(s) && 2 <= s.fp <= |s.stack|
  {
    hide Guarded, Marked, Intact;
  }

  lemma RetKept(fr: Frame, s: State, marks: seq<nat>, n: nat, xs: seq<Value>, t: State)
    requires InFrame(fr, s, marks, n, xs) && |xs| >= 1
    requires ExecRet(s.(ip := s.ip + 1)) == Next(t)
    ensures Returned(fr, t, xs[|xs| - 1])
  {
    hide Kept, Rep, Parted, Marked, Intact, PopScopes;
    var m, v := s.fp - 2, xs[|xs| - 1];
    var low, lowv := s.stack[..m], fr.lowv[..m];
    var c := Top(s, 0);
    assert low == fr.low[..m] && s.stack[m] == fr.low[m] && s.stack[m + 1] == fr.low[m + 1] by {
      assert s.stack[..|fr.low|][m] == s.stack[m] && s.stack[..|fr.low|][m + 1] == s.stack[m + 1];
      assert s.stack[..|fr.low|][..m] == s.stack[..m];
    }
    FrameScopes(fr, s, marks, n, xs);
    assert AllKept(s.heap, s.cur, fr.z, s.scopes, low, lowv) by {
      forall i | 0 <= i < m ensures Kept(s.heap, s.cur, fr.z, s.scopes, i, low[i], lowv[i]) {
        assert (fr.lowv + xs)[i] == lowv[i];
      }
    }
    assert Returnable(s.heap, s.cur, fr.z, s.scopes, c, v) by {
      CellKept(fr, s, marks, n, xs, |xs| - 1);
      TopReturnable(s.heap, s.cur, fr.z, s.scopes, |s.stack| - 1, c, v);
    }
    IntactReturn(fr, s.heap, s.scopes, s.fp, c);
    IntactClears(fr, s.heap, s.scopes);
    PopAll(s.heap, s.cur, fr.z, s.scopes, |s.stack|, s.fp, |fr.base|, low, lowv, c, v);
    var u := PopScopes(s.scopes, s.fp, s.cur, s.heap, c).value;
    ReturnGuard(u.heap, s.cur, fr.z, fr.base, |s.stack|, m, low, lowv, u.rv, v);
  }

  lemma TopReturnable(h: Heap, a: int, z: Hole, scopes: seq<Scope>, i: int, c: Cell, v: Value)
    requires ValidHeap(h) && Kept(h, a, z, scopes, i, c, v)
    ensures Returnable(h, a, z, scopes, c, v)
  {
    hide Rep;
  }

  lemma FrameScopes(fr: Frame, s: State, marks: seq<nat>, n: nat, xs: seq<Value>)
    requires InFrame(fr, s, marks, n, xs)
    ensures |fr.base| <= |s.scopes| && s.scopes[..|fr.base|] == fr.base
    ensures forall k :: |fr.base| <= k < |s.scopes| ==> s.scopes[k].fp == s.fp && s.fp - 1 <= s.scopes[k].spAtEntry
    ensures |fr.base| > 0 ==> s.scopes[|fr.base| - 1].fp != s.fp
    ensures forall k :: 0 <= k < |fr.base| ==> fr.base[k].spAtEntry < s.fp - 2
  {
    hide Guarded, ValidState;
    forall k | |fr.base| <= k < |s.scopes| ensures s.scopes[k].fp == s.fp && s.fp - 1 <= s.scopes[k].spAtEntry {
      assert s.scopes[|fr.base| + (k - |fr.base|)].spAtEntry == |fr.low| + marks[k - |fr.base|] - 1;
    }
    if |fr.base| > 0 {
      assert s.scopes[|fr.base| - 1] == s.scopes[..|fr.base|][|fr.base| - 1] == fr.base[|fr.base| - 1];
    }
  }

  lemma ReturnGuard(h: Heap, a: int, z: Hole, scopes: seq<Scope>, n: int, m: nat, low: seq<Cell>, lowv: seq<Value>, c: Cell, v: Value)
    requires ValidHeap(h) && ScopesOk(h, a, z, scopes, n) && AllKept(h, a, z, scopes, low, lowv)
    requires Returnable(h, a, z, scopes, c, v) && |low| == m
    requires forall k :: 0 <= k < |scopes| ==> scopes[k].spAtEntry < m
    ensures Guarded(h, a, z, scopes, low + [c], lowv + [v])
  {
    hide Rep, Parted;
    assert Kept(h, a, z, scopes, m, c, v);
  }
}
