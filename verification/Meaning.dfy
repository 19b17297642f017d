/** Main results about compiled functions: a call entered the way the machine enters it returns what
    the source returns, and what the source returns does not depend on the bound on the run. */
module Meaning {
  import opened Defines
  import opened Arenas
  import M = Machine
  import opened Protection
  import opened Frames
  import opened Calls
  import opened Language
  import opened Codegen
  import opened Simulation

  /** The frame that a call, for_list and mylo_worker_entry build: a return address, the caller's frame
      pointer, and the arguments (src/vm.c:1230-1245, src/mylolib.c:236-247, 1110-1116). */
  ghost predicate Entered(p: Program, s: State, addr: int, args: seq<Value>) {
    && M.ValidState(s)
    && s.ip == addr && |s.stack| >= 2 + |args| && s.fp == |s.stack| - |args|
    && s.stack[s.fp - 2].tag == T_NUM && s.stack[s.fp - 1].tag == T_NUM
    && (forall k :: 0 <= k < |s.scopes| ==> s.scopes[k].fp < s.fp && s.scopes[k].spAtEntry < s.fp - 2)
  }

  ghost function EntryFrame(s: State, low: seq<Value>, z: Hole): Frame
    requires 0 <= s.fp <= |s.stack|
  {
    Frame(s.scopes, s.stack[..s.fp], low, s.cur, s.heap, z)
  }

  /** Running function `f` on represented arguments ends, or fills a resource. If it ends, it is at the
      return address (where the loop of run_vm_from stops if that is past the code), the caller's frame
      pointer and scopes are back, and the stack holds what was below the frame plus one cell that
      represents the source's result. All cells below are still represented, no memory that was
      allocated before the call has changed, and the result does not reach into the hole. The one
      hypothesis on the run is that its assignments keep the scopes' boundaries in order. */
  lemma FunctionMeans(k: nat, fs: seq<Func>, ln: Link, p: Program, f: nat, s: State, low: seq<Value>, args: seq<Value>, v: Value, z: Hole)
    returns (ok: bool, t: State)
    requires Linked(p, ln, fs) && f < |fs| && |ln.addrs| == |fs|
    requires Entered(p, s, ln.addrs[f], args) && |low| == s.fp
    requires Guarded(s.heap, s.cur, z, s.scopes, s.stack, low + args)
    requires Invoke(k, fs, f, args) == Some(v) && Orderly(p, s)
    ensures Arrives(p, s, ok, t)
    ensures ok ==> M.ValidState(t) && t.ip == s.stack[s.fp - 2].val && (t.ip >= |p.code| ==> M.Step(p, t) == M.Halted)
    ensures ok ==> t.fp == s.stack[s.fp - 1].val && t.scopes == s.scopes && t.cur == s.cur
    ensures ok ==> |t.stack| == s.fp - 1 && t.stack[..s.fp - 2] == s.stack[..s.fp - 2]
    ensures ok ==> Guarded(t.heap, t.cur, z, t.scopes, t.stack, low[..s.fp - 2] + [v])
    ensures ok ==> Grown(s.heap, t.heap)
  {
    hide Linked, Guarded, Invoke, Reach, Fills, Orderly, Grown;
    var fr := EntryFrame(s, low, z);
    assert s.scopes[..|fr.base|] == fr.base;
    assert s.stack[..s.fp][s.fp - 2] == s.stack[s.fp - 2] && s.stack[..s.fp][s.fp - 1] == s.stack[s.fp - 1];
    assert s.stack[..s.fp][..s.fp - 2] == s.stack[..s.fp - 2];
    assert M.ValidState(s) && ScopesOk(s.heap, s.cur, z, s.scopes, |s.stack|) by { ScopesOf(s, z, low + args); }
    CalleeIntact(fr, s);
    ok, t := SimBody(k, fs, ln, p, f, fr, s, args, v);
    OnlyFills(p, s, ok, t);
    if ok {
      ReturnedOnTop(fr, t, v);
    }
  }

  lemma ScopesOf(s: State, z: Hole, vs: seq<Value>)
    requires M.ValidState(s) && Guarded(s.heap, s.cur, z, s.scopes, s.stack, vs)
    ensures ScopesOk(s.heap, s.cur, z, s.scopes, |s.stack|)
  {
  }

  lemma ReturnedOnTop(fr: Frame, t: State, v: Value)
    requires Returned(fr, t, v)
    ensures Grown(fr.was, t.heap)
    ensures M.ValidState(t) && t.stack == t.stack[..|fr.low| - 2] + [M.Top(t, 0)]
  {
  }

  /** The result by itself, for a run that starts on an otherwise empty machine. */
  lemma EntryMeans(k: nat, fs: seq<Func>, ln: Link, p: Program, f: nat, s: State, args: seq<Value>, v: Value)
    returns (ok: bool, t: State)
    requires Linked(p, ln, fs) && f < |fs| && |ln.addrs| == |fs|
    requires Entered(p, s, ln.addrs[f], args) && s.fp == 2 && s.scopes == [] && s.stack[0] == M.Num(|p.code|)
    requires Guarded(s.heap, s.cur, NONE, [], s.stack, [NumV(|p.code|), NumV(s.stack[1].val)] + args)
    requires Invoke(k, fs, f, args) == Some(v) && Orderly(p, s)
    ensures Arrives(p, s, ok, t)
    ensures ok ==> M.ValidState(t) && M.Step(p, t) == M.Halted && t.scopes == [] && |t.stack| == 1
    ensures ok ==> Rep(t.heap, NoGap(), t.stack[0], v)
  {
    hide Linked, Invoke, Reach, Fills, Orderly;
    var low := [NumV(|p.code|), NumV(s.stack[1].val)];
    ok, t := FunctionMeans(k, fs, ln, p, f, s, low, args, v, NONE);
    if ok {
      assert low[..0] + [v] == [v];
      assert Kept(t.heap, t.cur, NONE, t.scopes, 0, t.stack[0], v);
      RepHomeAny(t.heap, t.cur, t.stack[0], v);
    }
  }

  // ---- The bound on the source run does not matter ----

  /** A run that ends within `k` ends the same way within any larger bound. */
  lemma {:induction false} EvalMore(k: nat, j: nat, fs: seq<Func>, e: Expr, vs: seq<Value>)
    requires k <= j && Eval(k, fs, e, vs).Some?
    ensures Eval(j, fs, e, vs) == Eval(k, fs, e, vs)
    decreases 2 * k, e, 0
  {
    hide Invoke, Apply, ElementAt, SpanOf;
    match e
    case Neg(e1) => EvalMore(k, j, fs, e1, vs);
    case Bin(_, l, r) => EvalMore(k, j, fs, l, vs); EvalMore(k, j, fs, r, vs);
    case Cond(c, t, f) =>
      EvalMore(k, j, fs, c, vs);
      if Truthy(Eval(k, fs, c, vs).value) { EvalMore(k, j, fs, t, vs); } else { EvalMore(k, j, fs, f, vs); }
    case List(es) => EvalAllMore(k, j, fs, es, vs);
    case Index(a, i) => EvalMore(k, j, fs, a, vs); EvalMore(k, j, fs, i, vs);
    case Span(a, lo, hi) => EvalMore(k, j, fs, a, vs); EvalMore(k, j, fs, lo, vs); EvalMore(k, j, fs, hi, vs);
    case Call(f, args) =>
      EvalAllMore(k, j, fs, args, vs);
      InvokeMore(k - 1, j - 1, fs, f, EvalAll(k, fs, args, vs).value);
    case _ =>
  }

  lemma {:induction false} EvalAllMore(k: nat, j: nat, fs: seq<Func>, es: seq<Expr>, vs: seq<Value>)
    requires k <= j && EvalAll(k, fs, es, vs).Some?
    ensures EvalAll(j, fs, es, vs) == EvalAll(k, fs, es, vs)
    decreases 2 * k, es, 0
  {
    hide Eval;
    if es != [] {
      EvalMore(k, j, fs, es[0], vs);
      EvalAllMore(k, j, fs, es[1..], vs);
    }
  }

  lemma {:induction false} InvokeMore(k: nat, j: nat, fs: seq<Func>, f: nat, args: seq<Value>)
    requires k <= j && Invoke(k, fs, f, args).Some?
    ensures Invoke(j, fs, f, args) == Invoke(k, fs, f, args)
    decreases 2 * k + 1
  {
    hide Run;
    RunMore(k, j, fs, fs[f].body, args);
  }

  lemma {:induction false} RunMore(k: nat, j: nat, fs: seq<Func>, s: Stmt, vs: seq<Value>)
    requires k <= j && !Run(k, fs, s, vs).Fault?
    ensures Run(j, fs, s, vs) == Run(k, fs, s, vs)
    decreases 2 * k, s, 3
  {
    hide Eval, EvalAll, Invoke, Loop, Iterate, While;
    match s
    case Then(a, b) =>
      RunMore(k, j, fs, a, vs);
      if Run(k, fs, a, vs).Norm? { RunMore(k, j, fs, b, Run(k, fs, a, vs).vs); }
    case Decl(e) => EvalMore(k, j, fs, e, vs);
    case Assign(_, e) => EvalMore(k, j, fs, e, vs);
    case Do(f, args) =>
      EvalAllMore(k, j, fs, args, vs);
      InvokeMore(k - 1, j - 1, fs, f, EvalAll(k, fs, args, vs).value);
    case Blk(b) => RunMore(k, j, fs, b, vs);
    case If(c, t, e) =>
      EvalMore(k, j, fs, c, vs);
      if Truthy(Eval(k, fs, c, vs).value) { RunMore(k, j, fs, t, vs); } else { RunMore(k, j, fs, e, vs); }
    case Forever(b) => LoopMore(k, j, fs, b, vs);
    case ForIn(reuse, e, b) =>
      var vs1 := if reuse.None? then vs + [NumV(0)] else vs;
      EvalMore(k, j, fs, e, vs1);
      var x := if reuse.None? then |vs| else reuse.value;
      IterateMore(k, j, fs, x, b, vs1 + [Eval(k, fs, e, vs1).value, NumV(0)]);
    case ForCond(c, b) => WhileMore(k, j, fs, c, b, vs);
    case Ret(e) => EvalMore(k, j, fs, e, vs);
    case _ =>
  }

  lemma {:induction false} LoopMore(k: nat, j: nat, fs: seq<Func>, b: Stmt, vs: seq<Value>)
    requires k <= j && !Loop(k, fs, b, vs).Fault?
    ensures Loop(j, fs, b, vs) == Loop(k, fs, b, vs)
    decreases 2 * k, b, 4
  {
    hide Run;
    RunMore(k, j, fs, b, vs);
    var r := Run(k, fs, b, vs);
    if r.Norm? || r.Continued? {
      LoopMore(k - 1, j - 1, fs, b, r.vs);
    }
  }

  lemma {:induction false} IterateMore(k: nat, j: nat, fs: seq<Func>, x: nat, b: Stmt, vs: seq<Value>)
    requires k <= j && !Iterate(k, fs, x, b, vs).Fault?
    ensures Iterate(j, fs, x, b, vs) == Iterate(k, fs, x, b, vs)
    decreases 2 * k, b, 4
  {
    hide Run;
    var a, i := vs[|vs| - 2], vs[|vs| - 1];
    if i.val < |a.kids| {
      var vs1 := vs[x := a.kids[i.val]];
      RunMore(k, j, fs, b, vs1);
      var r := Run(k, fs, b, vs1);
      if r.Norm? || r.Continued? {
        IterateMore(k - 1, j - 1, fs, x, b, r.vs[|r.vs| - 1 := NumV(r.vs[|r.vs| - 1].val + 1)]);
      }
    }
  }

  lemma {:induction false} WhileMore(k: nat, j: nat, fs: seq<Func>, c: Expr, b: Stmt, vs: seq<Value>)
    requires k <= j && !While(k, fs, c, b, vs).Fault?
    ensures While(j, fs, c, b, vs) == While(k, fs, c, b, vs)
    decreases 2 * k, ForCond(c, b), 1
  {
    hide Run, Eval;
    EvalMore(k, j, fs, c, vs);
    if Truthy(Eval(k, fs, c, vs).value) {
      RunMore(k, j, fs, b, vs);
      var r := CutFlow(Run(k, fs, b, vs), |vs|);
      if r.Norm? || r.Continued? {
        WhileMore(k - 1, j - 1, fs, c, b, r.vs);
      }
    }
  }

  /** A call has at most one result, whatever bounds two runs of it are given. */
  lemma CallUnique(k: nat, j: nat, fs: seq<Func>, f: nat, args: seq<Value>)
    requires Invoke(k, fs, f, args).Some? && Invoke(j, fs, f, args).Some?
    ensures Invoke(k, fs, f, args) == Invoke(j, fs, f, args)
  {
    if k <= j { InvokeMore(k, j, fs, f, args); } else { InvokeMore(j, k, fs, f, args); }
  }
}
