/** The emitted code means what the source means: a run of the bytecode follows the big-step
    semantics, expression by expression and statement by statement. */
module Simulation {
  import opened Defines
  import opened Arenas
  import M = Machine
  import opened Frames
  import opened Instructions
  import opened Calls
  import opened Language
  import opened Codegen
  import opened Protection

  type Program = M.Program
  type State = M.State

  /** Every function sits at its address, its constants are pooled, its loops are aligned. */
  ghost predicate Linked(p: Program, ln: Link, fs: seq<Func>) {
    && ln.consts == p.consts && 0 in p.consts && |ln.addrs| == |fs|
    && forall f :: 0 <= f < |fs| ==>
         && Has(p, ln.addrs[f], GenFunc(fs[f], ln, ln.addrs[f]))
         && Formed(fs[f].body, BodyCtx(fs[f].arity))
         && StmtPooled(fs[f].body, p.consts)
  }

  lemma LinkedConsts(p: Program, ln: Link, fs: seq<Func>)
    requires Linked(p, ln, fs)
    ensures ln.consts == p.consts && 0 in p.consts
  {
    hide Formed, StmtPooled, GenFunc;
  }

  ghost predicate Arrived(fr: Frame, marks: seq<nat>, n: nat, xs: seq<Value>, ip: int, t: State) {
    t.ip == ip && InFrame(fr, t, marks, n, xs)
  }

  lemma {:induction false} SimExpr(k: nat, fs: seq<Func>, ln: Link, p: Program, e: Expr, fr: Frame, s: State,
                                   marks: seq<nat>, vs: seq<Value>, ts: seq<Value>, v: Value)
    returns (ok: bool, t: State)
    requires Linked(p, ln, fs) && InFrame(fr, s, marks, |vs|, vs + ts)
    requires Has(p, s.ip, GenExpr(e, ln, s.ip)) && Pooled(e, p.consts)
    requires Eval(k, fs, e, vs) == Some(v)
    ensures Leads(p, s, ok, t)
    ensures ok ==> Arrived(fr, marks, |vs|, vs + ts + [v], s.ip + |GenExpr(e, ln, s.ip)|, t)
    decreases 2 * k, e, 1
  {
    hide Linked, InFrame, Has, Leads, Reach, Fails, EvalAll, Invoke, Apply, ElementAt, SpanOf, ConstIndex, PushConst, Branches, GenExprs;
    LinkedConsts(p, ln, fs);
    match e
    case Lit(n) => ok, t := DoConst(p, fr, s, marks, |vs|, vs + ts, n, ln);
    case Bool(b) => ok, t := DoConst(p, fr, s, marks, |vs|, vs + ts, M.Bit(b), ln);
    case Var(x) =>
      assert (vs + ts)[x] == vs[x];
      InFrameSize(fr, s, marks, |vs|, vs + ts);
      ok, t := DoLoad(p, fr, s, marks, |vs|, vs + ts, x);
    case Neg(e1) => ok, t := SimNeg(k, fs, ln, p, e1, fr, s, marks, vs, ts, v);
    case Bin(op, l, r) => ok, t := SimBin(k, fs, ln, p, op, l, r, fr, s, marks, vs, ts, v);
    case Cond(c, a, b) => ok, t := SimCond(k, fs, ln, p, c, a, b, fr, s, marks, vs, ts, v);
    case List(es) => ok, t := SimList(k, fs, ln, p, es, fr, s, marks, vs, ts, v);
    case Index(a, i) => ok, t := SimIndex(k, fs, ln, p, a, i, fr, s, marks, vs, ts, v);
    case Span(a, lo, hi) => ok, t := SimSpan(k, fs, ln, p, a, lo, hi, fr, s, marks, vs, ts, v);
    case Call(f, args) => ok, t := SimArgsCall(k, fs, ln, p, f, args, fr, s, marks, vs, ts, v);
  }

  lemma InFrameSize(fr: Frame, s: State, marks: seq<nat>, n: nat, xs: seq<Value>)
    requires InFrame(fr, s, marks, n, xs)
    ensures n <= |xs|
  {
  }

  lemma {:induction false} SimNeg(k: nat, fs: seq<Func>, ln: Link, p: Program, e: Expr, fr: Frame, s: State,
    marks: seq<nat>, vs: seq<Value>, ts: seq<Value>, v: Value)
    returns (ok: bool, t: State)
    requires Linked(p, ln, fs) && InFrame(fr, s, marks, |vs|, vs + ts)
    requires Has(p, s.ip, GenExpr(Neg(e), ln, s.ip)) && Pooled(Neg(e), p.consts)
    requires Eval(k, fs, Neg(e), vs) == Some(v)
    ensures Leads(p, s, ok, t)
    ensures ok ==> Arrived(fr, marks, |vs|, vs + ts + [v], s.ip + |GenExpr(Neg(e), ln, s.ip)|, t)
    decreases 2 * k, Neg(e), 0
  {
    hide Linked, InFrame, Has, Reach, Fails, ConstIndex, PushConst, Branches, Pooled, EvalAll, Invoke, Apply, ElementAt, SpanOf;
    LinkedConsts(p, ln, fs);
    PooledNeg(e, p.consts);
    if e.Lit? {
      NegLit(k, fs, e, vs);
      ok, t := DoConst(p, fr, s, marks, |vs|, vs + ts, 0 - e.n, ln);
    } else {
      var c0, c1 := PushConst(0, ln), GenExpr(e, ln, s.ip + 2);
      HasSplit(p, s.ip, c0 + c1, [M.OP_SUB]);
      HasSplit(p, s.ip, c0, c1);
      ok, t := DoConst(p, fr, s, marks, |vs|, vs + ts, 0, ln);
      if ok {
        var s1 := t;
        assert vs + ts + [NumV(0)] == vs + (ts + [NumV(0)]);
        var a := Eval(k, fs, e, vs).value;
        ok, t := SimExpr(k, fs, ln, p, e, fr, s1, marks, vs, ts + [NumV(0)], a);
        Chain(p, s, s1, ok, t);
        if ok {
          ok, t := FinishBinary(p, fr, s, t, marks, vs, ts, Sub, NumV(0), a, v);
        }
      }
    }
  }

  lemma PooledNeg(e: Expr, consts: seq<int>)
    requires Pooled(Neg(e), consts)
    ensures if e.Lit? then 0 - e.n in consts else 0 in consts && Pooled(e, consts)
  {
  }

  lemma NegLit(k: nat, fs: seq<Func>, e: Expr, vs: seq<Value>)
    requires e.Lit? && Eval(k, fs, Neg(e), vs).Some?
    ensures Eval(k, fs, Neg(e), vs) == Some(NumV(0 - e.n))
  {
    assert Eval(k, fs, e, vs) == Some(NumV(e.n));
  }

  /** The operator instruction after both operands, reached from `s` through `s2`. */
  lemma FinishBinary(p: Program, fr: Frame, s: State, s2: State, marks: seq<nat>, vs: seq<Value>, ts: seq<Value>,
                     op: BinOp, a: Value, b: Value, v: Value)
    returns (ok: bool, t: State)
    requires Reach(p, s, s2) && InFrame(fr, s2, marks, |vs|, vs + (ts + [a]) + [b])
    requires Has(p, s2.ip, [OpCode(op)]) && Apply(op, a, b) == Some(v)
    ensures Leads(p, s, ok, t)
    ensures ok ==> Arrived(fr, marks, |vs|, vs + ts + [v], s2.ip + 1, t)
  {
    hide InFrame, Has, Reach, Fails, Apply;
    var xs := vs + (ts + [a]) + [b];
    ok, t := DoBinary(p, fr, s2, marks, |vs|, xs, op, v);
    Chain(p, s, s2, ok, t);
    assert xs[..|xs| - 2] == vs + ts;
  }

  lemma {:induction false} SimBin(k: nat, fs: seq<Func>, ln: Link, p: Program, op: BinOp, l: Expr, r: Expr, fr: Frame, s: State,
    marks: seq<nat>, vs: seq<Value>, ts: seq<Value>, v: Value)
    returns (ok: bool, t: State)
    requires Linked(p, ln, fs) && InFrame(fr, s, marks, |vs|, vs + ts)
    requires Has(p, s.ip, GenExpr(Bin(op, l, r), ln, s.ip)) && Pooled(Bin(op, l, r), p.consts)
    requires Eval(k, fs, Bin(op, l, r), vs) == Some(v)
    ensures Leads(p, s, ok, t)
    ensures ok ==> Arrived(fr, marks, |vs|, vs + ts + [v], s.ip + |GenExpr(Bin(op, l, r), ln, s.ip)|, t)
    decreases 2 * k, Bin(op, l, r), 0
  {
    hide Linked, InFrame, Has, Reach, Fails, GenExpr, Pooled, Eval, Apply, OpCode;
    BinIs(op, l, r, ln, s.ip);
    BinSteps(k, fs, op, l, r, vs, v);
    var cl := GenExpr(l, ln, s.ip);
    var cr := GenExpr(r, ln, s.ip + |cl|);
    HasSplit(p, s.ip, cl + cr, [OpCode(op)]);
    HasSplit(p, s.ip, cl, cr);
    PooledBin(op, l, r, p.consts);
    var a, b := Eval(k, fs, l, vs).value, Eval(k, fs, r, vs).value;
    ok, t := SimExpr(k, fs, ln, p, l, fr, s, marks, vs, ts, a);
    if ok {
      var s1 := t;
      assert vs + ts + [a] == vs + (ts + [a]);
      ok, t := SimExpr(k, fs, ln, p, r, fr, s1, marks, vs, ts + [a], b);
      Chain(p, s, s1, ok, t);
      if ok {
        ok, t := FinishBinary(p, fr, s, t, marks, vs, ts, op, a, b, v);
      }
    }
  }

  lemma BinSteps(k: nat, fs: seq<Func>, op: BinOp, l: Expr, r: Expr, vs: seq<Value>, v: Value)
    requires Eval(k, fs, Bin(op, l, r), vs) == Some(v)
    ensures Eval(k, fs, l, vs).Some? && Eval(k, fs, r, vs).Some?
    ensures Apply(op, Eval(k, fs, l, vs).value, Eval(k, fs, r, vs).value) == Some(v)
  {
    hide Apply;
  }

  lemma PooledBin(op: BinOp, l: Expr, r: Expr, consts: seq<int>)
    requires Pooled(Bin(op, l, r), consts)
    ensures Pooled(l, consts) && Pooled(r, consts)
  {
  }

  lemma {:induction false} SimCond(k: nat, fs: seq<Func>, ln: Link, p: Program, c: Expr, a: Expr, b: Expr, fr: Frame, s: State,
    marks: seq<nat>, vs: seq<Value>, ts: seq<Value>, v: Value)
    returns (ok: bool, t: State)
    requires Linked(p, ln, fs) && InFrame(fr, s, marks, |vs|, vs + ts)
    requires Has(p, s.ip, GenExpr(Cond(c, a, b), ln, s.ip)) && Pooled(Cond(c, a, b), p.consts)
    requires Eval(k, fs, Cond(c, a, b), vs) == Some(v)
    ensures Leads(p, s, ok, t)
    ensures ok ==> Arrived(fr, marks, |vs|, vs + ts + [v], s.ip + |GenExpr(Cond(c, a, b), ln, s.ip)|, t)
    decreases 2 * k, Cond(c, a, b), 0
  {
    hide Linked, InFrame, Has, Reach, Fails, ConstIndex, PushConst, Branches, Pooled, EvalAll, Invoke, Apply, ElementAt, SpanOf;
    var cc := GenExpr(c, ln, s.ip);
    var ct := GenExpr(a, ln, s.ip + |cc| + 2);
    var els := s.ip + |cc| + 2 + |ct| + 2;
    var cf := GenExpr(b, ln, els);
    SplitBranches(p, s.ip, cc, els, ct, els + |cf|, cf);
    PooledCond(c, a, b, p.consts);
    var x := Eval(k, fs, c, vs).value;
    ok, t := SimExpr(k, fs, ln, p, c, fr, s, marks, vs, ts, x);
    if ok {
      var s1 := t;
      InFrameSize(fr, s1, marks, |vs|, vs + ts + [x]);
      ok, t := DoBranch(p, fr, s1, marks, |vs|, vs + ts + [x], els);
      Chain(p, s, s1, ok, t);
      assert (vs + ts + [x])[..|vs + ts + [x]| - 1] == vs + ts;
      if ok {
        var s2 := t;
        if Truthy(x) {
          ok, t := SimExpr(k, fs, ln, p, a, fr, s2, marks, vs, ts, v);
          Chain(p, s, s2, ok, t);
          if ok {
            var s3 := t;
            ok, t := DoJump(p, fr, s3, marks, |vs|, vs + ts + [v], els + |cf|);
            Chain(p, s, s3, ok, t);
          }
        } else {
          ok, t := SimExpr(k, fs, ln, p, b, fr, s2, marks, vs, ts, v);
          Chain(p, s, s2, ok, t);
        }
      }
    }
  }

  lemma PooledCond(c: Expr, a: Expr, b: Expr, consts: seq<int>)
    requires Pooled(Cond(c, a, b), consts)
    ensures Pooled(c, consts) && Pooled(a, consts) && Pooled(b, consts)
  {
  }

  lemma SplitBranches(p: Program, ip: int, c: seq<int>, els: int, t: seq<int>, end: int, f: seq<int>)
    requires Has(p, ip, Branches(c, els, t, end, f))
    ensures Has(p, ip, c) && Has(p, ip + |c|, [M.OP_JZ, els]) && Has(p, ip + |c| + 2, t)
    ensures Has(p, ip + |c| + 2 + |t|, [M.OP_JMP, end]) && Has(p, ip + |c| + 2 + |t| + 2, f)
  {
    hide Has;
    HasSplit(p, ip, c + [M.OP_JZ, els] + t + [M.OP_JMP, end], f);
    HasSplit(p, ip, c + [M.OP_JZ, els] + t, [M.OP_JMP, end]);
    HasSplit(p, ip, c + [M.OP_JZ, els], t);
    HasSplit(p, ip, c, [M.OP_JZ, els]);
  }

  lemma {:induction false} SimIndex(k: nat, fs: seq<Func>, ln: Link, p: Program, a: Expr, i: Expr, fr: Frame, s: State,
    marks: seq<nat>, vs: seq<Value>, ts: seq<Value>, v: Value)
    returns (ok: bool, t: State)
    requires Linked(p, ln, fs) && InFrame(fr, s, marks, |vs|, vs + ts)
    requires Has(p, s.ip, GenExpr(Index(a, i), ln, s.ip)) && Pooled(Index(a, i), p.consts)
    requires Eval(k, fs, Index(a, i), vs) == Some(v)
    ensures Leads(p, s, ok, t)
    ensures ok ==> Arrived(fr, marks, |vs|, vs + ts + [v], s.ip + |GenExpr(Index(a, i), ln, s.ip)|, t)
    decreases 2 * k, Index(a, i), 0
  {
    hide Linked, InFrame, Has, Reach, Fails, ConstIndex, PushConst, Branches, Pooled, EvalAll, Invoke, Apply, ElementAt, SpanOf;
    var ca := GenExpr(a, ln, s.ip);
    var ci := GenExpr(i, ln, s.ip + |ca|);
    HasSplit(p, s.ip, ca + ci, [M.OP_AGET]);
    HasSplit(p, s.ip, ca, ci);
    PooledIndex(a, i, p.consts);
    var x, y := Eval(k, fs, a, vs).value, Eval(k, fs, i, vs).value;
    ok, t := SimExpr(k, fs, ln, p, a, fr, s, marks, vs, ts, x);
    if ok {
      var s1 := t;
      assert vs + ts + [x] == vs + (ts + [x]);
      ok, t := SimExpr(k, fs, ln, p, i, fr, s1, marks, vs, ts + [x], y);
      Chain(p, s, s1, ok, t);
      if ok {
        var s2 := t;
        var xs := vs + (ts + [x]) + [y];
        ok, t := DoIndex(p, fr, s2, marks, |vs|, xs, v);
        Chain(p, s, s2, ok, t);
        assert xs[..|xs| - 2] == vs + ts;
      }
    }
  }

  lemma PooledIndex(a: Expr, i: Expr, consts: seq<int>)
    requires Pooled(Index(a, i), consts)
    ensures Pooled(a, consts) && Pooled(i, consts)
  {
  }

  lemma {:induction false} SimSpan(k: nat, fs: seq<Func>, ln: Link, p: Program, a: Expr, lo: Expr, hi: Expr, fr: Frame, s: State,
    marks: seq<nat>, vs: seq<Value>, ts: seq<Value>, v: Value)
    returns (ok: bool, t: State)
    requires Linked(p, ln, fs) && InFrame(fr, s, marks, |vs|, vs + ts)
    requires Has(p, s.ip, GenExpr(Span(a, lo, hi), ln, s.ip)) && Pooled(Span(a, lo, hi), p.consts)
    requires Eval(k, fs, Span(a, lo, hi), vs) == Some(v)
    ensures Leads(p, s, ok, t)
    ensures ok ==> Arrived(fr, marks, |vs|, vs + ts + [v], s.ip + |GenExpr(Span(a, lo, hi), ln, s.ip)|, t)
    decreases 2 * k, Span(a, lo, hi), 0
  {
    hide Linked, InFrame, Has, Reach, Fails, ConstIndex, PushConst, Branches, Pooled, EvalAll, Invoke, Apply, ElementAt, SpanOf;
    var ca := GenExpr(a, ln, s.ip);
    var cl := GenExpr(lo, ln, s.ip + |ca|);
    var ch := GenExpr(hi, ln, s.ip + |ca| + |cl|);
    HasSplit(p, s.ip, ca + cl + ch, [M.OP_SLICE]);
    HasSplit(p, s.ip, ca + cl, ch);
    HasSplit(p, s.ip, ca, cl);
    PooledSpan(a, lo, hi, p.consts);
    var x, y, z := Eval(k, fs, a, vs).value, Eval(k, fs, lo, vs).value, Eval(k, fs, hi, vs).value;
    ok, t := SimExpr(k, fs, ln, p, a, fr, s, marks, vs, ts, x);
    if ok {
      var s1 := t;
      assert vs + ts + [x] == vs + (ts + [x]);
      ok, t := SimExpr(k, fs, ln, p, lo, fr, s1, marks, vs, ts + [x], y);
      Chain(p, s, s1, ok, t);
      if ok {
        var s2 := t;
        assert vs + (ts + [x]) + [y] == vs + (ts + [x] + [y]);
        ok, t := SimExpr(k, fs, ln, p, hi, fr, s2, marks, vs, ts + [x] + [y], z);
        Chain(p, s, s2, ok, t);
        if ok {
          ok, t := FinishSpan(p, fr, s, t, marks, vs, ts, x, y, z, v);
        }
      }
    }
  }

  lemma FinishSpan(p: Program, fr: Frame, s: State, s3: State, marks: seq<nat>, vs: seq<Value>, ts: seq<Value>,
                   x: Value, y: Value, z: Value, v: Value)
    returns (ok: bool, t: State)
    requires Reach(p, s, s3) && InFrame(fr, s3, marks, |vs|, vs + (ts + [x] + [y]) + [z])
    requires Has(p, s3.ip, [M.OP_SLICE]) && SpanOf(x, y, z) == Some(v)
    ensures Leads(p, s, ok, t)
    ensures ok ==> Arrived(fr, marks, |vs|, vs + ts + [v], s3.ip + 1, t)
  {
    hide InFrame, Has, Reach, Fails, SpanOf;
    var xs := vs + (ts + [x] + [y]) + [z];
    ok, t := DoSpan(p, fr, s3, marks, |vs|, xs, v);
    Chain(p, s, s3, ok, t);
    assert xs[..|xs| - 3] == vs + ts;
  }

  lemma PooledSpan(a: Expr, lo: Expr, hi: Expr, consts: seq<int>)
    requires Pooled(Span(a, lo, hi), consts)
    ensures Pooled(a, consts) && Pooled(lo, consts) && Pooled(hi, consts)
  {
  }

  lemma {:induction false} SimList(k: nat, fs: seq<Func>, ln: Link, p: Program, es: seq<Expr>, fr: Frame, s: State,
    marks: seq<nat>, vs: seq<Value>, ts: seq<Value>, v: Value)
    returns (ok: bool, t: State)
    requires Linked(p, ln, fs) && InFrame(fr, s, marks, |vs|, vs + ts)
    requires Has(p, s.ip, GenExpr(List(es), ln, s.ip)) && Pooled(List(es), p.consts)
    requires Eval(k, fs, List(es), vs) == Some(v)
    ensures Leads(p, s, ok, t)
    ensures ok ==> Arrived(fr, marks, |vs|, vs + ts + [v], s.ip + |GenExpr(List(es), ln, s.ip)|, t)
    decreases 2 * k, List(es), 0
  {
    hide Linked, InFrame, Has, Reach, Fails, ConstIndex, PushConst, Branches, Pooled, EvalAll, Invoke, Apply, ElementAt, SpanOf;
    var ce := GenExprs(es, ln, s.ip);
    HasSplit(p, s.ip, ce, [M.OP_ARR, |es|]);
    PooledList(es, p.consts);
    var xs := EvalAll(k, fs, es, vs).value;
    ok, t := SimExprs(k, fs, ln, p, es, fr, s, marks, vs, ts, xs);
    if ok {
      var s1 := t;
      var all := vs + ts + xs;
      ok, t := DoList(p, fr, s1, marks, |vs|, all, |es|);
      Chain(p, s, s1, ok, t);
      assert all[..|all| - |es|] == vs + ts && all[|all| - |es|..] == xs;
    }
  }

  lemma PooledList(es: seq<Expr>, consts: seq<int>)
    requires Pooled(List(es), consts)
    ensures AllPooled(es, consts)
  {
  }

  lemma {:induction false} SimExprs(k: nat, fs: seq<Func>, ln: Link, p: Program, es: seq<Expr>, fr: Frame, s: State,
                                    marks: seq<nat>, vs: seq<Value>, ts: seq<Value>, xs: seq<Value>)
    returns (ok: bool, t: State)
    requires Linked(p, ln, fs) && InFrame(fr, s, marks, |vs|, vs + ts)
    requires Has(p, s.ip, GenExprs(es, ln, s.ip)) && AllPooled(es, p.consts)
    requires EvalAll(k, fs, es, vs) == Some(xs)
    ensures Leads(p, s, ok, t)
    ensures ok ==> Arrived(fr, marks, |vs|, vs + ts + xs, s.ip + |GenExprs(es, ln, s.ip)|, t)
    decreases 2 * k, es, 0
  {
    hide Linked, InFrame, Has, Reach, Fails, GenExpr, Eval, Pooled;
    if es == [] {
      assert vs + ts + xs == vs + ts;
      Here(fr, s, marks, |vs|, vs + ts, p);
      ok, t := true, s;
    } else {
      var c := GenExpr(es[0], ln, s.ip);
      HasSplit(p, s.ip, c, GenExprs(es[1..], ln, s.ip + |c|));
      var x := Eval(k, fs, es[0], vs).value;
      ok, t := SimExpr(k, fs, ln, p, es[0], fr, s, marks, vs, ts, x);
      if ok {
        var s1 := t;
        assert vs + ts + [x] == vs + (ts + [x]);
        assert AllPooled(es[1..], p.consts);
        ok, t := SimExprs(k, fs, ln, p, es[1..], fr, s1, marks, vs, ts + [x], xs[1..]);
        Chain(p, s, s1, ok, t);
        assert vs + (ts + [x]) + xs[1..] == vs + ts + xs;
      }
    }
  }

  lemma Here(fr: Frame, s: State, marks: seq<nat>, n: nat, xs: seq<Value>, p: Program)
    requires InFrame(fr, s, marks, n, xs)
    ensures Reach(p, s, s)
  {
    Stay(p, s);
  }

  lemma {:induction false} SimArgsCall(k: nat, fs: seq<Func>, ln: Link, p: Program, f: nat, args: seq<Expr>, fr: Frame, s: State,
    marks: seq<nat>, vs: seq<Value>, ts: seq<Value>, v: Value)
    returns (ok: bool, t: State)
    requires Linked(p, ln, fs) && InFrame(fr, s, marks, |vs|, vs + ts)
    requires Has(p, s.ip, GenExpr(Call(f, args), ln, s.ip)) && Pooled(Call(f, args), p.consts)
    requires Eval(k, fs, Call(f, args), vs) == Some(v)
    ensures Leads(p, s, ok, t)
    ensures ok ==> Arrived(fr, marks, |vs|, vs + ts + [v], s.ip + |GenExpr(Call(f, args), ln, s.ip)|, t)
    decreases 2 * k, Call(f, args), 0
  {
    hide Linked, InFrame, Has, Reach, Fails, ConstIndex, PushConst, Branches, Pooled, EvalAll, Invoke, Apply, ElementAt, SpanOf;
    var ce := GenExprs(args, ln, s.ip);
    HasSplit(p, s.ip, ce, [M.OP_CALL, FuncAddr(f, ln), |args|]);
    PooledCall(f, args, p.consts);
    var xs := EvalAll(k, fs, args, vs).value;
    ok, t := SimExprs(k, fs, ln, p, args, fr, s, marks, vs, ts, xs);
    if ok {
      var s1 := t;
      ok, t := SimCall(k - 1, fs, ln, p, f, fr, s1, marks, vs, ts, xs, v);
      Chain(p, s, s1, ok, t);
    }
  }

  lemma PooledCall(f: nat, args: seq<Expr>, consts: seq<int>)
    requires Pooled(Call(f, args), consts)
    ensures AllPooled(args, consts)
  {
  }

  // ---- Calls ----

  /** A call with its arguments on the stack replaces them by the value the source call returns. */
  lemma {:induction false} SimCall(k: nat, fs: seq<Func>, ln: Link, p: Program, f: nat, fr: Frame, s: State,
                                   marks: seq<nat>, vs: seq<Value>, ts: seq<Value>, xs: seq<Value>, v: Value)
    returns (ok: bool, t: State)
    requires Linked(p, ln, fs) && InFrame(fr, s, marks, |vs|, vs + ts + xs)
    requires Has(p, s.ip, [M.OP_CALL, FuncAddr(f, ln), |xs|])
    requires Invoke(k, fs, f, xs) == Some(v)
    ensures Leads(p, s, ok, t)
    ensures ok ==> Arrived(fr, marks, |vs|, vs + ts + [v], s.ip + 3, t)
    decreases 2 * k + 1
  {
    hide Linked, InFrame, Has, Reach, Fails, Invoke, Callee, Returned;
    var all := vs + ts + xs;
    assert |ln.addrs| == |fs| by { LinkedSize(p, ln, fs); }
    InvokeSteps(k, fs, f, xs, v);
    ok, t := DoCall(p, fr, s, marks, |vs|, all, ln.addrs[f], |xs|);
    if ok {
      var s1 := t;
      InFrameLow(fr, s, marks, |vs|, all);
      var cf := Callee(s, s.ip + 3, fr.lowv + all, |xs|, fr.z);
      assert all[|all| - |xs|..] == xs;
      ok, t := SimBody(k, fs, ln, p, f, cf, s1, xs, v);
      Chain(p, s, s1, ok, t);
      if ok {
        BackInFrame(fr, s, marks, vs, ts, xs, v, t);
      }
    }
  }

  lemma LinkedSize(p: Program, ln: Link, fs: seq<Func>)
    requires Linked(p, ln, fs)
    ensures |ln.addrs| == |fs|
  {
    hide Formed, StmtPooled, GenFunc;
  }

  lemma InFrameLow(fr: Frame, s: State, marks: seq<nat>, n: nat, xs: seq<Value>)
    requires InFrame(fr, s, marks, n, xs)
    ensures |s.stack| == |fr.low| + |xs| && |fr.lowv| == |fr.low|
  {
  }

  lemma BackIntact(fr: Frame, s: State, t: State)
    requires Intact(fr, s.heap, s.scopes) && Grown(s.heap, t.heap) && t.scopes == s.scopes
    ensures Intact(fr, t.heap, t.scopes)
  {
    IntactGrown(fr, s.heap, t.heap, s.scopes);
  }

  /** What a return leaves is the caller's own frame with the result on top. */
  lemma BackInFrame(fr: Frame, s: State, marks: seq<nat>, vs: seq<Value>, ts: seq<Value>, xs: seq<Value>, v: Value, t: State)
    requires InFrame(fr, s, marks, |vs|, vs + ts + xs)
    requires |s.stack| == |fr.low| + |vs + ts + xs| && |fr.lowv| == |fr.low|
    requires Returned(Callee(s, s.ip + 3, fr.lowv + (vs + ts + xs), |xs|, fr.z), t, v)
    ensures t.ip == s.ip + 3 && InFrame(fr, t, marks, |vs|, vs + ts + [v])
  {
    hide Guarded, Grown, Intact;
    var cf := Callee(s, s.ip + 3, fr.lowv + (vs + ts + xs), |xs|, fr.z);
    var m := |s.stack| - |xs|;
    BackIntact(fr, s, t);
    assert cf.low[..|cf.low| - 2] == s.stack[..m];
    assert cf.lowv[..|cf.lowv| - 2] == fr.lowv + (vs + ts);
    assert fr.lowv + (vs + ts) + [v] == fr.lowv + (vs + ts + [v]);
    assert t.stack[..m] == s.stack[..m];
    assert t.stack[..|fr.low|] == t.stack[..m][..|fr.low|] == s.stack[..m][..|fr.low|] == fr.low;
  }

  /** A function entered by a call runs to its return. */
  lemma {:induction false} SimBody(k: nat, fs: seq<Func>, ln: Link, p: Program, f: nat, fr: Frame, s: State,
                                   xs: seq<Value>, v: Value)
    returns (ok: bool, t: State)
    requires Linked(p, ln, fs) && f < |fs| && |ln.addrs| == |fs|
    requires Arrived(fr, [], |xs|, xs, ln.addrs[f], s)
    requires Invoke(k, fs, f, xs) == Some(v)
    ensures Leads(p, s, ok, t)
    ensures ok ==> Returned(fr, t, v)
    decreases 2 * k
  {
    hide Linked, InFrame, Has, Reach, Fails, Run, Returned, GenStmt, PushConst, Formed, StmtPooled, Invoke, After, Pooled;
    var fn, base := fs[f], ln.addrs[f];
    var cx := BodyCtx(fn.arity);
    var r := Run(k, fs, fn.body, xs);
    InvokeSteps(k, fs, f, xs, v);
    FuncLinked(p, ln, fs, f);
    var cb := GenStmt(fn.body, cx, ln, base + 1);
    HasSplit(p, base, [M.OP_SCOPE_ENTER] + cb + PushConst(0, ln), [M.OP_RET]);
    HasSplit(p, base, [M.OP_SCOPE_ENTER] + cb, PushConst(0, ln));
    HasSplit(p, base, [M.OP_SCOPE_ENTER], cb);
    ok, t := DoEnter(p, fr, s, [], xs);
    if ok {
      var s1 := t;
      assert [] + [|xs|] == cx.marks;
      ok, t := SimStmt(k, fs, ln, p, fn.body, cx, fr, s1, xs, r);
      Chain(p, s, s1, ok, t);
      if ok && r.Norm? {
        ok, t := SimFallOff(p, ln, fs, fr, s, t, cx.marks, r.vs);
      }
    }
  }

  lemma InvokeSteps(k: nat, fs: seq<Func>, f: nat, xs: seq<Value>, v: Value)
    requires Invoke(k, fs, f, xs) == Some(v)
    ensures f < |fs| && |xs| == fs[f].arity
    ensures var r := Run(k, fs, fs[f].body, xs);
      if r.Return? then r.v == v else r.Norm? && v == NumV(0)
  {
    hide Run;
  }

  lemma FuncLinked(p: Program, ln: Link, fs: seq<Func>, f: nat)
    requires Linked(p, ln, fs) && f < |fs|
    ensures Has(p, ln.addrs[f], GenFunc(fs[f], ln, ln.addrs[f]))
    ensures Formed(fs[f].body, BodyCtx(fs[f].arity)) && StmtPooled(fs[f].body, p.consts)
  {
    hide Formed, StmtPooled, GenFunc, Has;
  }

  /** The implicit `ret 0` at the end of a function. */
  lemma SimFallOff(p: Program, ln: Link, fs: seq<Func>, fr: Frame, s: State, s2: State, marks: seq<nat>, vs: seq<Value>)
    returns (ok: bool, t: State)
    requires Linked(p, ln, fs) && Reach(p, s, s2) && InFrame(fr, s2, marks, |vs|, vs)
    requires Has(p, s2.ip, PushConst(0, ln)) && Has(p, s2.ip + 2, [M.OP_RET])
    ensures Leads(p, s, ok, t)
    ensures ok ==> Returned(fr, t, NumV(0))
  {
    hide Linked, InFrame, Has, Reach, Fails, PushConst, Returned;
    LinkedConsts(p, ln, fs);
    ok, t := DoConst(p, fr, s2, marks, |vs|, vs, 0, ln);
    Chain(p, s, s2, ok, t);
    if ok {
      var s3 := t;
      ok, t := DoRet(p, fr, s3, marks, |vs|, vs + [NumV(0)]);
      Chain(p, s, s3, ok, t);
    }
  }

  // ---- Statements ----

  /** The loops around a point: each was entered with its own locals, below the current ones. */
  ghost predicate LoopsOk(cx: Ctx) {
    forall i :: 0 <= i < |cx.loops| ==>
      var l := cx.loops[i];
      && l.open <= |cx.marks| && l.locals <= cx.locals
      && (if l.open < |cx.marks| then cx.marks[l.open] == l.locals else l.locals == cx.locals)
  }

  ghost predicate Inside(cx: Ctx) {
    forall i :: 0 <= i < |cx.loops| ==> cx.loops[i].open < |cx.marks|
  }

  /** Where a break or continue arrives: outside the loop's scopes, with the loop's locals. */
  ghost predicate AtLoop(fr: Frame, cx: Ctx, vs: seq<Value>, isBreak: bool, t: State) {
    && |cx.loops| > 0
    && var l := cx.loops[|cx.loops| - 1];
      && l.open <= |cx.marks| && l.locals <= |vs|
      && Arrived(fr, cx.marks[..l.open], l.locals, vs[..l.locals], if isBreak then l.brk else l.cont, t)
  }

  /** The machine state that matches the way a statement ends. */
  ghost predicate Ends(fr: Frame, cx: Ctx, n: nat, end: int, r: Flow, t: State) {
    match r
    case Norm(vs) => |vs| == n && Arrived(fr, cx.marks, n, vs, end, t)
    case Broke(vs) => AtLoop(fr, cx, vs, true, t)
    case Continued(vs) => AtLoop(fr, cx, vs, false, t)
    case Return(v) => Returned(fr, t, v)
    case Fault => false
  }

  ghost predicate Placed(p: Program, ln: Link, s: Stmt, cx: Ctx, fr: Frame, st: State, vs: seq<Value>) {
    && |vs| == cx.locals && InFrame(fr, st, cx.marks, |vs|, vs)
    && Has(p, st.ip, GenStmt(s, cx, ln, st.ip))
    && Formed(s, cx) && StmtPooled(s, p.consts)
    && LoopsOk(cx) && (s.Blk? || Inside(cx))
  }

  lemma {:induction false} SimStmt(k: nat, fs: seq<Func>, ln: Link, p: Program, s: Stmt, cx: Ctx, fr: Frame, st: State,
                                   vs: seq<Value>, r: Flow)
    returns (ok: bool, t: State)
    requires Linked(p, ln, fs) && Placed(p, ln, s, cx, fr, st, vs)
    requires r == Run(k, fs, s, vs) && !r.Fault?
    ensures Leads(p, st, ok, t)
    ensures ok ==> Ends(fr, cx, After(s, cx).locals, st.ip + |GenStmt(s, cx, ln, st.ip)|, r, t)
    decreases 2 * k, s, 3
  {
    hide Linked, InFrame, Has, Reach, Fails, Returned, LoopsOk, Inside, Eval, EvalAll, Invoke, GenExpr, GenExprs, Pooled, Iterate, Loop, While;
    hide GenThen, GenBlk, GenIf, GenForever, GenForIn, GenForCond, Unwind;
    match s
    case Skip =>
      Here(fr, st, cx.marks, |vs|, vs, p);
      ok, t := true, st;
    case Then(a, b) => ok, t := SimThen(k, fs, ln, p, a, b, cx, fr, st, vs, r);
    case Decl(e) =>
      var v := Eval(k, fs, e, vs).value;
      assert vs + [] == vs;
      ok, t := SimExpr(k, fs, ln, p, e, fr, st, cx.marks, vs, [], v);
      if ok {
        InFrameMarks(fr, t, cx.marks, |vs|, vs + [v]);
        Recount(fr, t, cx.marks, |vs|, |vs| + 1, vs + [v]);
      }
    case Assign(x, e) => ok, t := SimAssign(k, fs, ln, p, x, e, cx, fr, st, vs);
    case Do(f, args) => ok, t := SimDo(k, fs, ln, p, f, args, cx, fr, st, vs);
    case Blk(b) => ok, t := SimBlk(k, fs, ln, p, b, cx, fr, st, vs, r);
    case If(c, th, el) => ok, t := SimIf(k, fs, ln, p, c, th, el, cx, fr, st, vs, r);
    case Forever(b) => ok, t := SimForever(k, fs, ln, p, b, cx, fr, st, vs, r);
    case ForIn(reuse, e, b) => ok, t := SimForIn(k, fs, ln, p, reuse, e, b, cx, fr, st, vs, r);
    case ForCond(c, b) => ok, t := SimForCond(k, fs, ln, p, c, b, cx, fr, st, vs, r);
    case Break => ok, t := SimUnwind(p, ln, cx, fr, st, vs, true);
    case Continue => ok, t := SimUnwind(p, ln, cx, fr, st, vs, false);
    case Ret(e) => ok, t := SimRet(k, fs, ln, p, e, cx, fr, st, vs);
  }

  lemma {:induction false} SimAssign(k: nat, fs: seq<Func>, ln: Link, p: Program, x: nat, e: Expr, cx: Ctx, fr: Frame, st: State,
    vs: seq<Value>)
    returns (ok: bool, t: State)
    requires Linked(p, ln, fs) && Placed(p, ln, Assign(x, e), cx, fr, st, vs)
    requires !Run(k, fs, Assign(x, e), vs).Fault?
    ensures Leads(p, st, ok, t)
    ensures ok ==> Ends(fr, cx, After(Assign(x, e), cx).locals, st.ip + |GenStmt(Assign(x, e), cx, ln, st.ip)|, Run(k, fs, Assign(x, e), vs), t)
    decreases 2 * k, Assign(x, e), 2
  {
    hide Linked, InFrame, Has, Reach, Fails, Returned, LoopsOk, Inside, Eval, EvalAll, Invoke, GenExpr, GenExprs, Pooled;
    var v := Eval(k, fs, e, vs).value;
    HasSplit(p, st.ip, GenExpr(e, ln, st.ip), [M.OP_SVAR, x]);
    assert vs + [] == vs;
    ok, t := SimExpr(k, fs, ln, p, e, fr, st, cx.marks, vs, [], v);
    if ok {
      var s1 := t;
      ok, t := DoStore(p, fr, s1, cx.marks, |vs|, vs + [v], x);
      Chain(p, st, s1, ok, t);
      assert (vs + [v])[x := v][..|vs|] == vs[x := v];
    }
  }

  lemma {:induction false} SimDo(k: nat, fs: seq<Func>, ln: Link, p: Program, f: nat, args: seq<Expr>, cx: Ctx, fr: Frame, st: State,
    vs: seq<Value>)
    returns (ok: bool, t: State)
    requires Linked(p, ln, fs) && Placed(p, ln, Do(f, args), cx, fr, st, vs)
    requires !Run(k, fs, Do(f, args), vs).Fault?
    ensures Leads(p, st, ok, t)
    ensures ok ==> Ends(fr, cx, After(Do(f, args), cx).locals, st.ip + |GenStmt(Do(f, args), cx, ln, st.ip)|, Run(k, fs, Do(f, args), vs), t)
    decreases 2 * k, Do(f, args), 2
  {
    hide Linked, InFrame, Has, Reach, Fails, Returned, LoopsOk, Inside, Eval, EvalAll, Invoke, GenExpr, GenExprs, Pooled;
    var xs := EvalAll(k, fs, args, vs).value;
    var v := Invoke(k - 1, fs, f, xs).value;
    var ca := GenExprs(args, ln, st.ip);
    HasSplit(p, st.ip, ca + [M.OP_CALL, FuncAddr(f, ln), |args|], [M.OP_POP]);
    HasSplit(p, st.ip, ca, [M.OP_CALL, FuncAddr(f, ln), |args|]);
    assert vs + [] == vs;
    ok, t := SimExprs(k, fs, ln, p, args, fr, st, cx.marks, vs, [], xs);
    if ok {
      var s1 := t;
      ok, t := SimCall(k - 1, fs, ln, p, f, fr, s1, cx.marks, vs, [], xs, v);
      Chain(p, st, s1, ok, t);
      if ok {
        var s2 := t;
        ok, t := DoPop(p, fr, s2, cx.marks, |vs|, vs + [v]);
        Chain(p, st, s2, ok, t);
        assert (vs + [v])[..|vs + [v]| - 1] == vs;
      }
    }
  }

  lemma {:induction false} SimRet(k: nat, fs: seq<Func>, ln: Link, p: Program, e: Expr, cx: Ctx, fr: Frame, st: State,
    vs: seq<Value>)
    returns (ok: bool, t: State)
    requires Linked(p, ln, fs) && Placed(p, ln, Ret(e), cx, fr, st, vs)
    requires !Run(k, fs, Ret(e), vs).Fault?
    ensures Leads(p, st, ok, t)
    ensures ok ==> Ends(fr, cx, After(Ret(e), cx).locals, st.ip + |GenStmt(Ret(e), cx, ln, st.ip)|, Run(k, fs, Ret(e), vs), t)
    decreases 2 * k, Ret(e), 2
  {
    hide Linked, InFrame, Has, Reach, Fails, Returned, LoopsOk, Inside, Eval, EvalAll, Invoke, GenExpr, GenExprs, Pooled;
    var v := Eval(k, fs, e, vs).value;
    HasSplit(p, st.ip, GenExpr(e, ln, st.ip), [M.OP_RET]);
    assert vs + [] == vs;
    ok, t := SimExpr(k, fs, ln, p, e, fr, st, cx.marks, vs, [], v);
    if ok {
      var s1 := t;
      ok, t := DoRet(p, fr, s1, cx.marks, |vs|, vs + [v]);
      Chain(p, st, s1, ok, t);
    }
  }

  lemma InFrameMarks(fr: Frame, s: State, marks: seq<nat>, n: nat, xs: seq<Value>)
    requires InFrame(fr, s, marks, n, xs)
    ensures |marks| > 0 ==> marks[|marks| - 1] <= n
    ensures forall q :: 0 <= q < |marks| ==> marks[q] <= n
  {
    hide M.ValidState;
    forall q | 0 <= q < |marks| ensures marks[q] <= n {
      assert marks[q] <= marks[|marks| - 1];
    }
  }

  lemma {:induction false} SimThen(k: nat, fs: seq<Func>, ln: Link, p: Program, a: Stmt, b: Stmt, cx: Ctx, fr: Frame, st: State,
    vs: seq<Value>, r: Flow)
    returns (ok: bool, t: State)
    requires Linked(p, ln, fs) && Placed(p, ln, Then(a, b), cx, fr, st, vs)
    requires r == Run(k, fs, Then(a, b), vs) && !r.Fault?
    ensures Leads(p, st, ok, t)
    ensures ok ==> Ends(fr, cx, After(Then(a, b), cx).locals, st.ip + |GenStmt(Then(a, b), cx, ln, st.ip)|, r, t)
    decreases 2 * k, Then(a, b), 2
  {
    hide Linked, InFrame, Has, Reach, Fails, Returned, LoopsOk, Inside, GenStmt, Ends, After, Run, StmtPooled;
    StmtCode(Then(a, b), cx, ln, st.ip);
    ThenSteps(k, fs, p, a, b, cx, vs, r);
    var ca := GenStmt(a, cx, ln, st.ip);
    HasSplit(p, st.ip, ca, GenStmt(b, After(a, cx), ln, st.ip + |ca|));
    var r1 := Run(k, fs, a, vs);
    ok, t := SimStmt(k, fs, ln, p, a, cx, fr, st, vs, r1);
    if ok && !r1.Norm? {
      EndsAny(fr, cx, After(a, cx).locals, st.ip + |ca|, r1, t, After(b, After(a, cx)).locals, st.ip + |GenThen(a, b, cx, ln, st.ip)|);
    } else if ok {
      var s1, vs1 := t, r1.vs;
      AfterInside(a, cx);
      NormEnds(fr, cx, After(a, cx).locals, st.ip + |ca|, vs1, s1);
      ok, t := SimStmt(k, fs, ln, p, b, After(a, cx), fr, s1, vs1, r);
      Chain(p, st, s1, ok, t);
      if ok {
        EndsSame(fr, After(a, cx), cx, After(b, After(a, cx)).locals, s1.ip + |GenStmt(b, After(a, cx), ln, s1.ip)|, r, t);
      }
    }
  }


  lemma ThenSteps(k: nat, fs: seq<Func>, p: Program, a: Stmt, b: Stmt, cx: Ctx, vs: seq<Value>, r: Flow)
    requires Formed(Then(a, b), cx) && StmtPooled(Then(a, b), p.consts)
    requires r == Run(k, fs, Then(a, b), vs) && !r.Fault?
    ensures Formed(a, cx) && Formed(b, After(a, cx)) && StmtPooled(a, p.consts) && StmtPooled(b, p.consts)
    ensures After(Then(a, b), cx) == After(b, After(a, cx))
    ensures var r1 := Run(k, fs, a, vs);
      if r1.Norm? then r == Run(k, fs, b, r1.vs) else r == r1 && !r1.Fault?
  {
    hide Pooled;
  }

  lemma NormEnds(fr: Frame, cx: Ctx, n: nat, end: int, vs: seq<Value>, t: State)
    requires Ends(fr, cx, n, end, Norm(vs), t)
    ensures |vs| == n && Arrived(fr, cx.marks, n, vs, end, t)
  {
    hide InFrame;
  }

  /** A statement that does not end normally does not arrive at its end. */
  lemma EndsAny(fr: Frame, cx: Ctx, n: nat, end: int, r: Flow, t: State, n': nat, end': int)
    requires Ends(fr, cx, n, end, r, t) && !r.Norm?
    ensures Ends(fr, cx, n', end', r, t)
  {
    hide InFrame, Returned;
  }

  /** Loops and marks do not change inside a sequence, so neither do the places breaks arrive at. */
  lemma AfterInside(a: Stmt, cx: Ctx)
    requires LoopsOk(cx) && Inside(cx)
    ensures LoopsOk(After(a, cx)) && Inside(After(a, cx))
  {
    hide After;
  }

  lemma EndsSame(fr: Frame, cx: Ctx, cx': Ctx, n: nat, end: int, r: Flow, t: State)
    requires cx.loops == cx'.loops && cx.marks == cx'.marks && Ends(fr, cx, n, end, r, t)
    ensures Ends(fr, cx', n, end, r, t)
  {
    hide InFrame, Returned;
  }

  // ---- Blocks ----

  lemma EnterLoops(cx: Ctx)
    requires LoopsOk(cx)
    ensures LoopsOk(Enter(cx)) && Inside(Enter(cx))
  {
  }

  /** OP_SCOPE_EXIT with no local declared in the innermost scope left on the stack. */
  lemma LeaveOne(p: Program, fr: Frame, s: State, marks: seq<nat>, xs: seq<Value>)
    returns (t: State)
    requires InFrame(fr, s, marks + [|xs|], |xs|, xs)
    requires Has(p, s.ip, [M.OP_SCOPE_EXIT])
    ensures Reach(p, s, t) && Arrived(fr, marks, |xs|, xs, s.ip + 1, t)
  {
    hide InFrame, Has, Reach;
    assert Times(M.OP_SCOPE_EXIT, 1) == [M.OP_SCOPE_EXIT] + Times(M.OP_SCOPE_EXIT, 0);
    assert Times(M.OP_SCOPE_EXIT, 1) + Times(M.OP_POP, 0) == [M.OP_SCOPE_EXIT];
    t := DoUnwind(p, fr, s, marks + [|xs|], xs, |marks|);
    assert (marks + [|xs|])[..|marks|] == marks && xs[..|xs|] == xs;
  }

  /** A break or continue inside a block is one of the loop around the block. */
  lemma EndsCut(fr: Frame, cx: Ctx, n0: nat, end0: int, r: Flow, t: State, n: nat, end: int)
    requires LoopsOk(cx) && !r.Norm? && Ends(fr, Enter(cx), n0, end0, r, t)
    ensures Ends(fr, cx, n, end, CutFlow(r, cx.locals), t)
  {
    hide InFrame, Returned;
    if r.Broke? || r.Continued? {
      var l := cx.loops[|cx.loops| - 1];
      assert l == Enter(cx).loops[|cx.loops| - 1];
      assert Enter(cx).marks[..l.open] == cx.marks[..l.open];
      assert Cut(r.vs, cx.locals)[..l.locals] == r.vs[..l.locals];
    }
  }

  lemma SplitBraced(p: Program, ip: int, body: seq<int>, pops: nat)
    requires Has(p, ip, Braced(body, pops))
    ensures Has(p, ip, [M.OP_SCOPE_ENTER]) && Has(p, ip + 1, body)
    ensures Has(p, ip + 1 + |body|, Times(M.OP_POP, pops)) && Has(p, ip + 1 + |body| + pops, [M.OP_SCOPE_EXIT])
  {
    hide Has;
    HasSplit(p, ip, [M.OP_SCOPE_ENTER] + body + Times(M.OP_POP, pops), [M.OP_SCOPE_EXIT]);
    HasSplit(p, ip, [M.OP_SCOPE_ENTER] + body, Times(M.OP_POP, pops));
    HasSplit(p, ip, [M.OP_SCOPE_ENTER], body);
  }

  lemma {:induction false} SimBlk(k: nat, fs: seq<Func>, ln: Link, p: Program, b: Stmt, cx: Ctx, fr: Frame, st: State,
    vs: seq<Value>, r: Flow)
    returns (ok: bool, t: State)
    requires Linked(p, ln, fs) && Placed(p, ln, Blk(b), cx, fr, st, vs)
    requires r == Run(k, fs, Blk(b), vs) && !r.Fault?
    ensures Leads(p, st, ok, t)
    ensures ok ==> Ends(fr, cx, After(Blk(b), cx).locals, st.ip + |GenStmt(Blk(b), cx, ln, st.ip)|, r, t)
    decreases 2 * k, Blk(b), 2
  {
    hide Linked, InFrame, Has, Reach, Fails, Returned, LoopsOk, Inside, GenStmt, Braced, Times, Ends;
    StmtCode(Blk(b), cx, ln, st.ip);
    var cb := GenStmt(b, Enter(cx), ln, st.ip + 1);
    var pops := After(b, Enter(cx)).locals - cx.locals;
    SplitBraced(p, st.ip, cb, pops);
    EnterLoops(cx);
    var r0 := Run(k, fs, b, vs);
    ok, t := DoEnter(p, fr, st, cx.marks, vs);
    if ok {
      var s1 := t;
      ok, t := SimStmt(k, fs, ln, p, b, Enter(cx), fr, s1, vs, r0);
      Chain(p, st, s1, ok, t);
      if ok {
        if r0.Norm? {
          t := SimBlkEnd(p, fr, st, t, cx, vs, r0.vs, st.ip + 1 + |cb|, pops);
        } else {
          EndsCut(fr, cx, After(b, Enter(cx)).locals, s1.ip + |cb|, r0, t, cx.locals, st.ip + |cb| + pops + 2);
        }
      }
    }
  }

  /** The end of a block: its locals are dropped and its scope is left. */
  lemma SimBlkEnd(p: Program, fr: Frame, s: State, s2: State, cx: Ctx, vs: seq<Value>, vs1: seq<Value>, ip: int, pops: nat)
    returns (t: State)
    requires Reach(p, s, s2) && |vs| == cx.locals
    requires Ends(fr, Enter(cx), cx.locals + pops, ip, Norm(vs1), s2)
    requires Has(p, ip, Times(M.OP_POP, pops)) && Has(p, ip + pops, [M.OP_SCOPE_EXIT])
    ensures Reach(p, s, t) && Ends(fr, cx, cx.locals, ip + pops + 1, CutFlow(Norm(vs1), |vs|), t)
  {
    hide InFrame, Has, Reach, Fails, Returned, Times;
    var s3 := DoPops(p, fr, s2, Enter(cx).marks, vs1, |vs|);
    Chain(p, s, s2, true, s3);
    t := LeaveOne(p, fr, s3, cx.marks, vs1[..|vs|]);
    Chain(p, s, s3, true, t);
  }

  // ---- Conditionals ----

  /** Neither a block nor an `if` chain declares a local in the enclosing block. */
  lemma {:induction false} ChainLocals(e: Stmt, cx: Ctx)
    requires Formed(e, cx) && (e.Skip? || e.Blk? || e.If?)
    ensures After(e, cx).locals == cx.locals
    decreases e
  {
    if e.If? {
      ChainLocals(e.els, cx.(depth := After(e.thn, cx).depth));
    }
  }

  lemma {:induction false} SimIf(k: nat, fs: seq<Func>, ln: Link, p: Program, c: Expr, th: Stmt, el: Stmt, cx: Ctx, fr: Frame, st: State,
    vs: seq<Value>, r: Flow)
    returns (ok: bool, t: State)
    requires Linked(p, ln, fs) && Placed(p, ln, If(c, th, el), cx, fr, st, vs)
    requires r == Run(k, fs, If(c, th, el), vs) && !r.Fault?
    ensures Leads(p, st, ok, t)
    ensures ok ==> Ends(fr, cx, After(If(c, th, el), cx).locals, st.ip + |GenStmt(If(c, th, el), cx, ln, st.ip)|, r, t)
    decreases 2 * k, If(c, th, el), 2
  {
    hide Linked, InFrame, Has, Reach, Fails, Returned, LoopsOk, Inside, GenStmt, GenExpr, Eval, OneBranch, Branches, Ends, Pooled, StmtPooled;
    StmtCode(If(c, th, el), cx, ln, st.ip);
    PooledIf(c, th, el, p.consts);
    ChainLocals(If(c, th, el), cx);
    ChainLocals(th, cx);
    var cc := GenExpr(c, ln, st.ip);
    var ct := GenStmt(th, cx, ln, st.ip + |cc| + 2);
    var els := st.ip + |cc| + 2 + |ct|;
    var a := Eval(k, fs, c, vs).value;
    var skip := el.Skip?;
    var target := if skip then els else els + 2;
    if skip { SplitOneBranch(p, st.ip, cc, els, ct); }
    else {
      var ce := GenStmt(el, cx.(depth := After(th, cx).depth), ln, els + 2);
      SplitBranches(p, st.ip, cc, els + 2, ct, els + 2 + |ce|, ce);
    }
    ok, t := SimTest(k, fs, ln, p, c, cx, fr, st, vs, a, target);
    if ok {
      var s1 := t;
      if Truthy(a) {
        ok, t := SimStmt(k, fs, ln, p, th, cx, fr, s1, vs, r);
        Chain(p, st, s1, ok, t);
        if ok && !skip {
          var ce := GenStmt(el, cx.(depth := After(th, cx).depth), ln, els + 2);
          ok, t := SimJumpEnd(p, fr, st, t, cx, r, els, els + 2 + |ce|);
        }
      } else {
        ok, t := SimElse(k, fs, ln, p, el, cx, After(th, cx).depth, fr, st, s1, vs, r);
      }
    }
  }

  lemma PooledIf(c: Expr, th: Stmt, el: Stmt, consts: seq<int>)
    requires StmtPooled(If(c, th, el), consts)
    ensures Pooled(c, consts) && StmtPooled(th, consts) && StmtPooled(el, consts)
  {
    hide Pooled;
  }

  lemma SplitOneBranch(p: Program, ip: int, c: seq<int>, els: int, t: seq<int>)
    requires Has(p, ip, OneBranch(c, els, t))
    ensures Has(p, ip, c) && Has(p, ip + |c|, [M.OP_JZ, els]) && Has(p, ip + |c| + 2, t)
  {
    hide Has;
    HasSplit(p, ip, c + [M.OP_JZ, els], t);
    HasSplit(p, ip, c, [M.OP_JZ, els]);
  }

  /** A condition and the jump taken when it is zero. */
  lemma {:induction false} SimTest(k: nat, fs: seq<Func>, ln: Link, p: Program, c: Expr, cx: Ctx, fr: Frame, st: State,
                                   vs: seq<Value>, a: Value, target: int)
    returns (ok: bool, t: State)
    requires Linked(p, ln, fs) && InFrame(fr, st, cx.marks, |vs|, vs)
    requires Has(p, st.ip, GenExpr(c, ln, st.ip)) && Pooled(c, p.consts)
    requires Has(p, st.ip + |GenExpr(c, ln, st.ip)|, [M.OP_JZ, target])
    requires Eval(k, fs, c, vs) == Some(a)
    ensures Leads(p, st, ok, t)
    ensures ok ==> Arrived(fr, cx.marks, |vs|, vs, if Truthy(a) then st.ip + |GenExpr(c, ln, st.ip)| + 2 else target, t)
    decreases 2 * k, c, 2
  {
    hide Linked, InFrame, Has, Reach, Fails, GenExpr, Eval, Pooled;
    assert vs + [] == vs;
    ok, t := SimExpr(k, fs, ln, p, c, fr, st, cx.marks, vs, [], a);
    if ok {
      var s1 := t;
      ok, t := DoBranch(p, fr, s1, cx.marks, |vs|, vs + [a], target);
      Chain(p, st, s1, ok, t);
      assert (vs + [a])[..|vs + [a]| - 1] == vs;
    }
  }

  /** The jump over the rest of an `if` chain after a branch that ended normally. */
  lemma SimJumpEnd(p: Program, fr: Frame, s: State, s1: State, cx: Ctx, r: Flow, ip: int, end: int)
    returns (ok: bool, t: State)
    requires Reach(p, s, s1) && Ends(fr, cx, cx.locals, ip, r, s1)
    requires Has(p, ip, [M.OP_JMP, end])
    ensures Leads(p, s, ok, t)
    ensures ok ==> Ends(fr, cx, cx.locals, end, r, t)
  {
    hide InFrame, Has, Reach, Fails, Returned;
    if r.Norm? {
      ok, t := DoJump(p, fr, s1, cx.marks, |r.vs|, r.vs, end);
      Chain(p, s, s1, ok, t);
    } else {
      ok, t := true, s1;
    }
  }

  lemma {:induction false} SimElse(k: nat, fs: seq<Func>, ln: Link, p: Program, el: Stmt, cx: Ctx, depth: int, fr: Frame,
                                   st: State, s1: State, vs: seq<Value>, r: Flow)
    returns (ok: bool, t: State)
    requires Linked(p, ln, fs) && Reach(p, st, s1)
    requires |vs| == cx.locals && InFrame(fr, s1, cx.marks, |vs|, vs) && LoopsOk(cx) && Inside(cx)
    requires Formed(el, cx.(depth := depth)) && (el.Skip? || el.Blk? || el.If?) && StmtPooled(el, p.consts)
    requires el.Skip? || Has(p, s1.ip, GenStmt(el, cx.(depth := depth), ln, s1.ip))
    requires r == Run(k, fs, el, vs) && !r.Fault?
    ensures Leads(p, st, ok, t)
    ensures ok ==> Ends(fr, cx, cx.locals, s1.ip + if el.Skip? then 0 else |GenStmt(el, cx.(depth := depth), ln, s1.ip)|, r, t)
    decreases 2 * k, el, 4
  {
    hide Linked, InFrame, Has, Reach, Fails, Returned, Ends, After, StmtPooled, Formed;
    var cx' := cx.(depth := depth);
    if el.Skip? {
      ok, t := true, s1;
      SkipEnds(fr, cx, vs, s1);
    } else {
      assert LoopsOk(cx') && Inside(cx');
      hide Run, GenStmt, LoopsOk, Inside;
      ok, t := SimStmt(k, fs, ln, p, el, cx', fr, s1, vs, r);
      Chain(p, st, s1, ok, t);
      ChainLocals(el, cx');
      if ok {
        EndsSame(fr, cx', cx, cx.locals, s1.ip + |GenStmt(el, cx', ln, s1.ip)|, r, t);
      }
    }
  }

  lemma SkipEnds(fr: Frame, cx: Ctx, vs: seq<Value>, s: State)
    requires |vs| == cx.locals && InFrame(fr, s, cx.marks, |vs|, vs)
    ensures Ends(fr, cx, cx.locals, s.ip, Norm(vs), s)
  {
    hide InFrame;
  }

  // ---- Break and continue ----

  lemma SimUnwind(p: Program, ln: Link, cx: Ctx, fr: Frame, st: State, vs: seq<Value>, isBreak: bool)
    returns (ok: bool, t: State)
    requires |vs| == cx.locals && InFrame(fr, st, cx.marks, |vs|, vs) && LoopsOk(cx) && Aligned(cx)
    requires var l := cx.loops[|cx.loops| - 1];
      Has(p, st.ip, Unwind(cx, if isBreak then l.brk else l.cont))
    ensures Leads(p, st, ok, t)
    ensures ok ==> AtLoop(fr, cx, vs, isBreak, t)
  {
    hide InFrame, Has, Reach, Fails, Times;
    var l := cx.loops[|cx.loops| - 1];
    var target := if isBreak then l.brk else l.cont;
    var q := l.open;
    assert cx.marks[q] == l.locals;
    var cu := Times(M.OP_SCOPE_EXIT, |cx.marks| - q) + Times(M.OP_POP, |vs| - cx.marks[q]);
    HasSplit(p, st.ip, cu, [M.OP_JMP, target]);
    var s1 := DoUnwind(p, fr, st, cx.marks, vs, q);
    ok, t := DoJump(p, fr, s1, cx.marks[..q], l.locals, vs[..l.locals], target);
    Chain(p, st, s1, ok, t);
  }

  // ---- Loops ----

  /** Entering a loop whose body is a block. */
  lemma LoopEntry(cx: Ctx, brk: int, cont: int)
    requires LoopsOk(cx)
    ensures LoopsOk(InLoop(cx, brk, cont))
  {
  }

  lemma InLoopShape(cx: Ctx, brk: int, cont: int)
    ensures SameShape(InLoop(cx, 0, 0), InLoop(cx, brk, cont))
  {
  }

  /** A block never leaves more locals behind than it started with. */
  lemma BlkCuts(k: nat, fs: seq<Func>, b: Stmt, vs: seq<Value>)
    requires b.Blk?
    ensures var r := Run(k, fs, b, vs);
      r.Norm? || r.Broke? || r.Continued? ==> |r.vs| <= |vs|
  {
    assert Run(k, fs, b, vs) == CutFlow(Run(k, fs, b.body, vs), |vs|);
    hide Run;
  }

  /** What a loop body's end means for the loop: the locals are the loop's own again. */
  lemma BodyEnds(fr: Frame, cx: Ctx, brk: int, cont: int, end: int, r: Flow, t: State)
    requires Ends(fr, InLoop(cx, brk, cont), cx.locals, end, r, t)
    requires r.Broke? || r.Continued? ==> |r.vs| <= cx.locals
    ensures r.Norm? ==> |r.vs| == cx.locals && Arrived(fr, cx.marks, cx.locals, r.vs, end, t)
    ensures r.Broke? ==> |r.vs| == cx.locals && Arrived(fr, cx.marks, cx.locals, r.vs, brk, t)
    ensures r.Continued? ==> |r.vs| == cx.locals && Arrived(fr, cx.marks, cx.locals, r.vs, cont, t)
    ensures r.Return? ==> Returned(fr, t, r.v)
  {
    hide InFrame, Returned;
    if r.Broke? || r.Continued? {
      assert cx.marks[..|cx.marks|] == cx.marks && r.vs[..|r.vs|] == r.vs;
    }
  }

  lemma {:induction false} SimForever(k: nat, fs: seq<Func>, ln: Link, p: Program, b: Stmt, cx: Ctx, fr: Frame, st: State,
    vs: seq<Value>, r: Flow)
    returns (ok: bool, t: State)
    requires Linked(p, ln, fs) && Placed(p, ln, Forever(b), cx, fr, st, vs)
    requires r == Run(k, fs, Forever(b), vs) && !r.Fault?
    ensures Leads(p, st, ok, t)
    ensures ok ==> Ends(fr, cx, After(Forever(b), cx).locals, st.ip + |GenStmt(Forever(b), cx, ln, st.ip)|, r, t)
    decreases 2 * k, Forever(b), 2
  {
    hide Linked, InFrame, Has, Reach, Fails, Returned, LoopsOk, Inside, GenStmt, Endless, Ends, After, SameShape, Loop;
    StmtCode(Forever(b), cx, ln, st.ip);
    var brk := st.ip + |GenStmt(b, InLoop(cx, 0, 0), ln, st.ip)| + 2;
    InLoopShape(cx, brk, st.ip);
    SizeShape(b, InLoop(cx, 0, 0), InLoop(cx, brk, st.ip), ln, st.ip);
    FormedShape(b, InLoop(cx, 0, 0), InLoop(cx, brk, st.ip));
    LoopEntry(cx, brk, st.ip);
    ForeverLocals(b, cx);
    ok, t := SimLoop(k, fs, ln, p, b, cx, st.ip, brk, fr, st, vs, r);
  }

  lemma ForeverLocals(b: Stmt, cx: Ctx)
    ensures After(Forever(b), cx).locals == cx.locals
  {
  }

  lemma {:induction false} SimLoop(k: nat, fs: seq<Func>, ln: Link, p: Program, b: Stmt, cx: Ctx, base: int, brk: int,
                                   fr: Frame, st: State, vs: seq<Value>, r: Flow)
    returns (ok: bool, t: State)
    requires Linked(p, ln, fs) && |vs| == cx.locals && Arrived(fr, cx.marks, |vs|, vs, base, st)
    requires b.Blk? && Formed(b, InLoop(cx, brk, base)) && StmtPooled(b, p.consts) && LoopsOk(InLoop(cx, brk, base))
    requires Has(p, base, Endless(GenStmt(b, InLoop(cx, brk, base), ln, base), base))
    requires r == Loop(k, fs, b, vs) && !r.Fault?
    ensures Leads(p, st, ok, t)
    ensures ok ==> Ends(fr, cx, cx.locals, brk, r, t)
    decreases 2 * k, b, 4
  {
    var cl := InLoop(cx, brk, base);
    var r1 := Run(k, fs, b, vs);
    BlkCuts(k, fs, b, vs);
    hide Linked, InFrame, Has, Reach, Fails, Returned, LoopsOk, Inside, GenStmt, Run, Formed, StmtPooled, Loop, Ends, After;
    var cb := GenStmt(b, cl, ln, base);
    HasSplit(p, base, cb, [M.OP_JMP, base]);
    LoopStep(k, fs, b, vs, r);
    ok, t := SimStmt(k, fs, ln, p, b, cl, fr, st, vs, r1);
    if ok {
      var s1 := t;
      BlkLocals(b, cl);
      BodyEnds(fr, cx, brk, base, base + |cb|, r1, s1);
      if r1.Norm? || r1.Continued? {
        if r1.Norm? {
          ok, t := DoJump(p, fr, s1, cx.marks, cx.locals, r1.vs, base);
          Chain(p, st, s1, ok, t);
        }
        if ok {
          var s2 := t;
          ok, t := SimLoop(k - 1, fs, ln, p, b, cx, base, brk, fr, s2, r1.vs, r);
          Chain(p, st, s2, ok, t);
        }
      } else {
        LoopDone(fr, cx, brk, r1, r, s1);
      }
    }
  }

  lemma LoopDone(fr: Frame, cx: Ctx, brk: int, r1: Flow, r: Flow, t: State)
    requires r1.Broke? || r1.Return?
    requires r == if r1.Broke? then Norm(r1.vs) else r1
    requires r1.Broke? ==> |r1.vs| == cx.locals && Arrived(fr, cx.marks, cx.locals, r1.vs, brk, t)
    requires r1.Return? ==> Returned(fr, t, r1.v)
    ensures Ends(fr, cx, cx.locals, brk, r, t)
  {
    hide InFrame, Returned;
  }

  lemma BlkLocals(b: Stmt, cx: Ctx)
    requires b.Blk?
    ensures After(b, cx).locals == cx.locals
  {
  }

  // ---- for (x in e) ----

  /** Reading local `x` onto the stack while evaluating, after `s` led to `s1`. */
  lemma LoadAfter(p: Program, fr: Frame, s: State, s1: State, marks: seq<nat>, n: nat, xs: seq<Value>, x: nat)
    returns (ok: bool, t: State)
    requires Reach(p, s, s1) && InFrame(fr, s1, marks, n, xs) && x < |xs| && Has(p, s1.ip, [M.OP_LVAR, x])
    ensures Leads(p, s, ok, t)
    ensures ok ==> Arrived(fr, marks, n, xs + [xs[x]], s1.ip + 2, t)
  {
    hide InFrame, Has, Reach, Fails;
    ok, t := DoLoad(p, fr, s1, marks, n, xs, x);
    Chain(p, s, s1, ok, t);
  }

  lemma SplitTest(p: Program, ip: int, n: nat, x: nat, exit: int)
    requires n >= 2 && Has(p, ip, ForTest(n, x, exit))
    ensures Has(p, ip, [M.OP_LVAR, n - 1]) && Has(p, ip + 2, [M.OP_LVAR, n - 2]) && Has(p, ip + 4, [M.OP_ALEN])
    ensures Has(p, ip + 5, [M.OP_LT]) && Has(p, ip + 6, [M.OP_JZ, exit])
    ensures Has(p, ip + 8, [M.OP_LVAR, n - 2]) && Has(p, ip + 10, [M.OP_LVAR, n - 1])
    ensures Has(p, ip + 12, [M.OP_IT_DEF]) && Has(p, ip + 13, [M.OP_SVAR, x])
  {
    hide Has;
    var c := ForTest(n, x, exit);
    assert c == [M.OP_LVAR, n - 1, M.OP_LVAR, n - 2, M.OP_ALEN, M.OP_LT, M.OP_JZ, exit,
                 M.OP_LVAR, n - 2, M.OP_LVAR, n - 1, M.OP_IT_DEF, M.OP_SVAR, x];
    HasPart(p, ip, c, 0, [M.OP_LVAR, n - 1]);
    HasPart(p, ip, c, 2, [M.OP_LVAR, n - 2]);
    HasPart(p, ip, c, 4, [M.OP_ALEN]);
    HasPart(p, ip, c, 5, [M.OP_LT]);
    HasPart(p, ip, c, 6, [M.OP_JZ, exit]);
    HasPart(p, ip, c, 8, [M.OP_LVAR, n - 2]);
    HasPart(p, ip, c, 10, [M.OP_LVAR, n - 1]);
    HasPart(p, ip, c, 12, [M.OP_IT_DEF]);
    HasPart(p, ip, c, 13, [M.OP_SVAR, x]);
  }

  lemma HasPart(p: Program, ip: int, frag: seq<int>, i: nat, part: seq<int>)
    requires Has(p, ip, frag) && i + |part| <= |frag|
    requires forall j :: 0 <= j < |part| ==> part[j] == frag[i + j]
    ensures Has(p, ip + i, part)
  {
    forall j | 0 <= j < |part| ensures p.code[ip + i + j] == part[j] {
      assert p.code[ip + (i + j)] == frag[i + j];
    }
  }

  /** The loop test: the position against the length. */
  lemma SimForTest(p: Program, fr: Frame, st: State, marks: seq<nat>, vs: seq<Value>, x: nat, exit: int)
    returns (ok: bool, t: State)
    requires InFrame(fr, st, marks, |vs|, vs) && |vs| >= 2 && Has(p, st.ip, ForTest(|vs|, x, exit))
    requires IsArr(vs[|vs| - 2]) && IsNum(vs[|vs| - 1])
    ensures Leads(p, st, ok, t)
    ensures ok ==> Arrived(fr, marks, |vs|, vs, if vs[|vs| - 1].val < |vs[|vs| - 2].kids| then st.ip + 8 else exit, t)
  {
    hide InFrame, Has, Reach, Fails, ForTest;
    var n, a, i := |vs|, vs[|vs| - 2], vs[|vs| - 1];
    SplitTest(p, st.ip, n, x, exit);
    ok, t := DoLoad(p, fr, st, marks, n, vs, n - 1);
    if ok {
      ok, t := LoadAfter(p, fr, st, t, marks, n, vs + [i], n - 2);
      if ok {
        var s2 := t;
        ok, t := DoLength(p, fr, s2, marks, n, vs + [i] + [a]);
        Chain(p, st, s2, ok, t);
        assert (vs + [i] + [a])[..|vs| + 1] == vs + [i];
        if ok {
          ok, t := SimLess(p, fr, st, t, marks, vs, i.val, |a.kids|, exit);
        }
      }
    }
  }

  lemma SimLess(p: Program, fr: Frame, s: State, s3: State, marks: seq<nat>, vs: seq<Value>, i: int, len: int, exit: int)
    returns (ok: bool, t: State)
    requires Reach(p, s, s3) && InFrame(fr, s3, marks, |vs|, vs + [NumV(i)] + [NumV(len)])
    requires Has(p, s3.ip, [M.OP_LT]) && Has(p, s3.ip + 1, [M.OP_JZ, exit])
    ensures Leads(p, s, ok, t)
    ensures ok ==> Arrived(fr, marks, |vs|, vs, if i < len then s3.ip + 3 else exit, t)
  {
    hide InFrame, Has, Reach, Fails;
    var xs := vs + [NumV(i)] + [NumV(len)];
    var b := NumV(M.Bit(i < len));
    ok, t := DoBinary(p, fr, s3, marks, |vs|, xs, Lt, b);
    Chain(p, s, s3, ok, t);
    if ok {
      var s4 := t;
      assert xs[..|xs| - 2] == vs;
      ok, t := DoBranch(p, fr, s4, marks, |vs|, vs + [b], exit);
      Chain(p, s, s4, ok, t);
      assert (vs + [b])[..|vs + [b]| - 1] == vs;
    }
  }

  /** The element at the position goes to the loop variable. */
  lemma SimForElem(p: Program, fr: Frame, s: State, s1: State, marks: seq<nat>, vs: seq<Value>, x: nat)
    returns (ok: bool, t: State)
    requires Reach(p, s, s1) && InFrame(fr, s1, marks, |vs|, vs) && |vs| >= 2 && x < |vs|
    requires Has(p, s1.ip, [M.OP_LVAR, |vs| - 2]) && Has(p, s1.ip + 2, [M.OP_LVAR, |vs| - 1])
    requires Has(p, s1.ip + 4, [M.OP_IT_DEF]) && Has(p, s1.ip + 5, [M.OP_SVAR, x])
    requires IsArr(vs[|vs| - 2]) && IsNum(vs[|vs| - 1]) && 0 <= vs[|vs| - 1].val < |vs[|vs| - 2].kids|
    ensures Leads(p, s, ok, t)
    ensures ok ==> Arrived(fr, marks, |vs|, vs[x := vs[|vs| - 2].kids[vs[|vs| - 1].val]], s1.ip + 7, t)
  {
    hide InFrame, Has, Reach, Fails;
    var n, a, i := |vs|, vs[|vs| - 2], vs[|vs| - 1];
    var e := a.kids[i.val];
    ok, t := LoadAfter(p, fr, s, s1, marks, n, vs, n - 2);
    if ok {
      ok, t := LoadAfter(p, fr, s, t, marks, n, vs + [a], n - 1);
      if ok {
        var s3 := t;
        assert (vs + [a])[n - 1] == i;
        var xs := vs + [a] + [i];
        assert xs[|xs| - 2] == a && xs[|xs| - 1] == i;
        ok, t := DoIterate(p, fr, s3, marks, n, xs);
        Chain(p, s, s3, ok, t);
        if ok {
          var s4 := t;
          assert xs[..|xs| - 2] + [e] == vs + [e];
          ok, t := DoStore(p, fr, s4, marks, n, vs + [e], x);
          Chain(p, s, s4, ok, t);
          assert (vs + [e])[x := e][..n] == vs[x := e];
        }
      }
    }
  }

  lemma SplitNext(p: Program, ip: int, n: nat, loop: int, ln: Link)
    requires n >= 2 && Has(p, ip, ForNext(n, loop, ln))
    ensures Has(p, ip, [M.OP_LVAR, n - 1]) && Has(p, ip + 2, PushConst(1, ln)) && Has(p, ip + 4, [M.OP_ADD])
    ensures Has(p, ip + 5, [M.OP_SVAR, n - 1]) && Has(p, ip + 7, [M.OP_JMP, loop])
  {
    hide ConstIndex, Has;
    var c := ForNext(n, loop, ln);
    var k := PushConst(1, ln)[1];
    assert c == [M.OP_LVAR, n - 1, M.OP_PSH_NUM, k, M.OP_ADD, M.OP_SVAR, n - 1, M.OP_JMP, loop];
    HasPart(p, ip, c, 0, [M.OP_LVAR, n - 1]);
    HasPart(p, ip, c, 2, PushConst(1, ln));
    HasPart(p, ip, c, 4, [M.OP_ADD]);
    HasPart(p, ip, c, 5, [M.OP_SVAR, n - 1]);
    HasPart(p, ip, c, 7, [M.OP_JMP, loop]);
  }

  /** The position advances and control returns to the loop test. */
  lemma SimForNext(p: Program, ln: Link, fr: Frame, s: State, s1: State, marks: seq<nat>, vs: seq<Value>, loop: int)
    returns (ok: bool, t: State)
    requires Reach(p, s, s1) && InFrame(fr, s1, marks, |vs|, vs) && |vs| >= 2 && IsNum(vs[|vs| - 1])
    requires M.Exact(vs[|vs| - 1].val) && M.Exact(vs[|vs| - 1].val + 1)
    requires ln.consts == p.consts && 1 in p.consts && Has(p, s1.ip, ForNext(|vs|, loop, ln))
    ensures Leads(p, s, ok, t)
    ensures ok ==> Arrived(fr, marks, |vs|, vs[|vs| - 1 := NumV(vs[|vs| - 1].val + 1)], loop, t)
  {
    hide InFrame, Has, Reach, Fails, ForNext, PushConst;
    var n, i := |vs|, vs[|vs| - 1];
    SplitNext(p, s1.ip, n, loop, ln);
    ok, t := LoadAfter(p, fr, s, s1, marks, n, vs, n - 1);
    if ok {
      var s2 := t;
      ok, t := DoConst(p, fr, s2, marks, n, vs + [i], 1, ln);
      Chain(p, s, s2, ok, t);
      if ok {
        ok, t := SimBump(p, fr, s, t, marks, vs, loop);
      }
    }
  }

  lemma SimBump(p: Program, fr: Frame, s: State, s3: State, marks: seq<nat>, vs: seq<Value>, loop: int)
    returns (ok: bool, t: State)
    requires |vs| >= 2 && IsNum(vs[|vs| - 1]) && M.Exact(vs[|vs| - 1].val) && M.Exact(vs[|vs| - 1].val + 1)
    requires Reach(p, s, s3) && InFrame(fr, s3, marks, |vs|, vs + [vs[|vs| - 1]] + [NumV(1)])
    requires Has(p, s3.ip, [M.OP_ADD]) && Has(p, s3.ip + 1, [M.OP_SVAR, |vs| - 1]) && Has(p, s3.ip + 3, [M.OP_JMP, loop])
    ensures Leads(p, s, ok, t)
    ensures ok ==> Arrived(fr, marks, |vs|, vs[|vs| - 1 := NumV(vs[|vs| - 1].val + 1)], loop, t)
  {
    hide InFrame, Has, Reach, Fails;
    var n, i := |vs|, vs[|vs| - 1];
    var j := NumV(i.val + 1);
    var xs := vs + [i] + [NumV(1)];
    ok, t := DoBinary(p, fr, s3, marks, n, xs, Add, j);
    Chain(p, s, s3, ok, t);
    if ok {
      var s4 := t;
      assert xs[..|xs| - 2] == vs;
      ok, t := DoStore(p, fr, s4, marks, n, vs + [j], n - 1);
      Chain(p, s, s4, ok, t);
      if ok {
        var s5 := t;
        assert (vs + [j])[n - 1 := j][..n] == vs[n - 1 := j];
        ok, t := DoJump(p, fr, s5, marks, n, vs[n - 1 := j], loop);
        Chain(p, s, s5, ok, t);
      }
    }
  }

  /** The code of a `for` loop from its test on. */
  ghost predicate ForPlaced(p: Program, ln: Link, x: nat, b: Stmt, fx: Ctx, loop: int, brk: int) {
    var start := loop + FOR_TEST_SIZE;
    var cont := brk - FOR_NEXT_SIZE;
    && fx.locals >= 2 && x < fx.locals
    && b.Blk? && Formed(b, InLoop(fx, brk, cont)) && StmtPooled(b, p.consts) && LoopsOk(InLoop(fx, brk, cont))
    && ln.consts == p.consts && 1 in p.consts
    && Has(p, loop, ForTest(fx.locals, x, brk))
    && Has(p, start, GenStmt(b, InLoop(fx, brk, cont), ln, start))
    && start + |GenStmt(b, InLoop(fx, brk, cont), ln, start)| == cont
    && Has(p, cont, ForNext(fx.locals, loop, ln))
  }

  lemma {:induction false} SimIterate(k: nat, fs: seq<Func>, ln: Link, p: Program, x: nat, b: Stmt, fx: Ctx, loop: int, brk: int,
                                      fr: Frame, st: State, vs: seq<Value>, r: Flow)
    returns (ok: bool, t: State)
    requires Linked(p, ln, fs) && ForPlaced(p, ln, x, b, fx, loop, brk)
    requires |vs| == fx.locals && Arrived(fr, fx.marks, |vs|, vs, loop, st)
    requires r == Iterate(k, fs, x, b, vs) && !r.Fault?
    ensures Leads(p, st, ok, t)
    ensures ok ==> Ends(fr, fx, fx.locals, brk, r, t)
    decreases 2 * k, b, 6
  {
    hide Linked, InFrame, Has, Reach, Fails, Returned, LoopsOk, GenStmt, Run, Formed, StmtPooled, ForTest, ForNext, Advance;
    var a, i := vs[|vs| - 2], vs[|vs| - 1];
    ok, t := SimForTest(p, fr, st, fx.marks, vs, x, brk);
    if i.val < |a.kids| {
      IterateStep(k, fs, x, b, vs, r);
      SplitTest(p, loop, |vs|, x, brk);
      if ok {
        ok, t := SimForElem(p, fr, st, t, fx.marks, vs, x);
      }
      if ok {
        ok, t := SimForBody(k, fs, ln, p, x, b, fx, loop, brk, fr, st, t, vs[x := a.kids[i.val]], r);
      }
    }
  }

  /** What one iteration contributes: the loop ends with the body, or goes on one position further. */
  ghost predicate Continues(k: nat, fs: seq<Func>, x: nat, b: Stmt, r1: Flow, r: Flow) {
    match r1
    case Broke(vs) => r == Norm(vs)
    case Return(_) => r == r1
    case Norm(vs) => k > 0 && r == Advance(k - 1, fs, x, b, vs)
    case Continued(vs) => k > 0 && r == Advance(k - 1, fs, x, b, vs)
    case Fault => false
  }

  lemma IterateStep(k: nat, fs: seq<Func>, x: nat, b: Stmt, vs: seq<Value>, r: Flow)
    requires r == Iterate(k, fs, x, b, vs) && !r.Fault?
    ensures |vs| >= 2 && x < |vs| && IsArr(vs[|vs| - 2]) && IsNum(vs[|vs| - 1])
    ensures var a, i := vs[|vs| - 2], vs[|vs| - 1];
      if i.val >= |a.kids| then r == Norm(vs)
      else
        && 0 <= i.val
        && Continues(k, fs, x, b, Run(k, fs, b, vs[x := a.kids[i.val]]), r)
  {
    hide Run, Advance;
  }

  lemma {:induction false} SimForBody(k: nat, fs: seq<Func>, ln: Link, p: Program, x: nat, b: Stmt, fx: Ctx, loop: int, brk: int,
                                      fr: Frame, st: State, s2: State, vs: seq<Value>, r: Flow)
    returns (ok: bool, t: State)
    requires Linked(p, ln, fs) && ForPlaced(p, ln, x, b, fx, loop, brk) && Reach(p, st, s2)
    requires |vs| == fx.locals && Arrived(fr, fx.marks, |vs|, vs, loop + FOR_TEST_SIZE, s2)
    requires Continues(k, fs, x, b, Run(k, fs, b, vs), r) && !r.Fault?
    ensures Leads(p, st, ok, t)
    ensures ok ==> Ends(fr, fx, fx.locals, brk, r, t)
    decreases 2 * k, b, 5
  {
    hide Linked, InFrame, Has, Reach, Fails, Returned, Run, Formed, StmtPooled, Advance, Ends, Iterate, ForPlaced;
    var r1 := Run(k, fs, b, vs);
    ok, t := SimForOnce(k, fs, ln, p, x, b, fx, loop, brk, fr, st, s2, vs, r1);
    if ok {
      if r1.Norm? || r1.Continued? {
        AdvanceStep(k - 1, fs, x, b, r1.vs, r);
        ok, t := SimForRound(p, ln, x, b, fx, loop, brk, fr, st, t, r1.vs);
        if ok {
          var s3 := t;
          ok, t := SimIterate(k - 1, fs, ln, p, x, b, fx, loop, brk, fr, s3, r1.vs[|r1.vs| - 1 := NumV(r1.vs[|r1.vs| - 1].val + 1)], r);
          Chain(p, st, s3, ok, t);
        }
      } else {
        LoopDone(fr, fx, brk, r1, r, t);
      }
    }
  }

  /** The body of a loop over an array, once. */
  lemma {:induction false} SimForOnce(k: nat, fs: seq<Func>, ln: Link, p: Program, x: nat, b: Stmt, fx: Ctx, loop: int, brk: int,
                                      fr: Frame, st: State, s2: State, vs: seq<Value>, r1: Flow)
    returns (ok: bool, t: State)
    requires Linked(p, ln, fs) && ForPlaced(p, ln, x, b, fx, loop, brk) && Reach(p, st, s2)
    requires |vs| == fx.locals && Arrived(fr, fx.marks, |vs|, vs, loop + FOR_TEST_SIZE, s2)
    requires r1 == Run(k, fs, b, vs) && !r1.Fault?
    ensures Leads(p, st, ok, t)
    ensures ok && (r1.Norm? || r1.Continued?) ==>
      |r1.vs| == fx.locals && Arrived(fr, fx.marks, fx.locals, r1.vs, brk - FOR_NEXT_SIZE, t)
    ensures ok && r1.Broke? ==> |r1.vs| == fx.locals && Arrived(fr, fx.marks, fx.locals, r1.vs, brk, t)
    ensures ok && r1.Return? ==> Returned(fr, t, r1.v)
    decreases 2 * k, b, 4
  {
    hide Linked, InFrame, Has, Reach, Fails, Returned, LoopsOk, GenStmt, Run, Formed, StmtPooled, ForTest, ForNext, Ends, After;
    BlkCuts(k, fs, b, vs);
    var cont := brk - FOR_NEXT_SIZE;
    var cl := InLoop(fx, brk, cont);
    ok, t := SimStmt(k, fs, ln, p, b, cl, fr, s2, vs, r1);
    Chain(p, st, s2, ok, t);
    if ok {
      BlkLocals(b, cl);
      BodyEnds(fr, fx, brk, cont, cont, r1, t);
    }
  }

  /** The step to the next element. */
  lemma SimForRound(p: Program, ln: Link, x: nat, b: Stmt, fx: Ctx, loop: int, brk: int, fr: Frame, st: State, s1: State, vs: seq<Value>)
    returns (ok: bool, t: State)
    requires ForPlaced(p, ln, x, b, fx, loop, brk) && Reach(p, st, s1)
    requires |vs| == fx.locals && Arrived(fr, fx.marks, |vs|, vs, brk - FOR_NEXT_SIZE, s1) && |vs| >= 2 && IsNum(vs[|vs| - 1])
    requires M.Exact(vs[|vs| - 1].val) && M.Exact(vs[|vs| - 1].val + 1)
    ensures Leads(p, st, ok, t)
    ensures ok ==> Arrived(fr, fx.marks, |vs|, vs[|vs| - 1 := NumV(vs[|vs| - 1].val + 1)], loop, t)
  {
    hide InFrame, Has, Reach, Fails, LoopsOk, GenStmt, Formed, StmtPooled, ForTest, ForNext;
    ok, t := SimForNext(p, ln, fr, st, s1, fx.marks, vs, loop);
  }

  lemma AdvanceStep(k: nat, fs: seq<Func>, x: nat, b: Stmt, vs: seq<Value>, r: Flow)
    requires r == Advance(k, fs, x, b, vs) && !r.Fault?
    ensures |vs| >= 2 && IsNum(vs[|vs| - 1]) && M.Exact(vs[|vs| - 1].val) && M.Exact(vs[|vs| - 1].val + 1)
    ensures r == Iterate(k, fs, x, b, vs[|vs| - 1 := NumV(vs[|vs| - 1].val + 1)])
  {
    hide Iterate;
  }

  /** A loop over an array ends normally or returns. */
  lemma {:induction false} IterateKind(k: nat, fs: seq<Func>, x: nat, b: Stmt, vs: seq<Value>)
    ensures var r := Iterate(k, fs, x, b, vs); r.Norm? || r.Return? || r.Fault?
    decreases k
  {
    hide Run;
    if |vs| >= 2 && x < |vs| {
      var a, i := vs[|vs| - 2], vs[|vs| - 1];
      if IsArr(a) && IsNum(i) && 0 <= i.val < |a.kids| {
        var r1 := Run(k, fs, b, vs[x := a.kids[i.val]]);
        if k > 0 && (r1.Norm? || r1.Continued?) && |r1.vs| >= 2 && IsNum(r1.vs[|r1.vs| - 1]) {
          IterateKind(k - 1, fs, x, b, r1.vs[|r1.vs| - 1 := NumV(r1.vs[|r1.vs| - 1].val + 1)]);
        }
      }
    }
  }

  lemma SplitForLoop(p: Program, ip: int, head: seq<int>, test: seq<int>, body: seq<int>, next: seq<int>, pops: nat)
    requires Has(p, ip, ForLoop(head, test, body, next, pops))
    ensures Has(p, ip, head) && Has(p, ip + |head|, test) && Has(p, ip + |head| + |test|, body)
    ensures Has(p, ip + |head| + |test| + |body|, next)
    ensures var brk := ip + |head| + |test| + |body| + |next|;
      Has(p, brk, Times(M.OP_POP, pops)) && Has(p, brk + pops, [M.OP_SCOPE_EXIT])
  {
    hide Has;
    HasSplit(p, ip, head + test + body + next + Times(M.OP_POP, pops), [M.OP_SCOPE_EXIT]);
    HasSplit(p, ip, head + test + body + next, Times(M.OP_POP, pops));
    HasSplit(p, ip, head + test + body, next);
    HasSplit(p, ip, head + test, body);
    HasSplit(p, ip, head, test);
  }

  /** The locals of the loop: the loop variable if it is new, the array, the position. */
  function ForLocals(reuse: Option<nat>, vs: seq<Value>, a: Value): seq<Value> {
    (if reuse.None? then vs + [NumV(0)] else vs) + [a, NumV(0)]
  }

  lemma ForInSteps(k: nat, fs: seq<Func>, reuse: Option<nat>, e: Expr, b: Stmt, cx: Ctx, vs: seq<Value>, r: Flow)
    requires r == Run(k, fs, ForIn(reuse, e, b), vs) && !r.Fault? && |vs| == cx.locals
    ensures var a := Eval(k, fs, e, if reuse.None? then vs + [NumV(0)] else vs);
      && a.Some?
      && var r0 := Iterate(k, fs, LoopVar(reuse, cx), b, ForLocals(reuse, vs, a.value));
        r == CutFlow(r0, |vs|) && !r0.Fault?
  {
    hide Iterate, Eval;
  }

  /** Up to the loop test: the scope, the loop variable, the array and the position. */
  lemma {:induction false} SimForHead(k: nat, fs: seq<Func>, ln: Link, p: Program, reuse: Option<nat>, e: Expr, cx: Ctx, fr: Frame,
                                      st: State, vs: seq<Value>, a: Value)
    returns (ok: bool, t: State)
    requires Linked(p, ln, fs) && |vs| == cx.locals && InFrame(fr, st, cx.marks, |vs|, vs)
    requires Has(p, st.ip, ForHead(reuse, e, ln, st.ip)) && Pooled(e, p.consts)
    requires Eval(k, fs, e, if reuse.None? then vs + [NumV(0)] else vs) == Some(a)
    ensures Leads(p, st, ok, t)
    ensures ok ==> Arrived(fr, cx.marks + [|vs|], |ForLocals(reuse, vs, a)|, ForLocals(reuse, vs, a),
                           st.ip + |ForHead(reuse, e, ln, st.ip)|, t)
    decreases 2 * k, e, 3
  {
    hide Linked, InFrame, Has, Reach, Fails, GenExpr, Eval, Pooled, PushConst;
    LinkedConsts(p, ln, fs);
    var z := if reuse.None? then PushConst(0, ln) else [];
    var marks := cx.marks + [|vs|];
    var ce := GenExpr(e, ln, st.ip + 1 + |z|);
    HasSplit(p, st.ip, [M.OP_SCOPE_ENTER] + z + ce, PushConst(0, ln));
    HasSplit(p, st.ip, [M.OP_SCOPE_ENTER] + z, ce);
    HasSplit(p, st.ip, [M.OP_SCOPE_ENTER], z);
    ok, t := DoEnter(p, fr, st, cx.marks, vs);
    if ok && reuse.None? {
      ok, t := SimNewLocal(p, ln, fr, st, t, marks, vs);
    }
    if ok {
      var vs1 := if reuse.None? then vs + [NumV(0)] else vs;
      assert vs1 + [] == vs1;
      var s2 := t;
      ok, t := SimExpr(k, fs, ln, p, e, fr, s2, marks, vs1, [], a);
      Chain(p, st, s2, ok, t);
      if ok {
        InFrameMarks(fr, t, marks, |vs1|, vs1 + [a]);
        Recount(fr, t, marks, |vs1|, |vs1| + 1, vs1 + [a]);
        ok, t := SimNewLocal(p, ln, fr, st, t, marks, vs1 + [a]);
        assert vs1 + [a] + [NumV(0)] == vs1 + [a, NumV(0)];
      }
    }
  }

  /** A pushed 0 becomes a local. */
  lemma SimNewLocal(p: Program, ln: Link, fr: Frame, s: State, s1: State, marks: seq<nat>, vs: seq<Value>)
    returns (ok: bool, t: State)
    requires Reach(p, s, s1) && InFrame(fr, s1, marks, |vs|, vs)
    requires ln.consts == p.consts && 0 in p.consts && Has(p, s1.ip, PushConst(0, ln))
    ensures Leads(p, s, ok, t)
    ensures ok ==> Arrived(fr, marks, |vs| + 1, vs + [NumV(0)], s1.ip + 2, t)
  {
    hide InFrame, Has, Reach, Fails, PushConst;
    ok, t := DoConst(p, fr, s1, marks, |vs|, vs, 0, ln);
    Chain(p, s, s1, ok, t);
    if ok {
      InFrameMarks(fr, t, marks, |vs|, vs + [NumV(0)]);
      Recount(fr, t, marks, |vs|, |vs| + 1, vs + [NumV(0)]);
    }
  }

  lemma {:induction false} SimForIn(k: nat, fs: seq<Func>, ln: Link, p: Program, reuse: Option<nat>, e: Expr, b: Stmt, cx: Ctx, fr: Frame, st: State,
    vs: seq<Value>, r: Flow)
    returns (ok: bool, t: State)
    requires Linked(p, ln, fs) && Placed(p, ln, ForIn(reuse, e, b), cx, fr, st, vs)
    requires r == Run(k, fs, ForIn(reuse, e, b), vs) && !r.Fault?
    ensures Leads(p, st, ok, t)
    ensures ok ==> Ends(fr, cx, After(ForIn(reuse, e, b), cx).locals, st.ip + |GenStmt(ForIn(reuse, e, b), cx, ln, st.ip)|, r, t)
    decreases 2 * k, ForIn(reuse, e, b), 2
  {
    hide Linked, InFrame, Has, Reach, Fails, Returned, LoopsOk, Inside, GenStmt, ForLoop, ForHead, ForTest, ForNext, Ends, Eval, Iterate, Pooled, StmtPooled;
    StmtCode(ForIn(reuse, e, b), cx, ln, st.ip);
    LinkedConsts(p, ln, fs);
    ForInSteps(k, fs, reuse, e, b, cx, vs, r);
    ForInPlaced(p, ln, reuse, e, b, cx, st.ip);
    var fx, x, loop := ForCtx(cx, reuse), LoopVar(reuse, cx), st.ip + |ForHead(reuse, e, ln, st.ip)|;
    var brk := ForBreak(reuse, e, b, cx, ln, st.ip);
    var a := Eval(k, fs, e, if reuse.None? then vs + [NumV(0)] else vs).value;
    var vs2 := ForLocals(reuse, vs, a);
    ok, t := SimForHead(k, fs, ln, p, reuse, e, cx, fr, st, vs, a);
    if ok {
      var s1 := t;
      var r0 := Iterate(k, fs, x, b, vs2);
      IterateKind(k, fs, x, b, vs2);
      ok, t := SimIterate(k, fs, ln, p, x, b, fx, loop, brk, fr, s1, vs2, r0);
      Chain(p, st, s1, ok, t);
      if ok {
        t := SimForEnd(p, fr, st, t, cx, fx, vs, r0, brk);
      }
    }
  }

  function ForBreak(reuse: Option<nat>, e: Expr, b: Stmt, cx: Ctx, ln: Link, base: int): int {
    var start := base + |ForHead(reuse, e, ln, base)| + FOR_TEST_SIZE;
    start + |GenStmt(b, InLoop(ForCtx(cx, reuse), 0, 0), ln, start)| + FOR_NEXT_SIZE
  }

  /** The pieces of the loop sit where SimIterate expects them. */
  lemma ForInPlaced(p: Program, ln: Link, reuse: Option<nat>, e: Expr, b: Stmt, cx: Ctx, base: int)
    requires Has(p, base, GenForIn(reuse, e, b, cx, ln, base)) && ln.consts == p.consts
    requires Formed(ForIn(reuse, e, b), cx) && StmtPooled(ForIn(reuse, e, b), p.consts) && LoopsOk(cx)
    ensures var fx, loop, brk := ForCtx(cx, reuse), base + |ForHead(reuse, e, ln, base)|, ForBreak(reuse, e, b, cx, ln, base);
      && Has(p, base, ForHead(reuse, e, ln, base)) && Pooled(e, p.consts)
      && ForPlaced(p, ln, LoopVar(reuse, cx), b, fx, loop, brk)
      && Has(p, brk, Times(M.OP_POP, fx.locals - cx.locals)) && Has(p, brk + (fx.locals - cx.locals), [M.OP_SCOPE_EXIT])
      && |GenForIn(reuse, e, b, cx, ln, base)| == brk - base + (fx.locals - cx.locals) + 1
  {
    hide Has, GenStmt, ForLoop, ForHead, ForTest, ForNext, Pooled, Times;
    var fx, loop := ForCtx(cx, reuse), base + |ForHead(reuse, e, ln, base)|;
    var start, brk := loop + FOR_TEST_SIZE, ForBreak(reuse, e, b, cx, ln, base);
    var cont := brk - FOR_NEXT_SIZE;
    SplitForLoop(p, base, ForHead(reuse, e, ln, base), ForTest(fx.locals, LoopVar(reuse, cx), brk),
                 GenStmt(b, InLoop(fx, brk, cont), ln, start), ForNext(fx.locals, loop, ln), fx.locals - cx.locals);
    InLoopShape(fx, brk, cont);
    SizeShape(b, InLoop(fx, 0, 0), InLoop(fx, brk, cont), ln, start);
    FormedShape(b, InLoop(fx, 0, 0), InLoop(fx, brk, cont));
    LoopEntry(fx, brk, cont) by { assert LoopsOk(fx); }
  }

  lemma SimForEnd(p: Program, fr: Frame, s: State, s2: State, cx: Ctx, fx: Ctx, vs: seq<Value>, r0: Flow, brk: int)
    returns (t: State)
    requires Reach(p, s, s2) && |vs| == cx.locals && (r0.Norm? || r0.Return?)
    requires fx.loops == cx.loops && fx.marks == Enter(cx).marks && cx.locals <= fx.locals
    requires Ends(fr, fx, fx.locals, brk, r0, s2)
    requires Has(p, brk, Times(M.OP_POP, fx.locals - cx.locals)) && Has(p, brk + (fx.locals - cx.locals), [M.OP_SCOPE_EXIT])
    ensures Reach(p, s, t) && Ends(fr, cx, cx.locals, brk + (fx.locals - cx.locals) + 1, CutFlow(r0, |vs|), t)
  {
    hide InFrame, Has, Reach, Returned, Times;
    EndsSame(fr, fx, Enter(cx), fx.locals, brk, r0, s2);
    if r0.Norm? {
      t := SimBlkEnd(p, fr, s, s2, cx, vs, r0.vs, brk, fx.locals - cx.locals);
    } else {
      t := s2;
    }
  }

  // ---- Condition-form for ----

  /** The code of a condition-form `for` after its outer scope is open. */
  ghost predicate CondPlaced(p: Program, ln: Link, c: Expr, b: Stmt, cx: Ctx, loop: int, cont: int) {
    var cc := GenExpr(c, ln, loop + 1);
    var start := loop + 1 + |cc| + 2;
    var ccx := CondCtx(cx, cont + 3, cont);
    var pops := After(b, ccx).locals - cx.locals;
    && Formed(b, ccx) && StmtPooled(b, p.consts) && Pooled(c, p.consts) && LoopsOk(ccx) && Inside(ccx)
    && Has(p, loop, [M.OP_SCOPE_ENTER]) && Has(p, loop + 1, cc) && Has(p, loop + 1 + |cc|, [M.OP_JZ, cont + 2])
    && Has(p, start, GenStmt(b, ccx, ln, start))
    && start + |GenStmt(b, ccx, ln, start)| + pops + 1 == cont
    && Has(p, cont - 1 - pops, Times(M.OP_POP, pops)) && Has(p, cont - 1, [M.OP_SCOPE_EXIT])
    && Has(p, cont, [M.OP_JMP, loop]) && Has(p, cont + 2, [M.OP_SCOPE_EXIT])
  }

  lemma SplitCondLoop(p: Program, ip: int, c: seq<int>, exit: int, body: seq<int>, pops: nat, loop: int)
    requires Has(p, ip, CondLoop(c, exit, body, pops, loop))
    ensures Has(p, ip, [M.OP_SCOPE_ENTER]) && Has(p, ip + 1, [M.OP_SCOPE_ENTER]) && Has(p, ip + 2, c)
    ensures Has(p, ip + 2 + |c|, [M.OP_JZ, exit]) && Has(p, ip + 2 + |c| + 2, body)
    ensures var q := ip + 2 + |c| + 2 + |body|;
      && Has(p, q, Times(M.OP_POP, pops)) && Has(p, q + pops, [M.OP_SCOPE_EXIT])
      && Has(p, q + pops + 1, [M.OP_JMP, loop]) && Has(p, q + pops + 3, [M.OP_SCOPE_EXIT]) && Has(p, q + pops + 4, [M.OP_SCOPE_EXIT])
  {
    hide Has;
    var x1 := [M.OP_SCOPE_ENTER] + [M.OP_SCOPE_ENTER];
    var x2 := x1 + c;
    var x3 := x2 + [M.OP_JZ, exit];
    var x4 := x3 + body;
    var x5 := x4 + Times(M.OP_POP, pops);
    var x6 := x5 + [M.OP_SCOPE_EXIT];
    var x7 := x6 + [M.OP_JMP, loop];
    HasSplit(p, ip, x7 + [M.OP_SCOPE_EXIT], [M.OP_SCOPE_EXIT]);
    HasSplit(p, ip, x7, [M.OP_SCOPE_EXIT]);
    HasSplit(p, ip, x6, [M.OP_JMP, loop]);
    HasSplit(p, ip, x5, [M.OP_SCOPE_EXIT]);
    HasSplit(p, ip, x4, Times(M.OP_POP, pops));
    HasSplit(p, ip, x3, body);
    HasSplit(p, ip, x2, [M.OP_JZ, exit]);
    HasSplit(p, ip, x1, c);
    HasSplit(p, ip, [M.OP_SCOPE_ENTER], [M.OP_SCOPE_ENTER]);
  }

  function CondCont(c: Expr, b: Stmt, cx: Ctx, ln: Link, base: int): int {
    var start := base + 2 + |GenExpr(c, ln, base + 2)| + 2;
    start + |GenStmt(b, CondCtx(cx, 0, 0), ln, start)| + (After(b, CondCtx(cx, 0, 0)).locals - cx.locals) + 1
  }

  lemma CondLoops(cx: Ctx, brk: int, cont: int)
    requires LoopsOk(cx)
    ensures LoopsOk(CondCtx(cx, brk, cont)) && Inside(CondCtx(cx, brk, cont))
    ensures SameShape(CondCtx(cx, 0, 0), CondCtx(cx, brk, cont))
  {
    var c1 := InLoop(Enter(cx), brk, cont);
    assert LoopsOk(c1);
    EnterLoops(c1);
  }

  lemma ForCondPlaced(p: Program, ln: Link, c: Expr, b: Stmt, cx: Ctx, base: int)
    requires Has(p, base, GenForCond(c, b, cx, ln, base))
    requires Formed(ForCond(c, b), cx) && StmtPooled(ForCond(c, b), p.consts) && LoopsOk(cx)
    ensures var cont := CondCont(c, b, cx, ln, base);
      && Has(p, base, [M.OP_SCOPE_ENTER]) && CondPlaced(p, ln, c, b, cx, base + 1, cont)
      && Has(p, cont + 3, [M.OP_SCOPE_EXIT]) && base + |GenForCond(c, b, cx, ln, base)| == cont + 4
  {
    hide Has, GenStmt, GenExpr, CondLoop, Pooled, Times, LoopsOk, Inside, SameShape;
    var cc := GenExpr(c, ln, base + 2);
    var start, cont := base + 2 + |cc| + 2, CondCont(c, b, cx, ln, base);
    var ccx := CondCtx(cx, cont + 3, cont);
    var pops := After(b, CondCtx(cx, 0, 0)).locals - cx.locals;
    CondLoops(cx, cont + 3, cont);
    SizeShape(b, CondCtx(cx, 0, 0), ccx, ln, start);
    FormedShape(b, CondCtx(cx, 0, 0), ccx);
    AfterShape(b, CondCtx(cx, 0, 0), ccx);
    assert After(b, ccx).locals == After(b, CondCtx(cx, 0, 0)).locals by { ShapeLocals(After(b, CondCtx(cx, 0, 0)), After(b, ccx)); }
    SplitCondLoop(p, base, cc, cont + 2, GenStmt(b, ccx, ln, start), pops, base + 1);
  }

  lemma ShapeLocals(cx: Ctx, cx': Ctx)
    requires SameShape(cx, cx')
    ensures cx.locals == cx'.locals
  {
  }

  lemma {:induction false} SimForCond(k: nat, fs: seq<Func>, ln: Link, p: Program, c: Expr, b: Stmt, cx: Ctx, fr: Frame, st: State,
    vs: seq<Value>, r: Flow)
    returns (ok: bool, t: State)
    requires Linked(p, ln, fs) && Placed(p, ln, ForCond(c, b), cx, fr, st, vs)
    requires r == Run(k, fs, ForCond(c, b), vs) && !r.Fault?
    ensures Leads(p, st, ok, t)
    ensures ok ==> Ends(fr, cx, After(ForCond(c, b), cx).locals, st.ip + |GenStmt(ForCond(c, b), cx, ln, st.ip)|, r, t)
    decreases 2 * k, ForCond(c, b), 2
  {
    hide Linked, InFrame, Has, Reach, Fails, Returned, LoopsOk, Inside, GenStmt, GenExpr, CondPlaced, CondCont, CondLoop, Ends, While, Pooled;
    StmtCode(ForCond(c, b), cx, ln, st.ip);
    ForCondPlaced(p, ln, c, b, cx, st.ip);
    var cont := CondCont(c, b, cx, ln, st.ip);
    ok, t := DoEnter(p, fr, st, cx.marks, vs);
    if ok {
      var s1 := t;
      assert cx.marks + [|vs|, |vs|] == cx.marks + [|vs|] + [|vs|];
      ok, t := SimWhile(k, fs, ln, p, c, b, cx, st.ip + 1, cont, fr, s1, vs, r);
      Chain(p, st, s1, ok, t);
      if ok {
        t := SimCondEnd(p, fr, st, t, cx, vs, cont, r);
      }
    }
  }

  /** How the loop ends, its outer scope still open. */
  ghost predicate CondEnds(fr: Frame, marks: seq<nat>, n: nat, brk: int, r: Flow, t: State) {
    match r
    case Norm(vs) => |vs| == n && Arrived(fr, marks, n, vs, brk, t)
    case Return(v) => Returned(fr, t, v)
    case _ => false
  }

  lemma SimCondEnd(p: Program, fr: Frame, s: State, s1: State, cx: Ctx, vs: seq<Value>, cont: int, r: Flow)
    returns (t: State)
    requires Reach(p, s, s1) && |vs| == cx.locals && CondEnds(fr, cx.marks + [|vs|], |vs|, cont + 3, r, s1)
    requires Has(p, cont + 3, [M.OP_SCOPE_EXIT])
    ensures Reach(p, s, t) && Ends(fr, cx, cx.locals, cont + 4, r, t)
  {
    hide InFrame, Has, Reach, Returned;
    if r.Norm? {
      t := LeaveOne(p, fr, s1, cx.marks, r.vs);
      Chain(p, s, s1, true, t);
    } else {
      t := s1;
    }
  }

  lemma {:induction false} SimWhile(k: nat, fs: seq<Func>, ln: Link, p: Program, c: Expr, b: Stmt, cx: Ctx, loop: int, cont: int,
                                    fr: Frame, st: State, vs: seq<Value>, r: Flow)
    returns (ok: bool, t: State)
    requires Linked(p, ln, fs) && CondPlaced(p, ln, c, b, cx, loop, cont)
    requires |vs| == cx.locals && Arrived(fr, cx.marks + [|vs|], |vs|, vs, loop, st)
    requires r == While(k, fs, c, b, vs) && !r.Fault?
    ensures Leads(p, st, ok, t)
    ensures ok ==> CondEnds(fr, cx.marks + [|vs|], |vs|, cont + 3, r, t)
    decreases 2 * k, ForCond(c, b), 1
  {
    hide Linked, InFrame, Has, Reach, Fails, Returned, LoopsOk, Inside, GenStmt, GenExpr, Eval, Run, Formed, StmtPooled, Pooled, After, CondEnds;
    var marks := cx.marks + [|vs|];
    var a := Eval(k, fs, c, vs).value;
    ok, t := DoEnter(p, fr, st, marks, vs);
    if ok {
      var s1 := t;
      ok, t := SimTest(k, fs, ln, p, c, CondCtx(cx, cont + 3, cont), fr, s1, vs, a, cont + 2);
      Chain(p, st, s1, ok, t);
      if ok {
        if Truthy(a) {
          ok, t := SimWhileBody(k, fs, ln, p, c, b, cx, loop, cont, fr, st, t, vs, r);
        } else {
          var s2 := t;
          t := LeaveOne(p, fr, s2, marks, vs);
          Chain(p, st, s2, true, t);
          CondDone(fr, marks, vs, cont + 3, t);
        }
      }
    }
  }

  lemma CondDone(fr: Frame, marks: seq<nat>, vs: seq<Value>, brk: int, t: State)
    requires Arrived(fr, marks, |vs|, vs, brk, t)
    ensures CondEnds(fr, marks, |vs|, brk, Norm(vs), t)
  {
  }

  /** What one iteration contributes to the loop. */
  lemma WhileStep(k: nat, fs: seq<Func>, c: Expr, b: Stmt, vs: seq<Value>, r: Flow)
    requires r == While(k, fs, c, b, vs) && !r.Fault?
    requires Eval(k, fs, c, vs).Some? && Truthy(Eval(k, fs, c, vs).value)
    ensures var r1 := Run(k, fs, b, vs);
      && !r1.Fault?
      && (r1.Broke? ==> r == Norm(Cut(r1.vs, |vs|)))
      && (r1.Return? ==> r == r1)
      && (r1.Norm? || r1.Continued? ==> k > 0 && r == While(k - 1, fs, c, b, Cut(r1.vs, |vs|)))
  {
    hide Run, Eval;
  }

  lemma LoopStep(k: nat, fs: seq<Func>, b: Stmt, vs: seq<Value>, r: Flow)
    requires r == Loop(k, fs, b, vs) && !r.Fault?
    ensures var r1 := Run(k, fs, b, vs);
      && !r1.Fault?
      && (r1.Broke? ==> r == Norm(r1.vs))
      && (r1.Return? ==> r == r1)
      && (r1.Norm? || r1.Continued? ==> k > 0 && r == Loop(k - 1, fs, b, r1.vs))
  {
    hide Run;
  }

  lemma {:induction false} SimWhileBody(k: nat, fs: seq<Func>, ln: Link, p: Program, c: Expr, b: Stmt, cx: Ctx, loop: int, cont: int,
                                        fr: Frame, st: State, s2: State, vs: seq<Value>, r: Flow)
    returns (ok: bool, t: State)
    requires Linked(p, ln, fs) && CondPlaced(p, ln, c, b, cx, loop, cont) && Reach(p, st, s2)
    requires |vs| == cx.locals
    requires Arrived(fr, cx.marks + [|vs|] + [|vs|], |vs|, vs, loop + 1 + |GenExpr(c, ln, loop + 1)| + 2, s2)
    requires r == While(k, fs, c, b, vs) && !r.Fault?
    requires Eval(k, fs, c, vs).Some? && Truthy(Eval(k, fs, c, vs).value)
    ensures Leads(p, st, ok, t)
    ensures ok ==> CondEnds(fr, cx.marks + [|vs|], |vs|, cont + 3, r, t)
    decreases 2 * k, ForCond(c, b), 0
  {
    hide Linked, InFrame, Has, Reach, Fails, Returned, LoopsOk, Inside, GenStmt, GenExpr, Eval, Run, Formed, StmtPooled, Pooled, After, Times, Ends, While, CutFlow;
    var marks := cx.marks + [|vs|];
    var ccx := CondCtx(cx, cont + 3, cont);
    var r1 := Run(k, fs, b, vs);
    var pops := After(b, ccx).locals - cx.locals;
    WhileStep(k, fs, c, b, vs, r);
    ok, t := SimStmt(k, fs, ln, p, b, ccx, fr, s2, vs, r1);
    Chain(p, st, s2, ok, t);
    if ok {
      t := SimCondTail(p, fr, st, t, cx, vs, cont, pops, r1);
      if r1.Norm? || r1.Continued? {
        var s3, vs1 := t, Cut(r1.vs, |vs|);
        ok, t := DoJump(p, fr, s3, marks, |vs|, vs1, loop);
        Chain(p, st, s3, ok, t);
        if ok {
          var s4 := t;
          ok, t := SimWhile(k - 1, fs, ln, p, c, b, cx, loop, cont, fr, s4, vs1, r);
          Chain(p, st, s4, ok, t);
        }
      }
    }
  }

  /** After the body: a normal end or a continue stands at the back jump with the body's locals and
      scope gone, a break stands after the loop. */
  lemma SimCondTail(p: Program, fr: Frame, s: State, s2: State, cx: Ctx, vs: seq<Value>, cont: int, pops: nat, r: Flow)
    returns (t: State)
    requires Reach(p, s, s2) && |vs| == cx.locals && !r.Fault?
    requires Ends(fr, CondCtx(cx, cont + 3, cont), cx.locals + pops, cont - 1 - pops, r, s2)
    requires Has(p, cont - 1 - pops, Times(M.OP_POP, pops)) && Has(p, cont - 1, [M.OP_SCOPE_EXIT])
    ensures Reach(p, s, t)
    ensures r.Return? ==> Returned(fr, t, r.v)
    ensures r.Norm? || r.Continued? ==>
      |Cut(r.vs, |vs|)| == |vs| && Arrived(fr, cx.marks + [|vs|], |vs|, Cut(r.vs, |vs|), cont, t)
    ensures r.Broke? ==>
      |Cut(r.vs, |vs|)| == |vs| && Arrived(fr, cx.marks + [|vs|], |vs|, Cut(r.vs, |vs|), cont + 3, t)
  {
    hide InFrame, Has, Reach, Returned, Times;
    var marks := cx.marks + [|vs|];
    if r.Norm? {
      var s3 := DoPops(p, fr, s2, marks + [|vs|], r.vs, |vs|);
      Chain(p, s, s2, true, s3);
      t := LeaveOne(p, fr, s3, marks, r.vs[..|vs|]);
      Chain(p, s, s3, true, t);
    } else {
      t := s2;
      if !r.Return? {
        assert (marks + [|vs|])[..|marks|] == marks;
      }
    }
  }
}
