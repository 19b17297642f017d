/** Emitted code does not change when later code adds constants and functions, and backpatching a
    placeholder yields the code that would have been emitted had its target been known
    (src/compiler.c:395-451, 1242-1254; src/vm.c:538-544). */
module Linking {
  import opened Defines
  import M = Machine
  import opened Language
  import opened Codegen

  /** The constants of `e` are in the pool and the functions it calls are declared. */
  ghost predicate Settled(e: Expr, ln: Link)
    decreases e
  {
    match e
    case Lit(n) => n in ln.consts
    case Bool(b) => M.Bit(b) in ln.consts
    case Var(_) => true
    case Neg(e1) => (if e1.Lit? then 0 - e1.n in ln.consts else 0 in ln.consts && Settled(e1, ln))
    case Bin(_, l, r) => Settled(l, ln) && Settled(r, ln)
    case Cond(c, t, f) => Settled(c, ln) && Settled(t, ln) && Settled(f, ln)
    case List(es) => forall i :: 0 <= i < |es| ==> Settled(es[i], ln)
    case Index(a, i) => Settled(a, ln) && Settled(i, ln)
    case Span(a, lo, hi) => Settled(a, ln) && Settled(lo, ln) && Settled(hi, ln)
    case Call(f, args) => f < |ln.addrs| && forall i :: 0 <= i < |args| ==> Settled(args[i], ln)
  }

  ghost predicate AllSettled(es: seq<Expr>, ln: Link) {
    forall i :: 0 <= i < |es| ==> Settled(es[i], ln)
  }

  ghost predicate Extends(ln: Link, ln': Link) {
    ln.consts <= ln'.consts && ln.addrs <= ln'.addrs
  }

  lemma {:induction false} IndexStays(n: int, consts: seq<int>, consts': seq<int>)
    requires n in consts && consts <= consts'
    ensures ConstIndex(consts, n) == ConstIndex(consts', n)
  {
    var i, i' := ConstIndex(consts, n), ConstIndex(consts', n);
    assert consts'[i] == consts[i];
    assert i' < |consts| ==> consts[i'] == consts'[i'];
  }

  /** The code of an expression in terms of its parts. */
  lemma ExprCode(e: Expr, ln: Link, base: int)
    ensures e.Neg? && !e.e.Lit? ==> GenExpr(e, ln, base) == PushConst(0, ln) + GenExpr(e.e, ln, base + 2) + [M.OP_SUB]
    ensures e.Bin? ==>
      var c := GenExpr(e.l, ln, base);
      GenExpr(e, ln, base) == c + GenExpr(e.r, ln, base + |c|) + [OpCode(e.op)]
    ensures e.Cond? ==>
      var c := GenExpr(e.c, ln, base);
      var t := GenExpr(e.t, ln, base + |c| + 2);
      var k := base + |c| + 2 + |t| + 2;
      var f := GenExpr(e.e2, ln, k);
      GenExpr(e, ln, base) == Branches(c, k, t, k + |f|, f)
    ensures e.List? ==> GenExpr(e, ln, base) == GenExprs(e.es, ln, base) + [M.OP_ARR, |e.es|]
    ensures e.Index? ==>
      var c := GenExpr(e.arr, ln, base);
      GenExpr(e, ln, base) == c + GenExpr(e.i, ln, base + |c|) + [M.OP_AGET]
    ensures e.Span? ==>
      var c := GenExpr(e.arr, ln, base);
      var d := GenExpr(e.lo, ln, base + |c|);
      GenExpr(e, ln, base) == c + d + GenExpr(e.hi, ln, base + |c| + |d|) + [M.OP_SLICE]
    ensures e.Call? ==> GenExpr(e, ln, base) == GenExprs(e.args, ln, base) + [M.OP_CALL, FuncAddr(e.f, ln), |e.args|]
  {
    hide GenExprs, Branches, PushConst, FuncAddr;
  }

  lemma {:induction false} SettledStays(e: Expr, ln: Link, ln': Link, base: int)
    requires Settled(e, ln) && Extends(ln, ln')
    ensures Settled(e, ln') && GenExpr(e, ln', base) == GenExpr(e, ln, base)
    decreases e, 1
  {
    hide GenExpr, Settled;
    if e.Lit? || e.Bool? || e.Var? || (e.Neg? && e.e.Lit?) {
      ConstStays(e, ln, ln', base);
    } else {
      PartsStay(e, ln, ln', base);
    }
  }

  lemma ConstStays(e: Expr, ln: Link, ln': Link, base: int)
    requires e.Lit? || e.Bool? || e.Var? || (e.Neg? && e.e.Lit?)
    requires Settled(e, ln) && Extends(ln, ln')
    ensures Settled(e, ln') && GenExpr(e, ln', base) == GenExpr(e, ln, base)
  {
    match e
    case Lit(n) => IndexStays(n, ln.consts, ln'.consts);
    case Bool(b) => IndexStays(M.Bit(b), ln.consts, ln'.consts);
    case Neg(e1) => IndexStays(0 - e1.n, ln.consts, ln'.consts);
    case _ =>
  }

  lemma {:induction false} PartsStay(e: Expr, ln: Link, ln': Link, base: int)
    requires Settled(e, ln) && Extends(ln, ln') && !(e.Neg? && e.e.Lit?)
    requires !e.Lit? && !e.Bool? && !e.Var?
    ensures Settled(e, ln') && GenExpr(e, ln', base) == GenExpr(e, ln, base)
    decreases e, 0
  {
    hide GenExpr, GenExprs, Branches;
    ExprCode(e, ln, base);
    ExprCode(e, ln', base);
    match e
    case Neg(e1) =>
      IndexStays(0, ln.consts, ln'.consts);
      SettledStays(e1, ln, ln', base + 2);
    case Bin(_, l, r) =>
      SettledStays(l, ln, ln', base);
      SettledStays(r, ln, ln', base + |GenExpr(l, ln, base)|);
    case Cond(c, t, f) =>
      SettledStays(c, ln, ln', base);
      var k := base + |GenExpr(c, ln, base)| + 2;
      SettledStays(t, ln, ln', k);
      SettledStays(f, ln, ln', k + |GenExpr(t, ln, k)| + 2);
    case List(es) => AllSettledStay(es, ln, ln', base);
    case Index(a, i) =>
      SettledStays(a, ln, ln', base);
      SettledStays(i, ln, ln', base + |GenExpr(a, ln, base)|);
    case Span(a, lo, hi) =>
      SettledStays(a, ln, ln', base);
      var k := base + |GenExpr(a, ln, base)|;
      SettledStays(lo, ln, ln', k);
      SettledStays(hi, ln, ln', k + |GenExpr(lo, ln, k)|);
    case Call(f, args) => AllSettledStay(args, ln, ln', base);
    case _ =>
  }

  lemma {:induction false} AllSettledStay(es: seq<Expr>, ln: Link, ln': Link, base: int)
    requires AllSettled(es, ln) && Extends(ln, ln')
    ensures AllSettled(es, ln') && GenExprs(es, ln', base) == GenExprs(es, ln, base)
    decreases es, 0
  {
    hide GenExpr, Settled;
    if es != [] {
      SettledStays(es[0], ln, ln', base);
      AllSettledStay(es[1..], ln, ln', base + |GenExpr(es[0], ln, base)|);
      assert forall i :: 0 < i < |es| ==> es[i] == es[1..][i - 1];
    }
  }

  lemma {:induction false} GenSnoc(es: seq<Expr>, e: Expr, ln: Link, base: int)
    ensures GenExprs(es + [e], ln, base)
      == GenExprs(es, ln, base) + GenExpr(e, ln, base + |GenExprs(es, ln, base)|)
    decreases es
  {
    hide GenExpr;
    if es == [] {
      assert es + [e] == [e] && [e][1..] == [];
      assert GenExprs([e], ln, base) == GenExpr(e, ln, base) + GenExprs([e][1..], ln, base + |GenExpr(e, ln, base)|);
    } else {
      var c := GenExpr(es[0], ln, base);
      assert (es + [e])[1..] == es[1..] + [e];
      GenSnoc(es[1..], e, ln, base + |c|);
    }
  }
}
