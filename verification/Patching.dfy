/** Backpatching: the code of a loop body emitted with placeholder targets, once pop_loop has written
    the loop's addresses into the recorded cells, is the code whose jumps had those targets all along
    (src/compiler.c:395-451). */
module Patching {
  import opened Defines
  import M = Machine
  import opened Language
  import opened Codegen
  import opened Linking

  ghost predicate StmtSettled(s: Stmt, ln: Link)
    decreases s
  {
    match s
    case Then(a, b) => StmtSettled(a, ln) && StmtSettled(b, ln)
    case Decl(e) => Settled(e, ln)
    case Assign(_, e) => Settled(e, ln)
    case Do(f, args) => f < |ln.addrs| && AllSettled(args, ln)
    case Blk(b) => StmtSettled(b, ln)
    case If(c, t, e) => Settled(c, ln) && StmtSettled(t, ln) && StmtSettled(e, ln)
    case Forever(b) => StmtSettled(b, ln)
    case ForIn(_, e, b) => 0 in ln.consts && 1 in ln.consts && Settled(e, ln) && StmtSettled(b, ln)
    case ForCond(c, b) => Settled(c, ln) && StmtSettled(b, ln)
    case Ret(e) => Settled(e, ln)
    case _ => true
  }

  /** Only the innermost loop matters to the code of a statement. */
  ghost predicate SameTop(cx: Ctx, cx': Ctx) {
    && cx.locals == cx'.locals && cx.depth == cx'.depth && cx.marks == cx'.marks
    && (|cx.loops| == 0 <==> |cx'.loops| == 0)
    && (|cx.loops| > 0 ==> cx.loops[|cx.loops| - 1] == cx'.loops[|cx'.loops| - 1])
  }

  lemma {:induction false} AfterTop(s: Stmt, cx: Ctx, cx': Ctx)
    requires cx.locals == cx'.locals && cx.depth == cx'.depth && cx.marks == cx'.marks
    ensures After(s, cx).locals == After(s, cx').locals && After(s, cx).depth == After(s, cx').depth
    decreases s
  {
    match s
    case Then(a, b) => AfterTop(a, cx, cx'); AfterTop(b, After(a, cx), After(a, cx'));
    case Blk(b) => AfterTop(b, Enter(cx), Enter(cx'));
    case If(_, t, e) =>
      AfterTop(t, cx, cx');
      AfterTop(e, cx.(depth := After(t, cx).depth), cx'.(depth := After(t, cx').depth));
    case Forever(b) => AfterTop(b, InLoop(cx, 0, 0), InLoop(cx', 0, 0));
    case ForIn(reuse, _, b) => AfterTop(b, InLoop(ForCtx(cx, reuse), 0, 0), InLoop(ForCtx(cx', reuse), 0, 0));
    case ForCond(_, b) => AfterTop(b, CondCtx(cx, 0, 0), CondCtx(cx', 0, 0));
    case _ =>
  }

  lemma EnteredTop(cx: Ctx, cx': Ctx, brk: int, cont: int)
    requires SameTop(cx, cx')
    ensures SameTop(Enter(cx), Enter(cx')) && SameTop(InLoop(cx, brk, cont), InLoop(cx', brk, cont))
    ensures SameTop(CondCtx(cx, brk, cont), CondCtx(cx', brk, cont))
    ensures forall reuse :: SameTop(InLoop(ForCtx(cx, reuse), brk, cont), InLoop(ForCtx(cx', reuse), brk, cont))
  {
  }

  /** Neither a larger pool, nor more functions, nor what the outer loops are changes emitted code. */
  lemma {:induction false} SameCode(s: Stmt, cx: Ctx, cx': Ctx, ln: Link, ln': Link, base: int)
    requires SameTop(cx, cx') && StmtSettled(s, ln) && Extends(ln, ln')
    ensures StmtSettled(s, ln') && GenStmt(s, cx, ln, base) == GenStmt(s, cx', ln', base)
    decreases s, 1
  {
    hide SameTop, GenThen, GenBlk, GenIf, GenForever, GenForIn, GenForCond, GenExpr, GenExprs, Settled, Unwind, After;
    match s
    case Then(a, b) => ThenSame(a, b, cx, cx', ln, ln', base);
    case Blk(b) => BlkSame(b, cx, cx', ln, ln', base);
    case If(c, t, e) => IfSame(c, t, e, cx, cx', ln, ln', base);
    case Forever(b) => ForeverSame(b, cx, cx', ln, ln', base);
    case ForIn(reuse, e, b) => ForInSame(reuse, e, b, cx, cx', ln, ln', base);
    case ForCond(c, b) => CondSame(c, b, cx, cx', ln, ln', base);
    case Decl(e) => SettledStays(e, ln, ln', base);
    case Assign(_, e) => SettledStays(e, ln, ln', base);
    case Ret(e) => SettledStays(e, ln, ln', base);
    case Do(f, args) => AllSettledStay(args, ln, ln', base);
    case Break => UnwindSame(cx, cx');
    case Continue => UnwindSame(cx, cx');
    case Skip =>
  }

  lemma UnwindSame(cx: Ctx, cx': Ctx)
    requires SameTop(cx, cx')
    ensures |cx.loops| == 0 <==> |cx'.loops| == 0
    ensures |cx.loops| > 0 ==> cx.loops[|cx.loops| - 1] == cx'.loops[|cx'.loops| - 1]
    ensures |cx.loops| > 0 ==> forall target :: Unwind(cx, target) == Unwind(cx', target)
  {
  }

  lemma TopAfter(s: Stmt, cx: Ctx, cx': Ctx)
    requires SameTop(cx, cx')
    ensures SameTop(After(s, cx), After(s, cx')) && cx.locals == cx'.locals && cx.depth == cx'.depth
    ensures SameTop(cx.(depth := After(s, cx).depth), cx'.(depth := After(s, cx').depth))
  {
    hide After;
    AfterTop(s, cx, cx');
  }

  lemma {:induction false} ThenSame(a: Stmt, b: Stmt, cx: Ctx, cx': Ctx, ln: Link, ln': Link, base: int)
    requires SameTop(cx, cx') && StmtSettled(a, ln) && StmtSettled(b, ln) && Extends(ln, ln')
    ensures StmtSettled(a, ln') && StmtSettled(b, ln')
    ensures GenThen(a, b, cx, ln, base) == GenThen(a, b, cx', ln', base)
    decreases Then(a, b), 0
  {
    hide SameTop, GenStmt, StmtSettled, After;
    SameCode(a, cx, cx', ln, ln', base);
    TopAfter(a, cx, cx');
    SameCode(b, After(a, cx), After(a, cx'), ln, ln', base + |GenStmt(a, cx, ln, base)|);
  }

  lemma {:induction false} BlkSame(b: Stmt, cx: Ctx, cx': Ctx, ln: Link, ln': Link, base: int)
    requires SameTop(cx, cx') && StmtSettled(b, ln) && Extends(ln, ln')
    ensures StmtSettled(b, ln') && GenBlk(b, cx, ln, base) == GenBlk(b, cx', ln', base)
    decreases Blk(b), 0
  {
    hide SameTop, GenStmt, StmtSettled, After, Braced;
    EnteredTop(cx, cx', 0, 0);
    TopAfter(b, Enter(cx), Enter(cx'));
    TopAfter(b, cx, cx');
    SameCode(b, Enter(cx), Enter(cx'), ln, ln', base + 1);
    AfterLocals(b, Enter(cx), Enter(cx'));
  }

  lemma AfterLocals(s: Stmt, cx: Ctx, cx': Ctx)
    requires SameTop(cx, cx')
    ensures After(s, cx).locals == After(s, cx').locals && cx.locals == cx'.locals
  {
    AfterTop(s, cx, cx');
  }

  lemma {:induction false} IfSame(c: Expr, t: Stmt, e: Stmt, cx: Ctx, cx': Ctx, ln: Link, ln': Link, base: int)
    requires SameTop(cx, cx') && Settled(c, ln) && StmtSettled(t, ln) && StmtSettled(e, ln) && Extends(ln, ln')
    ensures Settled(c, ln') && StmtSettled(t, ln') && StmtSettled(e, ln')
    ensures GenIf(c, t, e, cx, ln, base) == GenIf(c, t, e, cx', ln', base)
    decreases If(c, t, e), 0
  {
    hide SameTop, GenStmt, GenExpr, StmtSettled, Settled, After, OneBranch, Branches;
    SettledStays(c, ln, ln', base);
    var k := base + |GenExpr(c, ln, base)| + 2;
    SameCode(t, cx, cx', ln, ln', k);
    TopAfter(t, cx, cx');
    var els := k + |GenStmt(t, cx, ln, k)|;
    SameCode(e, cx.(depth := After(t, cx).depth), cx'.(depth := After(t, cx').depth), ln, ln', els + 2);
  }

  lemma {:induction false} ForeverSame(b: Stmt, cx: Ctx, cx': Ctx, ln: Link, ln': Link, base: int)
    requires SameTop(cx, cx') && StmtSettled(b, ln) && Extends(ln, ln')
    ensures StmtSettled(b, ln') && GenForever(b, cx, ln, base) == GenForever(b, cx', ln', base)
    decreases Forever(b), 0
  {
    hide SameTop, GenStmt, StmtSettled, InLoop, Endless;
    EnteredTop(cx, cx', 0, 0);
    SameCode(b, InLoop(cx, 0, 0), InLoop(cx', 0, 0), ln, ln', base);
    var size := |GenStmt(b, InLoop(cx, 0, 0), ln, base)|;
    EnteredTop(cx, cx', base + size + 2, base);
    SameCode(b, InLoop(cx, base + size + 2, base), InLoop(cx', base + size + 2, base), ln, ln', base);
  }

  lemma {:induction false} ForInSame(reuse: Option<nat>, e: Expr, b: Stmt, cx: Ctx, cx': Ctx, ln: Link, ln': Link, base: int)
    requires SameTop(cx, cx') && Settled(e, ln) && StmtSettled(b, ln) && Extends(ln, ln')
    requires 0 in ln.consts && 1 in ln.consts
    ensures Settled(e, ln') && StmtSettled(b, ln') && 0 in ln'.consts && 1 in ln'.consts
    ensures GenForIn(reuse, e, b, cx, ln, base) == GenForIn(reuse, e, b, cx', ln', base)
    decreases ForIn(reuse, e, b), 0
  {
    hide SameTop, GenStmt, StmtSettled, GenExpr, Settled, InLoop, ForLoop, ForHead, ForTest, ForNext, ForCtx, LoopVar, GenForIn;
    ForInIs(reuse, e, b, cx, ln, base);
    ForInIs(reuse, e, b, cx', ln', base);
    HeadSame(reuse, e, ln, ln', base);
    var head := ForHead(reuse, e, ln, base);
    var start := base + |head| + FOR_TEST_SIZE;
    var fx, fx' := ForCtx(cx, reuse), ForCtx(cx', reuse);
    ForTop(cx, cx', reuse);
    NextSame(ln, ln', fx.locals, base + |head|);
    EnteredTop(cx, cx', 0, 0);
    SameCode(b, InLoop(fx, 0, 0), InLoop(fx', 0, 0), ln, ln', start);
    var cont := start + |GenStmt(b, InLoop(fx, 0, 0), ln, start)|;
    EnteredTop(cx, cx', cont + FOR_NEXT_SIZE, cont);
    SameCode(b, InLoop(fx, cont + FOR_NEXT_SIZE, cont), InLoop(fx', cont + FOR_NEXT_SIZE, cont), ln, ln', start);
  }

  lemma ForTop(cx: Ctx, cx': Ctx, reuse: Option<nat>)
    requires SameTop(cx, cx')
    ensures cx.locals == cx'.locals && ForCtx(cx, reuse).locals == ForCtx(cx', reuse).locals >= 2
    ensures LoopVar(reuse, cx) == LoopVar(reuse, cx')
  {
  }

  lemma LocalsTop(cx: Ctx, cx': Ctx)
    requires SameTop(cx, cx')
    ensures cx.locals == cx'.locals
  {
  }

  lemma HeadSame(reuse: Option<nat>, e: Expr, ln: Link, ln': Link, base: int)
    requires 0 in ln.consts && Settled(e, ln) && Extends(ln, ln')
    ensures Settled(e, ln') && ForHead(reuse, e, ln, base) == ForHead(reuse, e, ln', base)
  {
    hide GenExpr, Settled;
    IndexStays(0, ln.consts, ln'.consts);
    SettledStays(e, ln, ln', base + 1);
    SettledStays(e, ln, ln', base + 3);
  }

  lemma NextSame(ln: Link, ln': Link, n: nat, loop: int)
    requires 0 in ln.consts && 1 in ln.consts && Extends(ln, ln') && n >= 2
    ensures 0 in ln'.consts && 1 in ln'.consts && ForNext(n, loop, ln) == ForNext(n, loop, ln')
  {
    IndexStays(1, ln.consts, ln'.consts);
    IndexStays(0, ln.consts, ln'.consts);
    assert ln'.consts[ConstIndex(ln.consts, 0)] == 0 && ln'.consts[ConstIndex(ln.consts, 1)] == 1;
  }

  lemma {:induction false} CondSame(c: Expr, b: Stmt, cx: Ctx, cx': Ctx, ln: Link, ln': Link, base: int)
    requires SameTop(cx, cx') && Settled(c, ln) && StmtSettled(b, ln) && Extends(ln, ln')
    ensures Settled(c, ln') && StmtSettled(b, ln')
    ensures GenForCond(c, b, cx, ln, base) == GenForCond(c, b, cx', ln', base)
    decreases ForCond(c, b), 0
  {
    hide SameTop, GenStmt, StmtSettled, GenExpr, Settled, CondCtx, CondLoop, After;
    SettledStays(c, ln, ln', base + 2);
    LocalsTop(cx, cx');
    EnteredTop(cx, cx', 0, 0);
    AfterLocals(b, CondCtx(cx, 0, 0), CondCtx(cx', 0, 0));
    var start := base + 2 + |GenExpr(c, ln, base + 2)| + 2;
    SameCode(b, CondCtx(cx, 0, 0), CondCtx(cx', 0, 0), ln, ln', start);
    var cont := start + |GenStmt(b, CondCtx(cx, 0, 0), ln, start)| + (After(b, CondCtx(cx, 0, 0)).locals - cx.locals) + 1;
    EnteredTop(cx, cx', cont + 3, cont);
    SameCode(b, CondCtx(cx, cont + 3, cont), CondCtx(cx', cont + 3, cont), ln, ln', start);
  }

  // ---- Patching ----

  /** Where the breaks (or continues) of the innermost loop around `s` left a cell to patch. */
  function Sites(s: Stmt, cx: Ctx, ln: Link, base: int, brk: bool): seq<int>
    decreases s
  {
    match s
    case Then(a, b) => Sites(a, cx, ln, base, brk) + Sites(b, After(a, cx), ln, base + |GenStmt(a, cx, ln, base)|, brk)
    case Blk(b) => Sites(b, Enter(cx), ln, base + 1, brk)
    case If(c, t, e) =>
      var k := base + |GenExpr(c, ln, base)| + 2;
      Sites(t, cx, ln, k, brk)
      + Sites(e, cx.(depth := After(t, cx).depth), ln, k + |GenStmt(t, cx, ln, k)| + 2, brk)
    case Break => if brk && |cx.loops| > 0 then [base + |Unwind(cx, 0)| - 1] else []
    case Continue => if !brk && |cx.loops| > 0 then [base + |Unwind(cx, 0)| - 1] else []
    case _ => []
  }

  /** The innermost loop's jumps go to these addresses. */
  function Aim(cx: Ctx, brk: int, cont: int): Ctx
    requires |cx.loops| > 0
  {
    var n := |cx.loops| - 1;
    cx.(loops := cx.loops[n := cx.loops[n].(brk := brk, cont := cont)])
  }

  /** `g'` is `g`, placed at `base`, with the cells `bs` set to `brk` and the cells `cs` to `cont`. */
  ghost predicate Patched(g: seq<int>, g': seq<int>, base: int, bs: seq<int>, cs: seq<int>, brk: int, cont: int) {
    && |g| == |g'|
    && (forall x :: x in bs || x in cs ==> base <= x < base + |g|)
    && forall i :: 0 <= i < |g| ==> g'[i] == Set(g[i], base + i, bs, cs, brk, cont)
  }

  ghost function Set(was: int, at: int, bs: seq<int>, cs: seq<int>, brk: int, cont: int): int {
    if at in bs then brk else if at in cs then cont else was
  }

  lemma PatchedSame(g: seq<int>, base: int, brk: int, cont: int)
    ensures Patched(g, g, base, [], [], brk, cont)
  {
  }

  lemma PatchedJoin(a: seq<int>, a': seq<int>, b: seq<int>, b': seq<int>, base: int,
      bs: seq<int>, cs: seq<int>, bs1: seq<int>, cs1: seq<int>, brk: int, cont: int)
    requires Patched(a, a', base, bs, cs, brk, cont) && Patched(b, b', base + |a|, bs1, cs1, brk, cont)
    ensures Patched(a + b, a' + b', base, bs + bs1, cs + cs1, brk, cont)
  {
    forall i | 0 <= i < |a + b|
      ensures (a' + b')[i] == Set((a + b)[i], base + i, bs + bs1, cs + cs1, brk, cont)
    {
      if i < |a| {
        assert base + i !in bs1 && base + i !in cs1;
      } else {
        assert base + i !in bs && base + i !in cs;
        assert b'[i - |a|] == Set(b[i - |a|], base + |a| + (i - |a|), bs1, cs1, brk, cont);
      }
    }
  }

  /** Code without patched cells on either side. */
  lemma PatchedWithin(pre: seq<int>, g: seq<int>, g': seq<int>, post: seq<int>, base: int,
      bs: seq<int>, cs: seq<int>, brk: int, cont: int)
    requires Patched(g, g', base + |pre|, bs, cs, brk, cont)
    ensures Patched(pre + g + post, pre + g' + post, base, bs, cs, brk, cont)
  {
    hide Patched;
    PatchedSame(pre, base, brk, cont);
    PatchedSame(post, base + |pre + g|, brk, cont);
    PatchedJoin(pre, pre, g, g', base, [], [], bs, cs, brk, cont);
    assert [] + bs == bs && [] + cs == cs && bs + [] == bs && cs + [] == cs;
    PatchedJoin(pre + g, pre + g', post, post, base, bs, cs, [], [], brk, cont);
  }

  /** Patching the recorded cells is the same as compiling with the loop's addresses known. */
  lemma {:induction false} Retarget(s: Stmt, cx: Ctx, ln: Link, base: int, brk: int, cont: int)
    requires |cx.loops| > 0 && StmtSettled(s, ln)
    ensures Patched(GenStmt(s, cx, ln, base), GenStmt(s, Aim(cx, brk, cont), ln, base), base,
                    Sites(s, cx, ln, base, true), Sites(s, cx, ln, base, false), brk, cont)
    decreases s, 2
  {
    hide GenThen, GenBlk, GenIf, GenForever, GenForIn, GenForCond, GenExpr, GenExprs, Settled, Unwind, After, Patched, Aim;
    var cx' := Aim(cx, brk, cont);
    match s
    case Then(a, b) => ThenAimed(a, b, cx, ln, base, brk, cont);
    case Blk(b) => BlkAimed(b, cx, ln, base, brk, cont);
    case If(c, t, e) => IfAimed(c, t, e, cx, ln, base, brk, cont);
    case Break => UnwindAimed(cx, ln, base, true, brk, cont);
    case Continue => UnwindAimed(cx, ln, base, false, brk, cont);
    case _ =>
      LoopAimed(s, cx, ln, base, brk, cont);
      PatchedSame(GenStmt(s, cx, ln, base), base, brk, cont);
  }

  /** Neither a simple statement nor a loop of its own has cells for the loop around it. */
  lemma {:induction false} LoopAimed(s: Stmt, cx: Ctx, ln: Link, base: int, brk: int, cont: int)
    requires |cx.loops| > 0 && StmtSettled(s, ln)
    requires !s.Then? && !s.Blk? && !s.If? && !s.Break? && !s.Continue?
    ensures GenStmt(s, Aim(cx, brk, cont), ln, base) == GenStmt(s, cx, ln, base)
  {
    hide GenExpr, GenExprs, Settled, After, GenForever, GenForIn, GenForCond;
    match s
    case Forever(b) => ForeverAimed(b, cx, Aim(cx, brk, cont), ln, base);
    case ForIn(reuse, e, b) => ForInAimed(reuse, e, b, cx, Aim(cx, brk, cont), ln, base);
    case ForCond(c, b) => CondAimed(c, b, cx, Aim(cx, brk, cont), ln, base);
    case _ =>
  }

  ghost predicate SameHere(cx: Ctx, cx': Ctx) {
    cx.locals == cx'.locals && cx.depth == cx'.depth && cx.marks == cx'.marks
  }

  lemma InnerTop(cx: Ctx, cx': Ctx, brk: int, cont: int)
    requires SameHere(cx, cx')
    ensures SameTop(InLoop(cx, brk, cont), InLoop(cx', brk, cont))
    ensures SameTop(CondCtx(cx, brk, cont), CondCtx(cx', brk, cont))
    ensures forall reuse :: SameTop(InLoop(ForCtx(cx, reuse), brk, cont), InLoop(ForCtx(cx', reuse), brk, cont))
  {
  }

  lemma ForeverAimed(b: Stmt, cx: Ctx, cx': Ctx, ln: Link, base: int)
    requires SameHere(cx, cx') && StmtSettled(b, ln)
    ensures GenForever(b, cx, ln, base) == GenForever(b, cx', ln, base)
  {
    hide SameTop, GenStmt, StmtSettled, InLoop, Endless;
    InnerTop(cx, cx', 0, 0);
    SameCode(b, InLoop(cx, 0, 0), InLoop(cx', 0, 0), ln, ln, base);
    var size := |GenStmt(b, InLoop(cx, 0, 0), ln, base)|;
    InnerTop(cx, cx', base + size + 2, base);
    SameCode(b, InLoop(cx, base + size + 2, base), InLoop(cx', base + size + 2, base), ln, ln, base);
  }

  lemma ForInAimed(reuse: Option<nat>, e: Expr, b: Stmt, cx: Ctx, cx': Ctx, ln: Link, base: int)
    requires SameHere(cx, cx') && StmtSettled(b, ln)
    ensures GenForIn(reuse, e, b, cx, ln, base) == GenForIn(reuse, e, b, cx', ln, base)
  {
    hide SameTop, GenStmt, StmtSettled, GenExpr, InLoop, ForLoop, ForHead, ForTest, ForNext;
    var start := base + |ForHead(reuse, e, ln, base)| + FOR_TEST_SIZE;
    var fx, fx' := ForCtx(cx, reuse), ForCtx(cx', reuse);
    InnerTop(cx, cx', 0, 0);
    SameCode(b, InLoop(fx, 0, 0), InLoop(fx', 0, 0), ln, ln, start);
    var cont := start + |GenStmt(b, InLoop(fx, 0, 0), ln, start)|;
    InnerTop(cx, cx', cont + FOR_NEXT_SIZE, cont);
    SameCode(b, InLoop(fx, cont + FOR_NEXT_SIZE, cont), InLoop(fx', cont + FOR_NEXT_SIZE, cont), ln, ln, start);
  }

  lemma CondAimed(c: Expr, b: Stmt, cx: Ctx, cx': Ctx, ln: Link, base: int)
    requires SameHere(cx, cx') && StmtSettled(b, ln)
    ensures GenForCond(c, b, cx, ln, base) == GenForCond(c, b, cx', ln, base)
  {
    hide SameTop, GenStmt, StmtSettled, GenExpr, CondCtx, CondLoop, After;
    InnerTop(cx, cx', 0, 0);
    AfterLocals(b, CondCtx(cx, 0, 0), CondCtx(cx', 0, 0));
    var start := base + 2 + |GenExpr(c, ln, base + 2)| + 2;
    SameCode(b, CondCtx(cx, 0, 0), CondCtx(cx', 0, 0), ln, ln, start);
    var cont := start + |GenStmt(b, CondCtx(cx, 0, 0), ln, start)| + (After(b, CondCtx(cx, 0, 0)).locals - cx.locals) + 1;
    InnerTop(cx, cx', cont + 3, cont);
    SameCode(b, CondCtx(cx, cont + 3, cont), CondCtx(cx', cont + 3, cont), ln, ln, start);
  }

  lemma UnwindAimed(cx: Ctx, ln: Link, base: int, isBreak: bool, brk: int, cont: int)
    requires |cx.loops| > 0
    ensures var s := if isBreak then Break else Continue;
      Patched(GenStmt(s, cx, ln, base), GenStmt(s, Aim(cx, brk, cont), ln, base), base,
              Sites(s, cx, ln, base, true), Sites(s, cx, ln, base, false), brk, cont)
  {
    hide Times;
  }

  lemma AimAfter(s: Stmt, cx: Ctx, brk: int, cont: int)
    requires |cx.loops| > 0
    ensures |After(s, cx).loops| > 0 && After(s, Aim(cx, brk, cont)) == Aim(After(s, cx), brk, cont)
    ensures var d := cx.(depth := After(s, cx).depth);
      |d.loops| > 0 && Aim(cx, brk, cont).(depth := After(s, Aim(cx, brk, cont)).depth) == Aim(d, brk, cont)
    ensures |Enter(cx).loops| > 0 && Enter(Aim(cx, brk, cont)) == Aim(Enter(cx), brk, cont)
    ensures Aim(cx, brk, cont).locals == cx.locals
  {
    hide After;
    AfterTop(s, cx, Aim(cx, brk, cont));
  }

  lemma {:induction false} ThenAimed(a: Stmt, b: Stmt, cx: Ctx, ln: Link, base: int, brk: int, cont: int)
    requires |cx.loops| > 0 && StmtSettled(a, ln) && StmtSettled(b, ln)
    ensures var s := Then(a, b);
      Patched(GenThen(a, b, cx, ln, base), GenThen(a, b, Aim(cx, brk, cont), ln, base), base,
              Sites(s, cx, ln, base, true), Sites(s, cx, ln, base, false), brk, cont)
    decreases Then(a, b), 0
  {
    hide GenStmt, StmtSettled, After, Patched, Aim, Sites;
    ThenSites(a, b, cx, ln, base, true);
    ThenSites(a, b, cx, ln, base, false);
    AimAfter(a, cx, brk, cont);
    var cx' := Aim(cx, brk, cont);
    var k := base + |GenStmt(a, cx, ln, base)|;
    Retarget(a, cx, ln, base, brk, cont);
    Retarget(b, After(a, cx), ln, k, brk, cont);
    PatchedSize(GenStmt(a, cx, ln, base), GenStmt(a, cx', ln, base), base,
                Sites(a, cx, ln, base, true), Sites(a, cx, ln, base, false), brk, cont);
    PatchedJoin(GenStmt(a, cx, ln, base), GenStmt(a, cx', ln, base),
                GenStmt(b, After(a, cx), ln, k), GenStmt(b, After(a, cx'), ln, k), base,
                Sites(a, cx, ln, base, true), Sites(a, cx, ln, base, false),
                Sites(b, After(a, cx), ln, k, true), Sites(b, After(a, cx), ln, k, false), brk, cont);
  }

  lemma PatchedSize(g: seq<int>, g': seq<int>, base: int, bs: seq<int>, cs: seq<int>, brk: int, cont: int)
    requires Patched(g, g', base, bs, cs, brk, cont)
    ensures |g| == |g'|
  {
  }

  lemma {:induction false} BlkAimed(b: Stmt, cx: Ctx, ln: Link, base: int, brk: int, cont: int)
    requires |cx.loops| > 0 && StmtSettled(b, ln)
    ensures var s := Blk(b);
      Patched(GenBlk(b, cx, ln, base), GenBlk(b, Aim(cx, brk, cont), ln, base), base,
              Sites(s, cx, ln, base, true), Sites(s, cx, ln, base, false), brk, cont)
    decreases Blk(b), 0
  {
    hide GenStmt, StmtSettled, After, Patched, Aim, Times;
    AimAfter(b, cx, brk, cont);
    AimAfter(b, Enter(cx), brk, cont);
    AimLocals(After(b, Enter(cx)), brk, cont);
    var pops := After(b, Enter(cx)).locals - cx.locals;
    var g, g' := GenStmt(b, Enter(cx), ln, base + 1), GenStmt(b, Aim(Enter(cx), brk, cont), ln, base + 1);
    Retarget(b, Enter(cx), ln, base + 1, brk, cont);
    var bs, cs := Sites(b, Enter(cx), ln, base + 1, true), Sites(b, Enter(cx), ln, base + 1, false);
    PatchedWithin([M.OP_SCOPE_ENTER], g, g', Times(M.OP_POP, pops) + [M.OP_SCOPE_EXIT], base, bs, cs, brk, cont);
    assert Braced(g, pops) == [M.OP_SCOPE_ENTER] + g + (Times(M.OP_POP, pops) + [M.OP_SCOPE_EXIT]);
    assert Braced(g', pops) == [M.OP_SCOPE_ENTER] + g' + (Times(M.OP_POP, pops) + [M.OP_SCOPE_EXIT]);
  }

  lemma AimLocals(cx: Ctx, brk: int, cont: int)
    requires |cx.loops| > 0
    ensures Aim(cx, brk, cont).locals == cx.locals
  {
  }

  lemma {:induction false} IfAimed(c: Expr, t: Stmt, e: Stmt, cx: Ctx, ln: Link, base: int, brk: int, cont: int)
    requires |cx.loops| > 0 && StmtSettled(t, ln) && StmtSettled(e, ln)
    ensures var s := If(c, t, e);
      Patched(GenIf(c, t, e, cx, ln, base), GenIf(c, t, e, Aim(cx, brk, cont), ln, base), base,
              Sites(s, cx, ln, base, true), Sites(s, cx, ln, base, false), brk, cont)
    decreases If(c, t, e), 1
  {
    hide GenStmt, GenExpr, StmtSettled, After, Patched, Aim;
    AimAfter(t, cx, brk, cont);
    var cx' := Aim(cx, brk, cont);
    var cc := GenExpr(c, ln, base);
    var k := base + |cc| + 2;
    var gt, gt' := GenStmt(t, cx, ln, k), GenStmt(t, cx', ln, k);
    var bs, cs := Sites(t, cx, ln, k, true), Sites(t, cx, ln, k, false);
    Retarget(t, cx, ln, k, brk, cont);
    PatchedSize(gt, gt', k, bs, cs, brk, cont);
    var els := k + |gt|;
    if e.Skip? {
      PatchedWithin(cc + [M.OP_JZ, els], gt, gt', [], base, bs, cs, brk, cont);
      assert bs + [] == bs && cs + [] == cs;
      assert OneBranch(cc, els, gt) == cc + [M.OP_JZ, els] + gt + [];
      assert OneBranch(cc, els, gt') == cc + [M.OP_JZ, els] + gt' + [];
    } else {
      ElseAimed(c, t, e, cx, ln, base, brk, cont);
    }
  }

  lemma {:induction false} ElseAimed(c: Expr, t: Stmt, e: Stmt, cx: Ctx, ln: Link, base: int, brk: int, cont: int)
    requires |cx.loops| > 0 && StmtSettled(t, ln) && StmtSettled(e, ln) && !e.Skip?
    ensures var s := If(c, t, e);
      Patched(GenIf(c, t, e, cx, ln, base), GenIf(c, t, e, Aim(cx, brk, cont), ln, base), base,
              Sites(s, cx, ln, base, true), Sites(s, cx, ln, base, false), brk, cont)
    decreases If(c, t, e), 0
  {
    hide GenStmt, GenExpr, StmtSettled, After, Patched, Aim, Sites, Branches, OneBranch;
    AimAfter(t, cx, brk, cont);
    IfSites(c, t, e, cx, ln, base, true);
    IfSites(c, t, e, cx, ln, base, false);
    var cc := GenExpr(c, ln, base);
    var k, d := base + |cc| + 2, cx.(depth := After(t, cx).depth);
    var gt, gt' := GenStmt(t, cx, ln, k), GenStmt(t, Aim(cx, brk, cont), ln, k);
    var bs, cs := Sites(t, cx, ln, k, true), Sites(t, cx, ln, k, false);
    Retarget(t, cx, ln, k, brk, cont);
    PatchedSize(gt, gt', k, bs, cs, brk, cont);
    var at := k + |gt| + 2;
    var ge, ge' := GenStmt(e, d, ln, at), GenStmt(e, Aim(d, brk, cont), ln, at);
    var bs1, cs1 := Sites(e, d, ln, at, true), Sites(e, d, ln, at, false);
    Retarget(e, d, ln, at, brk, cont);
    PatchedSize(ge, ge', at, bs1, cs1, brk, cont);
    ArmsAimed(cc, at, gt, gt', ge, ge', base, bs, cs, bs1, cs1, brk, cont);
  }

  lemma IfSites(c: Expr, t: Stmt, e: Stmt, cx: Ctx, ln: Link, base: int, brk: bool)
    ensures var k := base + |GenExpr(c, ln, base)| + 2;
      Sites(If(c, t, e), cx, ln, base, brk) ==
        (Sites(t, cx, ln, k, brk) + Sites(e, cx.(depth := After(t, cx).depth), ln, k + |GenStmt(t, cx, ln, k)| + 2, brk))
  {
    hide GenStmt, GenExpr, After;
  }

  lemma ArmsAimed(cc: seq<int>, at: int, gt: seq<int>, gt': seq<int>, ge: seq<int>, ge': seq<int>, base: int,
      bs: seq<int>, cs: seq<int>, bs1: seq<int>, cs1: seq<int>, brk: int, cont: int)
    requires Patched(gt, gt', base + |cc| + 2, bs, cs, brk, cont) && at == base + |cc| + 2 + |gt| + 2
    requires Patched(ge, ge', at, bs1, cs1, brk, cont)
    ensures Patched(Branches(cc, at, gt, at + |ge|, ge), Branches(cc, at, gt', at + |ge|, ge'), base, bs + bs1, cs + cs1, brk, cont)
  {
    hide Patched;
    var pre, jump := cc + [M.OP_JZ, at], [M.OP_JMP, at + |ge|];
    PatchedSize(gt, gt', base + |pre|, bs, cs, brk, cont);
    PatchedWithin(pre, gt, gt', jump, base, bs, cs, brk, cont);
    PatchedJoin(pre + gt + jump, pre + gt' + jump, ge, ge', base, bs, cs, bs1, cs1, brk, cont);
    assert Branches(cc, at, gt, at + |ge|, ge) == pre + gt + jump + ge;
    assert Branches(cc, at, gt', at + |ge|, ge') == pre + gt' + jump + ge';
  }

  /** The recorded cells do not move when the pool or the function table grows. */
  lemma {:induction false} SameSites(s: Stmt, cx: Ctx, ln: Link, ln': Link, base: int, brk: bool)
    requires StmtSettled(s, ln) && Extends(ln, ln')
    ensures Sites(s, cx, ln', base, brk) == Sites(s, cx, ln, base, brk)
    decreases s
  {
    hide GenStmt, GenExpr, Settled, After, Sites;
    match s
    case Then(a, b) =>
      ThenSites(a, b, cx, ln, base, brk);
      ThenSites(a, b, cx, ln', base, brk);
      SameStmt(a, cx, ln, ln', base);
      SameSites(a, cx, ln, ln', base, brk);
      SameSites(b, After(a, cx), ln, ln', base + |GenStmt(a, cx, ln, base)|, brk);
    case Blk(b) =>
      BlkSites(b, cx, ln, base, brk);
      BlkSites(b, cx, ln', base, brk);
      SameSites(b, Enter(cx), ln, ln', base + 1, brk);
    case If(c, t, e) =>
      IfSites(c, t, e, cx, ln, base, brk);
      IfSites(c, t, e, cx, ln', base, brk);
      SettledStays(c, ln, ln', base);
      var k := base + |GenExpr(c, ln, base)| + 2;
      SameStmt(t, cx, ln, ln', k);
      SameSites(t, cx, ln, ln', k, brk);
      SameSites(e, cx.(depth := After(t, cx).depth), ln, ln', k + |GenStmt(t, cx, ln, k)| + 2, brk);
    case _ => OtherSites(s, cx, ln, ln', base, brk);
  }

  lemma ThenSites(a: Stmt, b: Stmt, cx: Ctx, ln: Link, base: int, brk: bool)
    ensures Sites(Then(a, b), cx, ln, base, brk)
      == Sites(a, cx, ln, base, brk) + Sites(b, After(a, cx), ln, base + |GenStmt(a, cx, ln, base)|, brk)
  {
    hide GenStmt, After;
  }

  lemma BlkSites(b: Stmt, cx: Ctx, ln: Link, base: int, brk: bool)
    ensures Sites(Blk(b), cx, ln, base, brk) == Sites(b, Enter(cx), ln, base + 1, brk)
  {
    hide GenStmt, After;
  }

  lemma OtherSites(s: Stmt, cx: Ctx, ln: Link, ln': Link, base: int, brk: bool)
    requires !s.Then? && !s.Blk? && !s.If?
    ensures Sites(s, cx, ln', base, brk) == Sites(s, cx, ln, base, brk)
  {
    hide Unwind;
  }

  lemma SameStmt(s: Stmt, cx: Ctx, ln: Link, ln': Link, base: int)
    requires StmtSettled(s, ln) && Extends(ln, ln')
    ensures StmtSettled(s, ln') && GenStmt(s, cx, ln', base) == GenStmt(s, cx, ln, base)
  {
    hide GenStmt, StmtSettled;
    SameCode(s, cx, cx, ln, ln', base);
  }
}
