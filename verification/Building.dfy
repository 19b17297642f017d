/** How the code, the pool, the compile-time counters and the recorded jumps of a statement are put
    together from those of its parts, in the order in which the compiler emits them
    (src/compiler.c:395-451, 1833-1935, 1979-2120, 2357-2391). */
module Building {
  import opened Defines
  import M = Machine
  import opened Language
  import opened Codegen
  import opened Linking
  import opened Patching

  /** LoopControl with the cells that pop_loop will patch. */
  datatype LoopControl = LoopControl(scopeDepth: int, localCount: nat, breaks: seq<int>, continues: seq<int>)

  /** What the compiler has produced so far. */
  datatype Work = Work(code: seq<int>, ln: Link, cx: Ctx, loops: seq<LoopControl>)

  function Recorded(loops: seq<LoopControl>, bs: seq<int>, cs: seq<int>): seq<LoopControl> {
    if loops == [] then []
    else
      var n := |loops| - 1;
      loops[n := loops[n].(breaks := loops[n].breaks + bs, continues := loops[n].continues + cs)]
  }

  ghost predicate Later(a: Work, b: Work) {
    a.ln.consts <= b.ln.consts && a.ln.addrs == b.ln.addrs
  }

  /** Between `a` and `b`, exactly statement `s` was compiled. */
  ghost predicate Built(s: Stmt, a: Work, b: Work) {
    && Later(a, b) && StmtSettled(s, b.ln)
    && b.code == a.code + GenStmt(s, a.cx, b.ln, |a.code|)
    && b.cx == After(s, a.cx)
    && b.loops == Recorded(a.loops, Sites(s, a.cx, b.ln, |a.code|, true), Sites(s, a.cx, b.ln, |a.code|, false))
  }

  /** Between `a` and `b`, exactly expression `e` was compiled. */
  ghost predicate Evaluated(e: Expr, a: Work, b: Work) {
    && Later(a, b) && Settled(e, b.ln) && b.cx == a.cx && b.loops == a.loops
    && b.code == a.code + GenExpr(e, b.ln, |a.code|)
  }

  lemma RecordedTwice(loops: seq<LoopControl>, bs: seq<int>, cs: seq<int>, bs1: seq<int>, cs1: seq<int>)
    ensures Recorded(Recorded(loops, bs, cs), bs1, cs1) == Recorded(loops, bs + bs1, cs + cs1)
    ensures Recorded(loops, [], []) == loops
  {
    if loops != [] {
      var l := loops[|loops| - 1];
      assert l.breaks + bs + bs1 == l.breaks + (bs + bs1) && l.continues + cs + cs1 == l.continues + (cs + cs1);
      assert l.breaks + [] == l.breaks && l.continues + [] == l.continues;
    }
  }

  /** A statement without parts of its own: only its code and the number of locals matter. */
  lemma SimpleBuilt(s: Stmt, a: Work, b: Work)
    requires s.Decl? || s.Assign? || s.Do? || s.Ret? || s.Skip?
    requires Later(a, b) && StmtSettled(s, b.ln) && b.loops == a.loops
    requires b.code == a.code + GenStmt(s, a.cx, b.ln, |a.code|)
    requires b.cx == a.cx.(locals := a.cx.locals + if s.Decl? then 1 else 0)
    ensures Built(s, a, b)
  {
    hide GenStmt, StmtSettled;
    RecordedTwice(a.loops, [], [], [], []);
  }

  lemma DeclBuilt(e: Expr, a: Work, m: Work)
    requires Evaluated(e, a, m)
    ensures Built(Decl(e), a, m.(cx := a.cx.(locals := a.cx.locals + 1)))
  {
    hide GenExpr, Settled;
    SimpleBuilt(Decl(e), a, m.(cx := a.cx.(locals := a.cx.locals + 1)));
  }

  lemma AssignBuilt(x: nat, e: Expr, a: Work, m: Work)
    requires Evaluated(e, a, m)
    ensures Built(Assign(x, e), a, m.(code := m.code + [M.OP_SVAR, x]))
  {
    hide GenExpr, Settled;
    SimpleBuilt(Assign(x, e), a, m.(code := m.code + [M.OP_SVAR, x]));
  }

  lemma RetBuilt(e: Expr, a: Work, m: Work)
    requires Evaluated(e, a, m)
    ensures Built(Ret(e), a, m.(code := m.code + [M.OP_RET]))
  {
    hide GenExpr, Settled;
    SimpleBuilt(Ret(e), a, m.(code := m.code + [M.OP_RET]));
  }

  lemma DoBuilt(f: nat, es: seq<Expr>, a: Work, m: Work)
    requires Later(a, m) && AllSettled(es, m.ln) && m.cx == a.cx && m.loops == a.loops && f < |m.ln.addrs|
    requires m.code == a.code + GenExprs(es, m.ln, |a.code|)
    ensures Built(Do(f, es), a, m.(code := m.code + [M.OP_CALL, m.ln.addrs[f], |es|] + [M.OP_POP]))
  {
    hide GenExprs, AllSettled;
    SimpleBuilt(Do(f, es), a, m.(code := m.code + [M.OP_CALL, m.ln.addrs[f], |es|] + [M.OP_POP]));
  }

  /** emit_break and emit_continue, with a placeholder for the target. */
  lemma JumpBuilt(s: Stmt, a: Work, b: Work)
    requires (s.Break? || s.Continue?) && a.loops != [] && |a.cx.loops| > 0
    requires a.cx.loops[|a.cx.loops| - 1].brk == 0 && a.cx.loops[|a.cx.loops| - 1].cont == 0
    requires b.ln == a.ln && b.cx == a.cx && b.code == a.code + Unwind(a.cx, 0)
    requires b.loops == Recorded(a.loops, if s.Break? then [|b.code| - 1] else [], if s.Continue? then [|b.code| - 1] else [])
    ensures Built(s, a, b)
  {
    hide Unwind;
  }

  lemma ThenBuilt(s: Stmt, t: Stmt, a: Work, b: Work, c: Work)
    requires Built(s, a, b) && Built(t, b, c)
    ensures Built(Then(s, t), a, c)
  {
    hide GenStmt, StmtSettled, After, Sites, Recorded;
    SameStmt(s, a.cx, b.ln, c.ln, |a.code|);
    SameSites(s, a.cx, b.ln, c.ln, |a.code|, true);
    SameSites(s, a.cx, b.ln, c.ln, |a.code|, false);
    ThenSites(s, t, a.cx, c.ln, |a.code|, true);
    ThenSites(s, t, a.cx, c.ln, |a.code|, false);
    RecordedTwice(a.loops, Sites(s, a.cx, c.ln, |a.code|, true), Sites(s, a.cx, c.ln, |a.code|, false),
                  Sites(t, b.cx, c.ln, |b.code|, true), Sites(t, b.cx, c.ln, |b.code|, false));
    ThenParts(s, t, a.cx, c.ln, |a.code|);
  }

  lemma ThenParts(s: Stmt, t: Stmt, cx: Ctx, ln: Link, base: int)
    requires StmtSettled(s, ln) && StmtSettled(t, ln)
    ensures StmtSettled(Then(s, t), ln) && After(Then(s, t), cx) == After(t, After(s, cx))
    ensures var c := GenStmt(s, cx, ln, base);
      GenStmt(Then(s, t), cx, ln, base) == c + GenStmt(t, After(s, cx), ln, base + |c|)
  {
    hide GenStmt;
    StmtCode(Then(s, t), cx, ln, base);
  }

  /** `m` is where the statements of a block end, started from the scope entry after `a`. */
  lemma BlkBuilt(s: Stmt, a: Work, m: Work)
    requires Built(s, Work(a.code + [M.OP_SCOPE_ENTER], a.ln, Enter(a.cx), a.loops), m)
    ensures m.cx.locals >= a.cx.locals
    ensures Built(Blk(s), a, Work(m.code + Times(M.OP_POP, m.cx.locals - a.cx.locals) + [M.OP_SCOPE_EXIT], m.ln,
                                  a.cx.(depth := m.cx.depth - 1), m.loops))
  {
    hide GenStmt, Sites, Recorded, Times;
    BlkSites(s, a.cx, m.ln, |a.code|, true);
    BlkSites(s, a.cx, m.ln, |a.code|, false);
    StmtCode(Blk(s), a.cx, m.ln, |a.code|);
    var body, pops := GenStmt(s, Enter(a.cx), m.ln, |a.code| + 1), Times(M.OP_POP, m.cx.locals - a.cx.locals);
    assert a.code + [M.OP_SCOPE_ENTER] + body + pops + [M.OP_SCOPE_EXIT]
        == a.code + ([M.OP_SCOPE_ENTER] + body + pops + [M.OP_SCOPE_EXIT]);
  }

  /** `c` after the condition, `m` after the block; the branch is patched to what follows. */
  lemma IfBuilt(e: Expr, t: Stmt, a: Work, c: Work, m: Work)
    requires Evaluated(e, a, c) && t.Blk? && Built(t, c.(code := c.code + [M.OP_JZ, 0]), m)
    ensures |m.code| >= |c.code| + 2
    ensures Built(If(e, t, Skip), a, m.(code := m.code[|c.code| + 1 := |m.code|]))
  {
    hide GenStmt, GenExpr, StmtSettled, Settled, Sites, Recorded, OneBranch;
    SettledStays(e, c.ln, m.ln, |a.code|);
    IfSites(e, t, Skip, a.cx, m.ln, |a.code|, true);
    IfSites(e, t, Skip, a.cx, m.ln, |a.code|, false);
    StmtCode(If(e, t, Skip), a.cx, m.ln, |a.code|);
    SkipSites(a.cx.(depth := m.cx.depth), m.ln);
    var cc, ct := GenExpr(e, m.ln, |a.code|), GenStmt(t, a.cx, m.ln, |c.code| + 2);
    assert m.code == a.code + cc + [M.OP_JZ, 0] + ct;
    assert m.code[|c.code| + 1 := |m.code|] == a.code + (cc + [M.OP_JZ, |m.code|] + ct);
    OneBranchIs(cc, |m.code|, ct);
    SettledIf(e, t, Skip, m.ln);
    assert forall bs: seq<int> :: bs + [] == bs;
  }

  lemma OneBranchIs(cc: seq<int>, els: int, ct: seq<int>)
    ensures OneBranch(cc, els, ct) == cc + [M.OP_JZ, els] + ct
  {
  }

  lemma SkipSites(cx: Ctx, ln: Link)
    ensures forall base, brk :: Sites(Skip, cx, ln, base, brk) == []
    ensures StmtSettled(Skip, ln) && After(Skip, cx) == cx
  {
  }

  lemma SettledIf(c: Expr, t: Stmt, e: Stmt, ln: Link)
    requires Settled(c, ln) && StmtSettled(t, ln) && StmtSettled(e, ln)
    ensures StmtSettled(If(c, t, e), ln)
  {
  }

  /** The same with an else part, from `j` (after the jump over it) to `n`. */
  lemma IfElseBuilt(e: Expr, t: Stmt, f: Stmt, a: Work, c: Work, m: Work, n: Work)
    requires Evaluated(e, a, c) && t.Blk? && Built(t, c.(code := c.code + [M.OP_JZ, 0]), m) && !f.Skip?
    requires |m.code| >= |c.code| + 2
    requires Built(f, m.(code := (m.code + [M.OP_JMP, 0])[|c.code| + 1 := |m.code| + 2]), n)
    ensures |n.code| >= |m.code| + 2
    ensures Built(If(e, t, f), a, n.(code := n.code[|m.code| + 1 := |n.code|]))
  {
    hide GenStmt, GenExpr, StmtSettled, Settled, Sites, Recorded, Branches;
    SettledStays(e, c.ln, n.ln, |a.code|);
    SameStmt(t, a.cx, m.ln, n.ln, |c.code| + 2);
    SameSites(t, a.cx, m.ln, n.ln, |c.code| + 2, true);
    SameSites(t, a.cx, m.ln, n.ln, |c.code| + 2, false);
    IfSites(e, t, f, a.cx, n.ln, |a.code|, true);
    IfSites(e, t, f, a.cx, n.ln, |a.code|, false);
    StmtCode(If(e, t, f), a.cx, n.ln, |a.code|);
    SettledIf(e, t, f, n.ln);
    var k := |c.code| + 2;
    assert m.cx == a.cx.(depth := m.cx.depth);
    RecordedTwice(a.loops, Sites(t, a.cx, n.ln, k, true), Sites(t, a.cx, n.ln, k, false),
                  Sites(f, m.cx, n.ln, |m.code| + 2, true), Sites(f, m.cx, n.ln, |m.code| + 2, false));
    IfElseCode(a.code, GenExpr(e, n.ln, |a.code|), GenStmt(t, a.cx, n.ln, k), GenStmt(f, m.cx, n.ln, |m.code| + 2));
  }

  lemma IfElseCode(code: seq<int>, cc: seq<int>, ct: seq<int>, cf: seq<int>)
    ensures var m := code + cc + [M.OP_JZ, 0] + ct;
      var j := (m + [M.OP_JMP, 0])[|code + cc| + 1 := |m| + 2];
      var n := j + cf;
      n[|m| + 1 := |n|] == code + Branches(cc, |m| + 2, ct, |n|, cf)
  {
    var m := code + cc + [M.OP_JZ, 0] + ct;
    var j := (m + [M.OP_JMP, 0])[|code + cc| + 1 := |m| + 2];
    assert j == code + cc + [M.OP_JZ, |m| + 2] + ct + [M.OP_JMP, 0];
  }

  // ---- Loops ----

  function Open(cx: Ctx, loops: seq<LoopControl>): seq<LoopControl> {
    loops + [LoopControl(cx.depth, cx.locals, [], [])]
  }

  /** pop_loop on a loop whose body lies between `s` and `m`: all its jumps now go where they should. */
  lemma BodyPatched(b: Stmt, s: Work, m: Work, ln: Link, pre: seq<int>, post: seq<int>, code: seq<int>, brk: int, cont: int)
    requires Built(b, s, m) && Extends(m.ln, ln) && |s.cx.loops| > 0 && |pre| == |s.code|
    requires s.loops != [] && s.loops[|s.loops| - 1].breaks == [] && s.loops[|s.loops| - 1].continues == []
    requires var l := m.loops[|m.loops| - 1];
      Patched(pre + GenStmt(b, s.cx, ln, |pre|) + post, code, 0, l.breaks, l.continues, brk, cont)
    ensures code == pre + GenStmt(b, Aim(s.cx, brk, cont), ln, |pre|) + post && StmtSettled(b, ln)
    ensures m.loops[..|m.loops| - 1] == s.loops[..|s.loops| - 1]
  {
    hide GenStmt, StmtSettled, Sites, After, Aim, Patched;
    var base := |pre|;
    var bs, cs := Sites(b, s.cx, ln, base, true), Sites(b, s.cx, ln, base, false);
    SameStmt(b, s.cx, m.ln, ln, base);
    SameSites(b, s.cx, m.ln, ln, base, true);
    SameSites(b, s.cx, m.ln, ln, base, false);
    assert [] + bs == bs && [] + cs == cs;
    var g, g' := GenStmt(b, s.cx, ln, base), GenStmt(b, Aim(s.cx, brk, cont), ln, base);
    Retarget(b, s.cx, ln, base, brk, cont);
    PatchedWithin(pre, g, g', post, 0, bs, cs, brk, cont);
    PatchedOnce(pre + g + post, pre + g' + post, code, 0, bs, cs, brk, cont);
  }

  lemma PatchedOnce(g: seq<int>, g1: seq<int>, g2: seq<int>, base: int, bs: seq<int>, cs: seq<int>, brk: int, cont: int)
    requires Patched(g, g1, base, bs, cs, brk, cont) && Patched(g, g2, base, bs, cs, brk, cont)
    ensures g1 == g2
  {
  }

  lemma AimLoop(cx: Ctx, brk: int, cont: int)
    ensures |InLoop(cx, 0, 0).loops| > 0 && Aim(InLoop(cx, 0, 0), brk, cont) == InLoop(cx, brk, cont)
    ensures |CondCtx(cx, 0, 0).loops| > 0 && Aim(CondCtx(cx, 0, 0), brk, cont) == CondCtx(cx, brk, cont)
  {
  }

  /** No cells of a loop belong to the loop around it. */
  lemma LoopBuilt(s: Stmt, a: Work, z: Work)
    requires s.Forever? || s.ForIn? || s.ForCond?
    requires Later(a, z) && StmtSettled(s, z.ln) && z.cx == After(s, a.cx) && z.loops == a.loops
    requires z.code == a.code + GenStmt(s, a.cx, z.ln, |a.code|)
    ensures Built(s, a, z)
  {
    hide GenStmt, StmtSettled, After;
    RecordedTwice(a.loops, [], [], [], []);
  }

  /** `m` after the body, `code` after the back jump and pop_loop. */
  lemma ForeverBuilt(b: Stmt, a: Work, m: Work, code: seq<int>)
    requires b.Blk? && Built(b, a.(cx := InLoop(a.cx, 0, 0), loops := Open(a.cx, a.loops)), m)
    requires var l := m.loops[|m.loops| - 1];
      Patched(m.code + [M.OP_JMP, |a.code|], code, 0, l.breaks, l.continues, |m.code| + 2, |a.code|)
    ensures Built(Forever(b), a, Work(code, m.ln, a.cx.(depth := m.cx.depth), m.loops[..|m.loops| - 1]))
  {
    hide GenStmt, StmtSettled, Sites, After, Aim, Patched, InLoop;
    var s := a.(cx := InLoop(a.cx, 0, 0), loops := Open(a.cx, a.loops));
    var brk, cont := |m.code| + 2, |a.code|;
    AimLoop(a.cx, brk, cont);
    BodyPatched(b, s, m, m.ln, a.code, [M.OP_JMP, |a.code|], code, brk, cont);
    StmtCode(Forever(b), a.cx, m.ln, |a.code|);
    ForeverParts(b, a.cx, m.ln);
    var z := Work(code, m.ln, a.cx.(depth := m.cx.depth), a.loops);
    LoopBuilt(Forever(b), a, z) by {
      var g := GenStmt(b, InLoop(a.cx, brk, cont), m.ln, |a.code|);
      assert a.code + g + [M.OP_JMP, |a.code|] == a.code + (g + [M.OP_JMP, |a.code|]);
    }
    assert m.loops[..|m.loops| - 1] == a.loops;
  }

  lemma ForeverParts(b: Stmt, cx: Ctx, ln: Link)
    requires StmtSettled(b, ln)
    ensures StmtSettled(Forever(b), ln)
    ensures After(Forever(b), cx) == cx.(depth := After(b, InLoop(cx, 0, 0)).depth)
  {
    AfterForever(b, cx);
    hide After;
  }

  lemma AfterForever(b: Stmt, cx: Ctx)
    ensures var r := After(Forever(b), cx);
      r.depth == After(b, InLoop(cx, 0, 0)).depth && r.locals == cx.locals
  {
    hide InLoop;
  }

  /** `h` after the loop's variables, `m` after the body; `ln` is the pool after the increment; the exit
      test is patched before the variables are popped, breaks and continues after. */
  lemma ForInBuilt(reuse: Option<nat>, e: Expr, b: Stmt, a: Work, h: Work, m: Work, ln: Link, code: seq<int>)
    requires Later(a, h) && h.loops == a.loops && h.cx == ForCtx(a.cx, reuse)
    requires 0 in h.ln.consts && Settled(e, h.ln) && h.code == a.code + ForHead(reuse, e, h.ln, |a.code|)
    requires var n := h.cx.locals;
      Built(b, Work(h.code + ForTest(n, LoopVar(reuse, a.cx), 0), h.ln, InLoop(h.cx, 0, 0), Open(h.cx, h.loops)), m)
    requires b.Blk? && Extends(m.ln, ln) && ln.addrs == m.ln.addrs && 1 in ln.consts
    requires |m.code| >= |h.code| + FOR_TEST_SIZE
    requires var l, n, cont := m.loops[|m.loops| - 1], h.cx.locals, |m.code|;
      Patched((m.code + ForNext(n, |h.code|, ln))[|h.code| + 7 := cont + FOR_NEXT_SIZE]
              + (Times(M.OP_POP, n - a.cx.locals) + [M.OP_SCOPE_EXIT]),
              code, 0, l.breaks, l.continues, cont + FOR_NEXT_SIZE, cont)
    ensures Built(ForIn(reuse, e, b), a, Work(code, ln, a.cx.(depth := m.cx.depth - 1), m.loops[..|m.loops| - 1]))
  {
    hide GenStmt, GenExpr, StmtSettled, Settled, Sites, After, Aim, Patched, InLoop, ForHead, ForTest, ForNext, Times;
    var n, x := h.cx.locals, LoopVar(reuse, a.cx);
    var s := Work(h.code + ForTest(n, x, 0), h.ln, InLoop(h.cx, 0, 0), Open(h.cx, h.loops));
    var cont, brk := |m.code|, |m.code| + FOR_NEXT_SIZE;
    AimLoop(h.cx, brk, cont);
    var pre, post := h.code + ForTest(n, x, brk), ForNext(n, |h.code|, ln) + (Times(M.OP_POP, n - a.cx.locals) + [M.OP_SCOPE_EXIT]);
    SameStmt(b, s.cx, m.ln, ln, |s.code|);
    var g := GenStmt(b, s.cx, ln, |s.code|);
    ExitPatched(h.code, n, x, brk, g, ForNext(n, |h.code|, ln), Times(M.OP_POP, n - a.cx.locals) + [M.OP_SCOPE_EXIT]);
    BodyPatched(b, s, m, ln, pre, post, code, brk, cont);
    HeadSame(reuse, e, h.ln, ln, |a.code|);
    ForInParts(reuse, e, b, a.cx, ln) by {
      assert ln.consts[ConstIndex(h.ln.consts, 0)] == 0;
    }
    StmtCode(ForIn(reuse, e, b), a.cx, ln, |a.code|);
    AimSize(b, s.cx, ln, |s.code|, brk, cont);
    LoopBuilt(ForIn(reuse, e, b), a, Work(code, ln, a.cx.(depth := m.cx.depth - 1), a.loops)) by {
      var g' := GenStmt(b, InLoop(h.cx, brk, cont), ln, |pre|);
      var head := ForHead(reuse, e, ln, |a.code|);
      assert a.code + head + ForTest(n, x, brk) + g' + post
          == a.code + ForLoop(head, ForTest(n, x, brk), g', ForNext(n, |h.code|, ln), n - a.cx.locals);
    }
    assert m.loops[..|m.loops| - 1] == a.loops;
  }

  lemma ExitPatched(h: seq<int>, n: nat, x: nat, brk: int, g: seq<int>, next: seq<int>, rest: seq<int>)
    requires n >= 2
    ensures (h + ForTest(n, x, 0) + g + next)[|h| + 7 := brk] + rest == h + ForTest(n, x, brk) + g + (next + rest)
  {
    assert ForTest(n, x, 0)[7 := brk] == ForTest(n, x, brk);
  }

  lemma AimSize(b: Stmt, cx: Ctx, ln: Link, base: int, brk: int, cont: int)
    requires |cx.loops| > 0
    ensures |GenStmt(b, Aim(cx, brk, cont), ln, base)| == |GenStmt(b, cx, ln, base)|
  {
    hide GenStmt;
    SizeShape(b, cx, Aim(cx, brk, cont), ln, base);
  }

  lemma ForInParts(reuse: Option<nat>, e: Expr, b: Stmt, cx: Ctx, ln: Link)
    requires StmtSettled(b, ln) && Settled(e, ln) && 0 in ln.consts && 1 in ln.consts
    ensures StmtSettled(ForIn(reuse, e, b), ln)
    ensures After(ForIn(reuse, e, b), cx) == cx.(depth := After(b, InLoop(ForCtx(cx, reuse), 0, 0)).depth - 1)
  {
    AfterForIn(reuse, e, b, cx);
    hide After, Settled;
  }

  lemma AfterForIn(reuse: Option<nat>, e: Expr, b: Stmt, cx: Ctx)
    ensures var r := After(ForIn(reuse, e, b), cx);
      r.depth == After(b, InLoop(ForCtx(cx, reuse), 0, 0)).depth - 1 && r.locals == cx.locals
  {
    hide InLoop, ForCtx;
  }

  /** The end of the body and the back jump. */
  function CondTail(pops: nat, loop: int): (c: seq<int>)
    ensures |c| == pops + 3
  {
    Times(M.OP_POP, pops) + [M.OP_SCOPE_EXIT] + [M.OP_JMP, loop]
  }

  /** `c` after the condition, `m` after the body's statements. */
  lemma ForCondBuilt(e: Expr, b: Stmt, a: Work, c: Work, m: Work, code: seq<int>)
    requires Evaluated(e, Work(a.code + [M.OP_SCOPE_ENTER] + [M.OP_SCOPE_ENTER], a.ln, CondCtx(a.cx, 0, 0), Open(Enter(a.cx), a.loops)), c)
    requires Built(b, c.(code := c.code + [M.OP_JZ, 0]), m) && |m.code| >= |c.code| + 2 && m.cx.locals >= a.cx.locals
    requires var l, pops := m.loops[|m.loops| - 1], m.cx.locals - a.cx.locals;
      var cont := |m.code| + pops + 1;
      Patched((m.code + CondTail(pops, |a.code| + 1))[|c.code| + 1 := cont + 2] + [M.OP_SCOPE_EXIT, M.OP_SCOPE_EXIT], code, 0, l.breaks, l.continues, cont + 3, cont)
    ensures Built(ForCond(e, b), a, Work(code, m.ln, a.cx.(depth := m.cx.depth - 3), m.loops[..|m.loops| - 1]))
  {
    hide GenStmt, GenExpr, StmtSettled, Settled, Sites, After, Aim, Patched, CondCtx, CondTail, CondLoop;
    var s := c.(code := c.code + [M.OP_JZ, 0]);
    var pops := m.cx.locals - a.cx.locals;
    var cont, brk := |m.code| + pops + 1, |m.code| + pops + 4;
    AimLoop(a.cx, brk, cont);
    var pre := c.code + [M.OP_JZ, cont + 2];
    var post := CondTail(pops, |a.code| + 1) + [M.OP_SCOPE_EXIT, M.OP_SCOPE_EXIT];
    var g := GenStmt(b, s.cx, m.ln, |pre|);
    CondExitPatched(c.code, g, CondTail(pops, |a.code| + 1), cont + 2);
    BodyPatched(b, s, m, m.ln, pre, post, code, brk, cont);
    SettledStays(e, c.ln, m.ln, |a.code| + 2);
    ForCondParts(e, b, a.cx, m.ln);
    StmtCode(ForCond(e, b), a.cx, m.ln, |a.code|);
    AimSize(b, s.cx, m.ln, |pre|, brk, cont);
    LoopBuilt(ForCond(e, b), a, Work(code, m.ln, a.cx.(depth := m.cx.depth - 3), a.loops)) by {
      var g' := GenStmt(b, CondCtx(a.cx, brk, cont), m.ln, |pre|);
      var cc := GenExpr(e, m.ln, |a.code| + 2);
      CondLoopIs(a.code, cc, cont + 2, g', pops, |a.code| + 1);
    }
    assert m.loops[..|m.loops| - 1] == a.loops;
  }

  lemma CondExitPatched(c: seq<int>, g: seq<int>, tail: seq<int>, exit: int)
    ensures (c + [M.OP_JZ, 0] + g + tail)[|c| + 1 := exit] + [M.OP_SCOPE_EXIT, M.OP_SCOPE_EXIT]
      == c + [M.OP_JZ, exit] + g + (tail + [M.OP_SCOPE_EXIT, M.OP_SCOPE_EXIT])
  {
  }

  lemma CondLoopIs(code: seq<int>, cc: seq<int>, exit: int, g: seq<int>, pops: nat, loop: int)
    ensures code + [M.OP_SCOPE_ENTER] + [M.OP_SCOPE_ENTER] + cc + [M.OP_JZ, exit] + g
            + (CondTail(pops, loop) + [M.OP_SCOPE_EXIT, M.OP_SCOPE_EXIT])
      == code + CondLoop(cc, exit, g, pops, loop)
  {
    hide Times;
    assert code + CondLoop(cc, exit, g, pops, loop)
      == code + [M.OP_SCOPE_ENTER] + [M.OP_SCOPE_ENTER] + cc + [M.OP_JZ, exit] + g
         + Times(M.OP_POP, pops) + [M.OP_SCOPE_EXIT] + [M.OP_JMP, loop] + [M.OP_SCOPE_EXIT] + [M.OP_SCOPE_EXIT];
  }

  lemma ForCondParts(e: Expr, b: Stmt, cx: Ctx, ln: Link)
    requires StmtSettled(b, ln) && Settled(e, ln)
    ensures StmtSettled(ForCond(e, b), ln)
    ensures After(ForCond(e, b), cx) == cx.(depth := After(b, CondCtx(cx, 0, 0)).depth - 3)
  {
    AfterForCond(e, b, cx);
    hide After, Settled;
  }

  lemma AfterForCond(e: Expr, b: Stmt, cx: Ctx)
    ensures var r := After(ForCond(e, b), cx);
      r.depth == After(b, CondCtx(cx, 0, 0)).depth - 3 && r.locals == cx.locals
  {
    hide CondCtx;
  }
}
