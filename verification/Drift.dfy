/** The compile-time scope counter and the condition-form `for`: it enters two scopes and leaves
    three (src/compiler.c:1988, 2081, 2099, 2107, 2117), so a break or continue compiled after one in
    the same loop body leaves too few scopes (src/compiler.c:413-451). */
module Drift {
  import opened Arenas
  import M = Machine
  import opened Frames
  import opened Instructions
  import opened Language
  import opened Codegen
  import opened Simulation
  import Protection

  /** Condition-form loops in a statement. */
  function Conds(s: Stmt): nat {
    match s
    case Then(a, b) => Conds(a) + Conds(b)
    case Blk(b) => Conds(b)
    case If(_, t, e) => Conds(t) + Conds(e)
    case Forever(b) => Conds(b)
    case ForIn(_, _, b) => Conds(b)
    case ForCond(_, b) => Conds(b) + 1
    case _ => 0
  }

  /** Every condition-form loop lowers the counter by one for good. */
  lemma {:induction false} CounterDrifts(s: Stmt, cx: Ctx)
    ensures After(s, cx).depth == cx.depth - Conds(s)
    decreases s
  {
    match s
    case Then(a, b) => CounterDrifts(a, cx); CounterDrifts(b, After(a, cx));
    case Blk(b) => CounterDrifts(b, Enter(cx));
    case If(_, t, e) => CounterDrifts(t, cx); CounterDrifts(e, cx.(depth := After(t, cx).depth));
    case Forever(b) => CounterDrifts(b, InLoop(cx, 0, 0));
    case ForIn(reuse, _, b) => CounterDrifts(b, InLoop(ForCtx(cx, reuse), 0, 0));
    case ForCond(_, b) => CounterDrifts(b, CondCtx(cx, 0, 0));
    case _ =>
  }

  /** The condition one can read off the source: no break or continue follows a condition-form `for`
      in the body of the loop it belongs to. `d` counts the condition-form loops compiled since
      that body began, and is negative outside loops. */
  predicate Straight(s: Stmt, d: int)
    decreases s
  {
    match s
    case Then(a, b) => Straight(a, d) && Straight(b, Later(a, d))
    case Blk(b) => Straight(b, d)
    case If(_, t, e) => Straight(t, d) && Straight(e, Later(t, d))
    case Forever(b) => Straight(b, 0)
    case ForIn(_, _, b) => Straight(b, 0)
    case ForCond(_, b) => Straight(b, 0)
    case Break => d == 0
    case Continue => d == 0
    case _ => true
  }

  function Later(s: Stmt, d: int): int {
    if d < 0 then d else d + Conds(s)
  }

  /** What the grammar guarantees, scope counts aside. */
  predicate Shaped(s: Stmt, cx: Ctx)
    decreases s
  {
    match s
    case Then(a, b) => Shaped(a, cx) && Shaped(b, After(a, cx))
    case Blk(b) => Shaped(b, Enter(cx))
    case If(_, t, e) =>
      && t.Blk? && (e.Skip? || e.Blk? || e.If?)
      && Shaped(t, cx) && Shaped(e, cx.(depth := After(t, cx).depth))
    case Forever(b) => b.Blk? && Shaped(b, InLoop(cx, 0, 0))
    case ForIn(reuse, _, b) =>
      && b.Blk? && (reuse.Some? ==> reuse.value < cx.locals)
      && Shaped(b, InLoop(ForCtx(cx, reuse), 0, 0))
    case ForCond(_, b) => Shaped(b, CondCtx(cx, 0, 0))
    case _ => true
  }

  /** `d` is how far the counter lags behind the scopes opened since the innermost loop. */
  ghost predicate Lags(cx: Ctx, d: int) {
    if |cx.loops| == 0 then d < 0
    else
      var l := cx.loops[|cx.loops| - 1];
      && 0 <= d == (|cx.marks| - l.open) - (cx.depth - l.depth)
      && l.open <= |cx.marks| && l.locals <= cx.locals
  }

  /** In a loop, some scope of its body is open. */
  ghost predicate Within(cx: Ctx) {
    |cx.loops| > 0 ==> cx.loops[|cx.loops| - 1].open < |cx.marks|
  }

  /** Every break and continue leaves exactly the loop's scopes if and only if none follows a
      condition-form `for` in its loop body. */
  lemma {:induction false} AlignedIffStraight(s: Stmt, cx: Ctx, d: int)
    requires Lags(cx, d) && (Within(cx) || s.Blk?)
    ensures Formed(s, cx) <==> Shaped(s, cx) && Straight(s, d)
    decreases s
  {
    match s
    case Then(a, b) =>
      AlignedIffStraight(a, cx, d);
      CounterDrifts(a, cx);
      AlignedIffStraight(b, After(a, cx), Later(a, d));
    case Blk(b) => AlignedIffStraight(b, Enter(cx), d);
    case If(_, t, e) =>
      AlignedIffStraight(t, cx, d);
      CounterDrifts(t, cx);
      AlignedIffStraight(e, cx.(depth := After(t, cx).depth), Later(t, d));
    case Forever(b) =>
      if b.Blk? { AlignedIffStraight(b, InLoop(cx, 0, 0), 0); }
    case ForIn(reuse, _, b) =>
      if b.Blk? { AlignedIffStraight(b, InLoop(ForCtx(cx, reuse), 0, 0), 0); }
    case ForCond(_, b) => AlignedIffStraight(b, CondCtx(cx, 0, 0), 0);
    case _ =>
  }

  /** For a whole function body. */
  lemma BodyFormedIff(fn: Func)
    ensures Formed(fn.body, BodyCtx(fn.arity)) <==> Shaped(fn.body, BodyCtx(fn.arity)) && Straight(fn.body, -1)
  {
    AlignedIffStraight(fn.body, BodyCtx(fn.arity), -1);
  }

  function Min(x: int, y: int): int {
    if x < y then x else y
  }

  /** What the emitted code does when the counter lags by `d`: it arrives at its target with the
      loop's locals, but `d` of the scopes opened in the body (or all of them) stay open. */
  lemma ShortUnwind(p: Program, fr: Frame, s: State, cx: Ctx, vs: seq<Value>, target: int, d: int)
    returns (t: State)
    requires InFrame(fr, s, cx.marks, |vs|, vs) && |vs| == cx.locals
    requires |cx.loops| > 0 && Lags(cx, d) && Within(cx)
    requires Has(p, s.ip, Unwind(cx, target))
    ensures Reach(p, s, t) && t.ip == target
    ensures var l := cx.loops[|cx.loops| - 1];
      && |t.stack| == |fr.low| + l.locals
      && |t.scopes| == |fr.base| + l.open + Min(d, |cx.marks| - l.open)
  {
    hide InFrame, Has, Reach, Fails, Times, M.ValidState, Exits, M.Step;
    var l := cx.loops[|cx.loops| - 1];
    var k, m := AtLeast0(cx.depth - l.depth), cx.locals - l.locals;
    var cu := Times(M.OP_SCOPE_EXIT, cx.depth - l.depth) + Times(M.OP_POP, m);
    HasSplit(p, s.ip, cu, [M.OP_JMP, target]);
    assert Times(M.OP_SCOPE_EXIT, cx.depth - l.depth) == Times(M.OP_SCOPE_EXIT, k);
    FrameCounts(fr, s, cx.marks, vs);
    UnwindRun(p, s, k, m);
    var u := Unwinding(s, k, m);
    assert |cu| == k + m;
    JumpStep(p, u, target);
    var ok, t1 := Stepped(p, u);
    Chain(p, s, u, true, t1);
    t := t1;
  }

  lemma JumpStep(p: Program, u: State, target: int)
    requires M.ValidState(u) && Has(p, u.ip, [M.OP_JMP, target])
    ensures M.Step(p, u) == M.Next(u.(ip := target))
  {
    Fetch(p, u, M.OP_JMP, target);
  }

  lemma FrameCounts(fr: Frame, s: State, marks: seq<nat>, vs: seq<Value>)
    requires InFrame(fr, s, marks, |vs|, vs)
    ensures M.ValidState(s) && |s.stack| == |fr.low| + |vs| && |s.scopes| == |fr.base| + |marks|
    ensures forall i :: 0 <= i < |s.scopes| ==> s.scopes[i].arena == s.cur
  {
    ArenasOk(fr, s, marks, vs);
    hide Protection.Guarded;
  }

  /** A program whose `continue` is not aligned: forever { for (0) {} continue }. */
  lemma LaggingContinue()
    ensures var body := Forever(Blk(Then(ForCond(Lit(0), Skip), Continue)));
      Shaped(body, BodyCtx(0)) && !Formed(body, BodyCtx(0))
  {
    var loop := Then(ForCond(Lit(0), Skip), Continue);
    BodyFormedIff(Func(0, Forever(Blk(loop))));
    assert !Straight(loop, 0);
  }

  /** What that `continue` does: it jumps back with one scope more than the loop was entered with, so
      every iteration leaves one behind. */
  lemma LaggingLeaks(p: Program, ln: Link, fr: Frame, s: State, vs: seq<Value>, brk: int, cont: int) returns (t: State)
    requires var lx := InLoop(BodyCtx(0), brk, cont);
      var cx := After(ForCond(Lit(0), Skip), Enter(lx));
      InFrame(fr, s, cx.marks, |vs|, vs) && |vs| == cx.locals && Has(p, s.ip, GenStmt(Continue, cx, ln, s.ip))
    ensures Reach(p, s, t) && t.ip == cont && |t.stack| == |fr.low|
    ensures |t.scopes| == |fr.base| + |BodyCtx(0).marks| + 1
  {
    hide InFrame, Has, Reach, Unwind;
    var lx := InLoop(BodyCtx(0), brk, cont);
    var cx := After(ForCond(Lit(0), Skip), Enter(lx));
    CounterDrifts(ForCond(Lit(0), Skip), Enter(lx));
    assert cx.loops == lx.loops && cx.marks == [0, 0] && cx.locals == 0;
    assert Lags(cx, 1) && Within(cx);
    t := ShortUnwind(p, fr, s, cx, vs, cont, 1);
  }
}
