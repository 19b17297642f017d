/** The bytecode that belongs to a function body, every jump already pointing at its target
    (src/compiler.c:395-451, 873-896, 1142-1254, 1833-1935, 1979-2120, 2358-2478). */
module Codegen {
  import opened Defines
  import opened Machine
  import opened Language

  /** Function addresses and the constant pool. */
  datatype Link = Link(addrs: seq<int>, consts: seq<int>)

  /** LoopControl: the compile-time scope depth and local count at the loop body, and the jump
      targets. `open` is the number of scopes that are really open there. */
  datatype LoopCtx = LoopCtx(depth: int, locals: nat, open: nat, brk: int, cont: int)

  /** What the compiler tracks at a point: local_count, current_scope_depth and the loop stack; and
      `marks`, the local counts at which the scopes really open at that point were entered. */
  datatype Ctx = Ctx(locals: nat, depth: int, loops: seq<LoopCtx>, marks: seq<nat>)

  /** make_const returns the first index that holds the value. */
  function ConstIndex(consts: seq<int>, n: int): (i: nat)
    ensures n in consts ==> i < |consts| && consts[i] == n
    ensures i <= |consts|
    ensures forall j :: 0 <= j < i ==> consts[j] != n
  {
    if consts == [] || consts[0] == n then 0 else 1 + ConstIndex(consts[1..], n)
  }

  function PushConst(n: int, ln: Link): (c: seq<int>)
    ensures |c| == 2
  {
    [OP_PSH_NUM, ConstIndex(ln.consts, n)]
  }

  function FuncAddr(f: nat, ln: Link): int {
    if f < |ln.addrs| then ln.addrs[f] else 0
  }

  function AtLeast0(n: int): nat {
    if n < 0 then 0 else n
  }

  function Times(op: int, n: int): (c: seq<int>)
    ensures |c| == AtLeast0(n)
    ensures forall i :: 0 <= i < |c| ==> c[i] == op
  {
    if n <= 0 then [] else [op] + Times(op, n - 1)
  }

  /** A condition, a jump over the first branch, and a jump over the second. */
  function Branches(c: seq<int>, els: int, t: seq<int>, end: int, f: seq<int>): (r: seq<int>)
    ensures |r| == |c| + |t| + |f| + 4
  {
    c + [OP_JZ, els] + t + [OP_JMP, end] + f
  }

  function OneBranch(c: seq<int>, els: int, t: seq<int>): (r: seq<int>)
    ensures |r| == |c| + |t| + 2
  {
    c + [OP_JZ, els] + t
  }

  function Braced(body: seq<int>, pops: nat): (r: seq<int>)
    ensures |r| == |body| + pops + 2
  {
    [OP_SCOPE_ENTER] + body + Times(OP_POP, pops) + [OP_SCOPE_EXIT]
  }

  function Endless(body: seq<int>, loop: int): (r: seq<int>)
    ensures |r| == |body| + 2
  {
    body + [OP_JMP, loop]
  }

  function ForLoop(head: seq<int>, test: seq<int>, body: seq<int>, next: seq<int>, pops: nat): (r: seq<int>)
    ensures |r| == |head| + |test| + |body| + |next| + pops + 1
  {
    head + test + body + next + Times(OP_POP, pops) + [OP_SCOPE_EXIT]
  }

  function CondLoop(c: seq<int>, exit: int, body: seq<int>, pops: nat, loop: int): (r: seq<int>)
    ensures |r| == |c| + |body| + pops + 9
  {
    [OP_SCOPE_ENTER] + [OP_SCOPE_ENTER] + c + [OP_JZ, exit] + body + Times(OP_POP, pops) + [OP_SCOPE_EXIT]
    + [OP_JMP, loop] + [OP_SCOPE_EXIT] + [OP_SCOPE_EXIT]
  }

  function GenExpr(e: Expr, ln: Link, base: int): seq<int>
    decreases e, 0
  {
    match e
    case Lit(n) => PushConst(n, ln)
    case Bool(b) => PushConst(Bit(b), ln)
    case Var(x) => [OP_LVAR, x]
    case Neg(e1) =>
      if e1.Lit? then PushConst(0 - e1.n, ln)
      else PushConst(0, ln) + GenExpr(e1, ln, base + 2) + [OP_SUB]
    case Bin(op, l, r) =>
      var cl := GenExpr(l, ln, base);
      cl + GenExpr(r, ln, base + |cl|) + [OpCode(op)]
    case Cond(c, t, f) =>
      var cc := GenExpr(c, ln, base);
      var ct := GenExpr(t, ln, base + |cc| + 2);
      var els := base + |cc| + 2 + |ct| + 2;
      var cf := GenExpr(f, ln, els);
      Branches(cc, els, ct, els + |cf|, cf)
    case List(es) => GenExprs(es, ln, base) + [OP_ARR, |es|]
    case Index(a, i) =>
      var ca := GenExpr(a, ln, base);
      ca + GenExpr(i, ln, base + |ca|) + [OP_AGET]
    case Span(a, lo, hi) =>
      var ca := GenExpr(a, ln, base);
      var cl := GenExpr(lo, ln, base + |ca|);
      ca + cl + GenExpr(hi, ln, base + |ca| + |cl|) + [OP_SLICE]
    case Call(f, args) => GenExprs(args, ln, base) + [OP_CALL, FuncAddr(f, ln), |args|]
  }

  function GenExprs(es: seq<Expr>, ln: Link, base: int): seq<int>
    decreases es, 0
  {
    if es == [] then []
    else
      var c := GenExpr(es[0], ln, base);
      c + GenExprs(es[1..], ln, base + |c|)
  }

  function Enter(cx: Ctx): Ctx {
    cx.(depth := cx.depth + 1, marks := cx.marks + [cx.locals])
  }

  function InLoop(cx: Ctx, brk: int, cont: int): Ctx {
    cx.(loops := cx.loops + [LoopCtx(cx.depth, cx.locals, |cx.marks|, brk, cont)])
  }

  /** The context of a `for (x in e)` after its variables were allocated. */
  function ForCtx(cx: Ctx, reuse: Option<nat>): Ctx {
    Enter(cx).(locals := cx.locals + (if reuse.None? then 3 else 2))
  }

  /** The context of the condition and body of a condition-form `for`. */
  function CondCtx(cx: Ctx, brk: int, cont: int): Ctx {
    Enter(InLoop(Enter(cx), brk, cont))
  }

  /** local_count and current_scope_depth after compiling `s`. A condition-form `for` enters two
      scopes and leaves three. */
  function After(s: Stmt, cx: Ctx): (r: Ctx)
    ensures r.loops == cx.loops && r.marks == cx.marks && cx.locals <= r.locals
    decreases s
  {
    match s
    case Then(a, b) => After(b, After(a, cx))
    case Decl(_) => cx.(locals := cx.locals + 1)
    case Blk(b) => cx.(depth := After(b, Enter(cx)).depth - 1)
    case If(_, t, e) => After(e, cx.(depth := After(t, cx).depth))
    case Forever(b) => cx.(depth := After(b, InLoop(cx, 0, 0)).depth)
    case ForIn(reuse, _, b) => cx.(depth := After(b, InLoop(ForCtx(cx, reuse), 0, 0)).depth - 1)
    case ForCond(_, b) => cx.(depth := After(b, CondCtx(cx, 0, 0)).depth - 3)
    case _ => cx
  }

  /** emit_break and emit_continue. */
  function Unwind(cx: Ctx, target: int): (c: seq<int>)
    requires |cx.loops| > 0
    ensures var l := cx.loops[|cx.loops| - 1];
      |c| == AtLeast0(cx.depth - l.depth) + AtLeast0(cx.locals - l.locals) + 2
  {
    var l := cx.loops[|cx.loops| - 1];
    Times(OP_SCOPE_EXIT, cx.depth - l.depth) + Times(OP_POP, cx.locals - l.locals) + [OP_JMP, target]
  }

  /** The loop variable of `for (x in e)`: a new slot holding 0, or an existing one. */
  function LoopVar(reuse: Option<nat>, cx: Ctx): nat {
    if reuse.None? then cx.locals else reuse.value
  }

  /** Everything of `for (x in e)` up to the loop test, which starts after it. */
  function ForHead(reuse: Option<nat>, e: Expr, ln: Link, base: int): seq<int> {
    var z := if reuse.None? then PushConst(0, ln) else [];
    [OP_SCOPE_ENTER] + z + GenExpr(e, ln, base + 1 + |z|) + PushConst(0, ln)
  }

  const FOR_TEST_SIZE: nat := 15
  const FOR_NEXT_SIZE: nat := 9

  /** Slot `n - 2` holds the array and slot `n - 1` the position. */
  function ForTest(n: nat, x: nat, exit: int): (c: seq<int>)
    requires n >= 2
    ensures |c| == FOR_TEST_SIZE
  {
    [OP_LVAR, n - 1] + [OP_LVAR, n - 2] + [OP_ALEN] + [OP_LT] + [OP_JZ, exit]
    + [OP_LVAR, n - 2] + [OP_LVAR, n - 1] + [OP_IT_DEF] + [OP_SVAR, x]
  }

  function ForNext(n: nat, loop: int, ln: Link): (c: seq<int>)
    requires n >= 2
    ensures |c| == FOR_NEXT_SIZE
  {
    [OP_LVAR, n - 1] + PushConst(1, ln) + [OP_ADD] + [OP_SVAR, n - 1] + [OP_JMP, loop]
  }

  function GenStmt(s: Stmt, cx: Ctx, ln: Link, base: int): seq<int>
    decreases s, 1
  {
    match s
    case Skip => []
    case Then(a, b) => GenThen(a, b, cx, ln, base)
    case Decl(e) => GenExpr(e, ln, base)
    case Assign(x, e) => GenExpr(e, ln, base) + [OP_SVAR, x]
    case Do(f, args) => GenExprs(args, ln, base) + [OP_CALL, FuncAddr(f, ln), |args|] + [OP_POP]
    case Blk(b) => GenBlk(b, cx, ln, base)
    case If(c, t, e) => GenIf(c, t, e, cx, ln, base)
    case Forever(b) => GenForever(b, cx, ln, base)
    case ForIn(reuse, e, b) => GenForIn(reuse, e, b, cx, ln, base)
    case ForCond(c, b) => GenForCond(c, b, cx, ln, base)
    case Break => if |cx.loops| == 0 then [] else Unwind(cx, cx.loops[|cx.loops| - 1].brk)
    case Continue => if |cx.loops| == 0 then [] else Unwind(cx, cx.loops[|cx.loops| - 1].cont)
    case Ret(e) => GenExpr(e, ln, base) + [OP_RET]
  }

  function GenThen(a: Stmt, b: Stmt, cx: Ctx, ln: Link, base: int): seq<int>
    decreases Then(a, b), 0
  {
    var ca := GenStmt(a, cx, ln, base);
    ca + GenStmt(b, After(a, cx), ln, base + |ca|)
  }

  function GenBlk(b: Stmt, cx: Ctx, ln: Link, base: int): seq<int>
    decreases Blk(b), 0
  {
    Braced(GenStmt(b, Enter(cx), ln, base + 1), After(b, Enter(cx)).locals - cx.locals)
  }

  /** A failed condition jumps to where the code of the rest of the chain starts. */
  function GenIf(c: Expr, t: Stmt, e: Stmt, cx: Ctx, ln: Link, base: int): seq<int>
    decreases If(c, t, e), 0
  {
    var cc := GenExpr(c, ln, base);
    var ct := GenStmt(t, cx, ln, base + |cc| + 2);
    var els := base + |cc| + 2 + |ct|;
    if e.Skip? then OneBranch(cc, els, ct)
    else
      var ce := GenStmt(e, cx.(depth := After(t, cx).depth), ln, els + 2);
      Branches(cc, els + 2, ct, els + 2 + |ce|, ce)
  }

  function GenForever(b: Stmt, cx: Ctx, ln: Link, base: int): seq<int>
    decreases Forever(b), 0
  {
    var size := |GenStmt(b, InLoop(cx, 0, 0), ln, base)|;
    Endless(GenStmt(b, InLoop(cx, base + size + 2, base), ln, base), base)
  }

  function GenForIn(reuse: Option<nat>, e: Expr, b: Stmt, cx: Ctx, ln: Link, base: int): seq<int>
    decreases ForIn(reuse, e, b), 0
  {
    var head := ForHead(reuse, e, ln, base);
    var fx := ForCtx(cx, reuse);
    var start := base + |head| + FOR_TEST_SIZE;
    var cont := start + |GenStmt(b, InLoop(fx, 0, 0), ln, start)|;
    var brk := cont + FOR_NEXT_SIZE;
    ForLoop(head, ForTest(fx.locals, LoopVar(reuse, cx), brk), GenStmt(b, InLoop(fx, brk, cont), ln, start),
            ForNext(fx.locals, base + |head|, ln), fx.locals - cx.locals)
  }

  function GenForCond(c: Expr, b: Stmt, cx: Ctx, ln: Link, base: int): seq<int>
    decreases ForCond(c, b), 0
  {
    var cc := GenExpr(c, ln, base + 2);
    var start := base + 2 + |cc| + 2;
    var pops := After(b, CondCtx(cx, 0, 0)).locals - cx.locals;
    var cont := start + |GenStmt(b, CondCtx(cx, 0, 0), ln, start)| + pops + 1;
    CondLoop(cc, cont + 2, GenStmt(b, CondCtx(cx, cont + 3, cont), ln, start), pops, base + 1)
  }

  function BodyCtx(arity: nat): Ctx {
    Ctx(arity, 1, [], [arity])
  }

  /** A function: its scope, its body, and the implicit `ret 0`. */
  function GenFunc(fn: Func, ln: Link, addr: int): seq<int> {
    [OP_SCOPE_ENTER] + GenStmt(fn.body, BodyCtx(fn.arity), ln, addr + 1) + PushConst(0, ln) + [OP_RET]
  }

  // ---- What the compiler demands of a body ----

  ghost predicate Pooled(e: Expr, consts: seq<int>)
    decreases e
  {
    match e
    case Lit(n) => n in consts
    case Bool(b) => Bit(b) in consts
    case Var(_) => true
    case Neg(e1) => (if e1.Lit? then 0 - e1.n in consts else 0 in consts && Pooled(e1, consts))
    case Bin(_, l, r) => Pooled(l, consts) && Pooled(r, consts)
    case Cond(c, t, f) => Pooled(c, consts) && Pooled(t, consts) && Pooled(f, consts)
    case List(es) => forall i :: 0 <= i < |es| ==> Pooled(es[i], consts)
    case Index(a, i) => Pooled(a, consts) && Pooled(i, consts)
    case Span(a, lo, hi) => Pooled(a, consts) && Pooled(lo, consts) && Pooled(hi, consts)
    case Call(_, args) => forall i :: 0 <= i < |args| ==> Pooled(args[i], consts)
  }

  ghost predicate AllPooled(es: seq<Expr>, consts: seq<int>) {
    forall i :: 0 <= i < |es| ==> Pooled(es[i], consts)
  }

  /** The compile-time count of scopes to leave agrees with the scopes really open. */
  predicate Aligned(cx: Ctx) {
    |cx.loops| > 0
    && var l := cx.loops[|cx.loops| - 1];
      l.open < |cx.marks| && cx.depth - l.depth == |cx.marks| - l.open && l.locals <= cx.locals
  }

  /** Statements as the grammar forms them, every break and continue inside a loop and aligned. */
  predicate Formed(s: Stmt, cx: Ctx)
    decreases s
  {
    match s
    case Then(a, b) => Formed(a, cx) && Formed(b, After(a, cx))
    case Blk(b) => Formed(b, Enter(cx))
    case If(_, t, e) =>
      && t.Blk? && (e.Skip? || e.Blk? || e.If?)
      && Formed(t, cx) && Formed(e, cx.(depth := After(t, cx).depth))
    case Forever(b) => b.Blk? && Formed(b, InLoop(cx, 0, 0))
    case ForIn(reuse, _, b) =>
      && b.Blk? && (reuse.Some? ==> reuse.value < cx.locals)
      && Formed(b, InLoop(ForCtx(cx, reuse), 0, 0))
    case ForCond(_, b) => Formed(b, CondCtx(cx, 0, 0))
    case Break => Aligned(cx)
    case Continue => Aligned(cx)
    case _ => true
  }

  ghost predicate StmtPooled(s: Stmt, consts: seq<int>)
    decreases s
  {
    match s
    case Then(a, b) => StmtPooled(a, consts) && StmtPooled(b, consts)
    case Decl(e) => Pooled(e, consts)
    case Assign(_, e) => Pooled(e, consts)
    case Do(_, args) => AllPooled(args, consts)
    case Blk(b) => StmtPooled(b, consts)
    case If(c, t, e) => Pooled(c, consts) && StmtPooled(t, consts) && StmtPooled(e, consts)
    case Forever(b) => StmtPooled(b, consts)
    case ForIn(_, e, b) => 0 in consts && 1 in consts && Pooled(e, consts) && StmtPooled(b, consts)
    case ForCond(c, b) => Pooled(c, consts) && StmtPooled(b, consts)
    case Ret(e) => Pooled(e, consts)
    case _ => true
  }

  // ---- The shape of each expression's code ----

  lemma NegIs(e: Expr, ln: Link, base: int)
    ensures GenExpr(Neg(e), ln, base)
      == if e.Lit? then PushConst(0 - e.n, ln) else PushConst(0, ln) + GenExpr(e, ln, base + 2) + [OP_SUB]
  {
    hide PushConst;
  }

  lemma BinIs(op: BinOp, l: Expr, r: Expr, ln: Link, base: int)
    ensures var cl := GenExpr(l, ln, base);
      GenExpr(Bin(op, l, r), ln, base) == cl + GenExpr(r, ln, base + |cl|) + [OpCode(op)]
  {
    hide OpCode;
  }

  lemma CondIs(c: Expr, t: Expr, f: Expr, ln: Link, base: int)
    ensures var cc := GenExpr(c, ln, base);
      var ct := GenExpr(t, ln, base + |cc| + 2);
      var els := base + |cc| + 2 + |ct| + 2;
      GenExpr(Cond(c, t, f), ln, base) == Branches(cc, els, ct, els + |GenExpr(f, ln, els)|, GenExpr(f, ln, els))
  {
    hide Branches;
  }

  lemma IndexIs(a: Expr, i: Expr, ln: Link, base: int)
    ensures var ca := GenExpr(a, ln, base); GenExpr(Index(a, i), ln, base) == ca + GenExpr(i, ln, base + |ca|) + [OP_AGET]
  {
  }

  lemma SpanIs(a: Expr, lo: Expr, hi: Expr, ln: Link, base: int)
    ensures var ca := GenExpr(a, ln, base);
      var cl := GenExpr(lo, ln, base + |ca|);
      GenExpr(Span(a, lo, hi), ln, base) == ca + cl + GenExpr(hi, ln, base + |ca| + |cl|) + [OP_SLICE]
  {
    hide GenExprs, PushConst, OpCode, Branches, FuncAddr;
  }

  lemma ListIs(es: seq<Expr>, ln: Link, base: int)
    ensures GenExpr(List(es), ln, base) == GenExprs(es, ln, base) + [OP_ARR, |es|]
  {
    hide GenExprs;
  }

  lemma CallIs(f: nat, args: seq<Expr>, ln: Link, base: int)
    ensures GenExpr(Call(f, args), ln, base) == GenExprs(args, ln, base) + [OP_CALL, FuncAddr(f, ln), |args|]
  {
    hide GenExprs;
  }

  /** Each compound statement is compiled by its own function. */
  lemma StmtCode(s: Stmt, cx: Ctx, ln: Link, base: int)
    ensures s.Then? ==> GenStmt(s, cx, ln, base) == GenThen(s.first, s.second, cx, ln, base)
    ensures s.Blk? ==> GenStmt(s, cx, ln, base) == GenBlk(s.body, cx, ln, base)
    ensures s.If? ==> GenStmt(s, cx, ln, base) == GenIf(s.c, s.thn, s.els, cx, ln, base)
    ensures s.Forever? ==> GenStmt(s, cx, ln, base) == GenForever(s.body, cx, ln, base)
    ensures s.ForIn? ==> GenStmt(s, cx, ln, base) == GenForIn(s.reuse, s.e, s.body, cx, ln, base)
    ensures s.ForCond? ==> GenStmt(s, cx, ln, base) == GenForCond(s.c, s.body, cx, ln, base)
  {
    hide GenThen, GenBlk, GenIf, GenForever, GenForIn, GenForCond, GenExpr, GenExprs, Unwind;
  }

  lemma ForInIs(reuse: Option<nat>, e: Expr, b: Stmt, cx: Ctx, ln: Link, base: int)
    ensures var head, fx := ForHead(reuse, e, ln, base), ForCtx(cx, reuse);
      var start := base + |head| + FOR_TEST_SIZE;
      var cont := start + |GenStmt(b, InLoop(fx, 0, 0), ln, start)|;
      var brk := cont + FOR_NEXT_SIZE;
      fx.locals >= 2 && GenForIn(reuse, e, b, cx, ln, base)
        == ForLoop(head, ForTest(fx.locals, LoopVar(reuse, cx), brk), GenStmt(b, InLoop(fx, brk, cont), ln, start),
                   ForNext(fx.locals, base + |head|, ln), fx.locals - cx.locals)
  {
    hide GenStmt, ForHead, ForTest, ForNext, ForLoop, InLoop, LoopVar;
  }

  // ---- The layout does not depend on the jump targets ----

  ghost predicate SameShape(cx: Ctx, cx': Ctx) {
    && cx.locals == cx'.locals && cx.depth == cx'.depth && cx.marks == cx'.marks
    && |cx.loops| == |cx'.loops|
    && forall i :: 0 <= i < |cx.loops| ==>
        && cx.loops[i].depth == cx'.loops[i].depth
        && cx.loops[i].locals == cx'.loops[i].locals
        && cx.loops[i].open == cx'.loops[i].open
  }

  lemma {:induction false} AfterShape(s: Stmt, cx: Ctx, cx': Ctx)
    requires SameShape(cx, cx')
    ensures SameShape(After(s, cx), After(s, cx'))
    decreases s
  {
    match s
    case Then(a, b) => AfterShape(a, cx, cx'); AfterShape(b, After(a, cx), After(a, cx'));
    case Blk(b) => AfterShape(b, Enter(cx), Enter(cx'));
    case If(_, t, e) =>
      AfterShape(t, cx, cx');
      AfterShape(e, cx.(depth := After(t, cx).depth), cx'.(depth := After(t, cx').depth));
    case Forever(b) => AfterShape(b, InLoop(cx, 0, 0), InLoop(cx', 0, 0));
    case ForIn(reuse, _, b) => AfterShape(b, InLoop(ForCtx(cx, reuse), 0, 0), InLoop(ForCtx(cx', reuse), 0, 0));
    case ForCond(_, b) => AfterShape(b, CondCtx(cx, 0, 0), CondCtx(cx', 0, 0));
    case _ =>
  }

  lemma {:induction false} SizeShape(s: Stmt, cx: Ctx, cx': Ctx, ln: Link, base: int)
    requires SameShape(cx, cx')
    ensures |GenStmt(s, cx, ln, base)| == |GenStmt(s, cx', ln, base)|
    decreases s, 1
  {
    hide GenThen, GenBlk, GenIf, GenForever, GenForIn, GenForCond, GenExpr, GenExprs, After;
    match s
    case Then(a, b) => ThenSize(a, b, cx, cx', ln, base);
    case Blk(b) => BlkSize(b, cx, cx', ln, base);
    case If(c, t, e) => IfSize(c, t, e, cx, cx', ln, base);
    case Forever(b) => ForeverSize(b, cx, cx', ln, base);
    case ForIn(reuse, e, b) => ForInSize(reuse, e, b, cx, cx', ln, base);
    case ForCond(c, b) => CondSize(c, b, cx, cx', ln, base);
    case Break => UnwindSize(cx, cx');
    case Continue => UnwindSize(cx, cx');
    case _ =>
  }

  lemma {:induction false} ThenSize(a: Stmt, b: Stmt, cx: Ctx, cx': Ctx, ln: Link, base: int)
    requires SameShape(cx, cx')
    ensures |GenThen(a, b, cx, ln, base)| == |GenThen(a, b, cx', ln, base)|
    decreases Then(a, b), 0
  {
    hide SameShape, GenStmt;
    SizeShape(a, cx, cx', ln, base);
    AfterShape(a, cx, cx');
    SizeShape(b, After(a, cx), After(a, cx'), ln, base + |GenStmt(a, cx, ln, base)|);
  }

  lemma {:induction false} BlkSize(b: Stmt, cx: Ctx, cx': Ctx, ln: Link, base: int)
    requires SameShape(cx, cx')
    ensures |GenBlk(b, cx, ln, base)| == |GenBlk(b, cx', ln, base)|
    decreases Blk(b), 0
  {
    hide Braced, GenStmt;
    SizeShape(b, Enter(cx), Enter(cx'), ln, base + 1);
    AfterShape(b, Enter(cx), Enter(cx'));
  }

  lemma {:induction false} ForeverSize(b: Stmt, cx: Ctx, cx': Ctx, ln: Link, base: int)
    requires SameShape(cx, cx')
    ensures |GenForever(b, cx, ln, base)| == |GenForever(b, cx', ln, base)|
    decreases Forever(b), 0
  {
    hide Endless, GenStmt;
    var n, n' := |GenStmt(b, InLoop(cx, 0, 0), ln, base)|, |GenStmt(b, InLoop(cx', 0, 0), ln, base)|;
    SizeShape(b, InLoop(cx, base + n + 2, base), InLoop(cx', base + n' + 2, base), ln, base);
  }

  lemma {:induction false} ForInSize(reuse: Option<nat>, e: Expr, b: Stmt, cx: Ctx, cx': Ctx, ln: Link, base: int)
    requires SameShape(cx, cx')
    ensures |GenForIn(reuse, e, b, cx, ln, base)| == |GenForIn(reuse, e, b, cx', ln, base)|
    decreases ForIn(reuse, e, b), 0
  {
    hide ForLoop, ForHead, ForTest, ForNext, GenStmt, SameShape, GenForIn, ForCtx, InLoop, LoopVar;
    ForInIs(reuse, e, b, cx, ln, base);
    ForInIs(reuse, e, b, cx', ln, base);
    var start := base + |ForHead(reuse, e, ln, base)| + FOR_TEST_SIZE;
    var fx, fx' := ForCtx(cx, reuse), ForCtx(cx', reuse);
    ForCtxShape(cx, cx', reuse);
    var n, n' := start + |GenStmt(b, InLoop(fx, 0, 0), ln, start)|, start + |GenStmt(b, InLoop(fx', 0, 0), ln, start)|;
    SizeShape(b, InLoop(fx, n + FOR_NEXT_SIZE, n), InLoop(fx', n' + FOR_NEXT_SIZE, n'), ln, start);
  }

  lemma ForCtxShape(cx: Ctx, cx': Ctx, reuse: Option<nat>)
    requires SameShape(cx, cx')
    ensures ForCtx(cx, reuse).locals == ForCtx(cx', reuse).locals && cx.locals == cx'.locals
    ensures forall t, u, t', u' :: SameShape(InLoop(ForCtx(cx, reuse), t, u), InLoop(ForCtx(cx', reuse), t', u'))
  {
  }

  lemma UnwindSize(cx: Ctx, cx': Ctx)
    requires SameShape(cx, cx')
    ensures |cx.loops| == |cx'.loops|
    ensures |cx.loops| > 0 ==> forall t, t' :: |Unwind(cx, t)| == |Unwind(cx', t')|
  {
    hide Unwind;
  }

  lemma {:induction false} IfSize(c: Expr, t: Stmt, e: Stmt, cx: Ctx, cx': Ctx, ln: Link, base: int)
    requires SameShape(cx, cx')
    ensures |GenIf(c, t, e, cx, ln, base)| == |GenIf(c, t, e, cx', ln, base)|
    decreases If(c, t, e), 0
  {
    hide SameShape, GenIf, GenExpr, After, GenStmt;
    IfLength(c, t, e, cx, ln, base);
    IfLength(c, t, e, cx', ln, base);
    var n := |GenExpr(c, ln, base)|;
    SizeShape(t, cx, cx', ln, base + n + 2);
    var m := |GenStmt(t, cx, ln, base + n + 2)|;
    if !e.Skip? {
      var d, d' := cx.(depth := After(t, cx).depth), cx'.(depth := After(t, cx').depth);
      ElseShape(t, cx, cx');
      SizeShape(e, d, d', ln, base + n + 2 + m + 2);
    }
  }

  lemma IfLength(c: Expr, t: Stmt, e: Stmt, cx: Ctx, ln: Link, base: int)
    ensures var n := |GenExpr(c, ln, base)|;
      var m := |GenStmt(t, cx, ln, base + n + 2)|;
      |GenIf(c, t, e, cx, ln, base)| == n + 2 + m
        + if e.Skip? then 0 else 2 + |GenStmt(e, cx.(depth := After(t, cx).depth), ln, base + n + 2 + m + 2)|
  {
    hide GenExpr, After, GenStmt, OneBranch, Branches;
  }

  lemma ElseShape(t: Stmt, cx: Ctx, cx': Ctx)
    requires SameShape(cx, cx')
    ensures SameShape(cx.(depth := After(t, cx).depth), cx'.(depth := After(t, cx').depth))
  {
    AfterShape(t, cx, cx');
  }

  lemma {:induction false} CondSize(c: Expr, b: Stmt, cx: Ctx, cx': Ctx, ln: Link, base: int)
    requires SameShape(cx, cx')
    ensures |GenForCond(c, b, cx, ln, base)| == |GenForCond(c, b, cx', ln, base)|
    decreases ForCond(c, b), 0
  {
    hide CondLoop, GenExpr, GenStmt;
    var start := base + 2 + |GenExpr(c, ln, base + 2)| + 2;
    AfterShape(b, CondCtx(cx, 0, 0), CondCtx(cx', 0, 0));
    var pops := After(b, CondCtx(cx, 0, 0)).locals - cx.locals;
    var k := start + |GenStmt(b, CondCtx(cx, 0, 0), ln, start)| + pops + 1;
    var k' := start + |GenStmt(b, CondCtx(cx', 0, 0), ln, start)| + pops + 1;
    SizeShape(b, CondCtx(cx, k + 3, k), CondCtx(cx', k' + 3, k'), ln, start);
  }

  /** Alignment is a matter of counts, not of jump targets. */
  lemma {:induction false} FormedShape(s: Stmt, cx: Ctx, cx': Ctx)
    requires SameShape(cx, cx') && Formed(s, cx)
    ensures Formed(s, cx')
    decreases s
  {
    match s
    case Then(a, b) =>
      FormedShape(a, cx, cx');
      AfterShape(a, cx, cx');
      FormedShape(b, After(a, cx), After(a, cx'));
    case Blk(b) => FormedShape(b, Enter(cx), Enter(cx'));
    case If(_, t, e) =>
      FormedShape(t, cx, cx');
      AfterShape(t, cx, cx');
      FormedShape(e, cx.(depth := After(t, cx).depth), cx'.(depth := After(t, cx').depth));
    case Forever(b) => FormedShape(b, InLoop(cx, 0, 0), InLoop(cx', 0, 0));
    case ForIn(reuse, _, b) => FormedShape(b, InLoop(ForCtx(cx, reuse), 0, 0), InLoop(ForCtx(cx', reuse), 0, 0));
    case ForCond(_, b) => FormedShape(b, CondCtx(cx, 0, 0), CondCtx(cx', 0, 0));
    case _ =>
  }
}
