/** The single-pass compiler: a cursor over the tokens and a buffer of bytecode that is appended to
    and patched, with no tree in between. Each parsing method is proved to emit exactly the code that
    Codegen assigns to the tree that Parsing finds (src/compiler.c:264-276, 395-451, 873-896,
    1087-1273, 1665-1690, 1833-1935, 1979-2120, 2357-2478; src/vm.c:538-544). */
module Compiling {
  import opened Defines
  import M = Machine
  import opened Language
  import opened Codegen
  import opened Linking
  import opened Parsing
  import opened Statements
  import opened Patching
  import opened Building
  import Drift
  import Frames
  import Simulation

  const MAX_LOOP_NESTING: nat := 32
  const MAX_JUMPS_PER_LOOP: nat := 64

  /** Syntax: the compiler reports an error. Full: a buffer has no room left. */
  datatype Status = Ok | Syntax | Full {
    predicate IsFailure() {
      this != Ok
    }

    function PropagateFailure(): Status {
      this
    }
  }

  /** `code'` is `code` followed by the code of `e`, and the pool only grew from `consts`. */
  ghost predicate Written(e: Expr, code: seq<int>, consts: seq<int>, code': seq<int>, ln: Link) {
    code' == code + GenExpr(e, ln, |code|) && consts <= ln.consts && Settled(e, ln)
  }

  ghost predicate AllWritten(es: seq<Expr>, code: seq<int>, consts: seq<int>, code': seq<int>, ln: Link) {
    code' == code + GenExprs(es, ln, |code|) && consts <= ln.consts && AllSettled(es, ln)
  }

  lemma BinWritten(op: BinOp, l: Expr, r: Expr, code: seq<int>, consts: seq<int>, code1: seq<int>, ln1: Link, code2: seq<int>, ln2: Link)
    requires Written(l, code, consts, code1, ln1) && Written(r, code1, ln1.consts, code2, ln2) && ln1.addrs == ln2.addrs
    ensures Written(Bin(op, l, r), code, consts, code2 + [OpCode(op)], ln2)
  {
    hide GenExpr;
    SettledStays(l, ln1, ln2, |code|);
    ExprCode(Bin(op, l, r), ln2, |code|);
  }

  /** Both jumps of a conditional are emitted as placeholders and patched later. */
  lemma CondWritten(c: Expr, t: Expr, f: Expr, code: seq<int>, consts: seq<int>,
      code1: seq<int>, ln1: Link, code2: seq<int>, ln2: Link, code3: seq<int>, ln3: Link)
    requires ln1.addrs == ln2.addrs == ln3.addrs
    requires Written(c, code, consts, code1, ln1)
    requires Written(t, code1 + [M.OP_JZ, 0], ln1.consts, code2, ln2)
    requires Written(f, (code2 + [M.OP_JMP, 0])[|code1| + 1 := |code2| + 2], ln2.consts, code3, ln3)
    ensures Written(Cond(c, t, f), code, consts, code3[|code2| + 1 := |code3|], ln3)
  {
    hide GenExpr;
    SettledStays(c, ln1, ln3, |code|);
    SettledStays(t, ln2, ln3, |code1| + 2);
    ExprCode(Cond(c, t, f), ln3, |code|);
    var cc, ct, cf := GenExpr(c, ln3, |code|), GenExpr(t, ln3, |code1| + 2), GenExpr(f, ln3, |code2| + 2);
    CondPieces(code, cc, ct, cf, code1, code2, code3);
  }

  lemma CondPieces(code: seq<int>, cc: seq<int>, ct: seq<int>, cf: seq<int>, code1: seq<int>, code2: seq<int>, code3: seq<int>)
    requires code1 == code + cc && code2 == code1 + [M.OP_JZ, 0] + ct
    requires code3 == (code2 + [M.OP_JMP, 0])[|code1| + 1 := |code2| + 2] + cf
    ensures code3[|code2| + 1 := |code3|] == code + (cc + [M.OP_JZ, |code2| + 2] + ct + [M.OP_JMP, |code3|] + cf)
  {
    assert [M.OP_JZ, 0][1 := |code2| + 2] == [M.OP_JZ, |code2| + 2] && [M.OP_JMP, 0][1 := |code3|] == [M.OP_JMP, |code3|];
  }

  lemma NegWritten(e: Expr, code: seq<int>, consts: seq<int>, ln: Link, code1: seq<int>, ln1: Link)
    requires 0 in ln.consts && consts <= ln.consts && ln.addrs == ln1.addrs
    requires Written(e, code + PushConst(0, ln), ln.consts, code1, ln1)
    ensures Written(Negated(e), code, consts, code1 + [M.OP_SUB], ln1)
  {
    hide GenExpr;
    IndexStays(0, ln.consts, ln1.consts);
    assert ln1.consts[ConstIndex(ln.consts, 0)] == 0;
    assert PushConst(0, ln) == PushConst(0, ln1);
    var z := PushConst(0, ln1);
    assert code1 + [M.OP_SUB] == code + (z + GenExpr(e, ln1, |code| + 2) + [M.OP_SUB]);
    if e.Lit? {
      assert Settled(Lit(0), ln1);
      ExprCode(Bin(Sub, Lit(0), e), ln1, |code|);
      LitCode(0, ln1, |code|);
    } else {
      ExprCode(Neg(e), ln1, |code|);
    }
  }

  lemma LitCode(n: nat, ln: Link, base: int)
    ensures GenExpr(Lit(n), ln, base) == PushConst(n, ln)
    ensures GenExpr(Neg(Lit(n)), ln, base) == PushConst(0 - n, ln)
  {
  }

  lemma ListWritten(es: seq<Expr>, code: seq<int>, consts: seq<int>, code1: seq<int>, ln1: Link)
    requires AllWritten(es, code, consts, code1, ln1)
    ensures Written(List(es), code, consts, code1 + [M.OP_ARR, |es|], ln1)
  {
    hide GenExpr, GenExprs;
    ExprCode(List(es), ln1, |code|);
  }

  lemma CallWritten(f: nat, es: seq<Expr>, code: seq<int>, consts: seq<int>, code1: seq<int>, ln1: Link)
    requires AllWritten(es, code, consts, code1, ln1) && f < |ln1.addrs|
    ensures Written(Call(f, es), code, consts, code1 + [M.OP_CALL, ln1.addrs[f], |es|], ln1)
  {
    hide GenExpr, GenExprs;
    ExprCode(Call(f, es), ln1, |code|);
  }

  lemma IndexWritten(a: Expr, x: Expr, code: seq<int>, consts: seq<int>, code1: seq<int>, ln1: Link, code2: seq<int>, ln2: Link)
    requires Written(a, code, consts, code1, ln1) && Written(x, code1, ln1.consts, code2, ln2) && ln1.addrs == ln2.addrs
    ensures Written(Index(a, x), code, consts, code2 + [M.OP_AGET], ln2)
  {
    hide GenExpr;
    SettledStays(a, ln1, ln2, |code|);
    ExprCode(Index(a, x), ln2, |code|);
  }

  lemma SpanWritten(a: Expr, x: Expr, y: Expr, code: seq<int>, consts: seq<int>,
      code1: seq<int>, ln1: Link, code2: seq<int>, ln2: Link, code3: seq<int>, ln3: Link)
    requires ln1.addrs == ln2.addrs == ln3.addrs
    requires Written(a, code, consts, code1, ln1) && Written(x, code1, ln1.consts, code2, ln2)
    requires Written(y, code2, ln2.consts, code3, ln3)
    ensures Written(Span(a, x, y), code, consts, code3 + [M.OP_SLICE], ln3)
  {
    hide GenExpr;
    SettledStays(a, ln1, ln3, |code|);
    SettledStays(x, ln2, ln3, |code1|);
    ExprCode(Span(a, x, y), ln3, |code|);
  }

  lemma MoreWritten(es: seq<Expr>, e: Expr, code: seq<int>, consts: seq<int>, code1: seq<int>, ln1: Link, code2: seq<int>, ln2: Link)
    requires AllWritten(es, code, consts, code1, ln1) && Written(e, code1, ln1.consts, code2, ln2) && ln1.addrs == ln2.addrs
    ensures AllWritten(es + [e], code, consts, code2, ln2)
  {
    hide GenExpr, GenExprs;
    AllSettledStay(es, ln1, ln2, |code|);
    GenSnoc(es, e, ln2, |code|);
  }

  lemma WrittenLonger(e: Expr, code: seq<int>, consts: seq<int>, code1: seq<int>, ln1: Link)
    requires Written(e, code, consts, code1, ln1)
    ensures code <= code1
  {
  }

  lemma NoneWritten(code: seq<int>, ln: Link)
    ensures AllWritten([], code, ln.consts, code, ln)
  {
  }

  lemma VarWritten(x: nat, code: seq<int>, consts: seq<int>, code1: seq<int>, ln1: Link)
    requires code1 == code + [M.OP_LVAR, x] && consts <= ln1.consts
    ensures Written(Var(x), code, consts, code1, ln1)
  {
  }

  /** The constant that a literal, or a negated number, stands for. */
  function ConstOf(e: Expr): int
    requires e.Lit? || e.Bool? || (e.Neg? && e.e.Lit?)
  {
    if e.Lit? then e.n else if e.Bool? then M.Bit(e.b) else 0 - e.e.n
  }

  lemma ConstWritten(e: Expr, code: seq<int>, consts: seq<int>, code1: seq<int>, ln1: Link)
    requires e.Lit? || e.Bool? || (e.Neg? && e.e.Lit?)
    requires code1 == code + PushConst(ConstOf(e), ln1) && ConstOf(e) in ln1.consts && consts <= ln1.consts
    ensures Written(e, code, consts, code1, ln1)
  {
  }

  /** The cells still to be patched lie in the code. */
  ghost predicate Emitted(loops: seq<LoopControl>, size: nat) {
    forall i :: 0 <= i < |loops| ==>
      && (forall k :: 0 <= k < |loops[i].breaks| ==> 0 <= loops[i].breaks[k] < size)
      && (forall k :: 0 <= k < |loops[i].continues| ==> 0 <= loops[i].continues[k] < size)
  }

  /** The parts of the head of an iteration. */
  lemma HeadWritten(reuse: Option<nat>, e: Expr, code: seq<int>, ln1: Link, code1: seq<int>, ln2: Link, code2: seq<int>, ln3: Link, code3: seq<int>)
    requires ln1.addrs == ln2.addrs == ln3.addrs
    requires code1 == code + [M.OP_SCOPE_ENTER] + (if reuse.None? then PushConst(0, ln1) else [])
    requires reuse.None? ==> 0 in ln1.consts
    requires Written(e, code1, ln1.consts, code2, ln2)
    requires ln2.consts <= ln3.consts && 0 in ln3.consts && code3 == code2 + PushConst(0, ln3)
    ensures Settled(e, ln3) && code3 == code + ForHead(reuse, e, ln3, |code|)
  {
    hide GenExpr, Settled;
    SettledStays(e, ln2, ln3, |code1|);
    if reuse.None? { IndexStays(0, ln1.consts, ln3.consts); }
    var z := if reuse.None? then PushConst(0, ln3) else [];
    assert code3 == code + ([M.OP_SCOPE_ENTER] + z + GenExpr(e, ln3, |code1|) + PushConst(0, ln3));
  }

  /** The locals before a loop are still the first ones inside it. */
  lemma LocalsKept(locals: seq<string>, name: string, d: nat)
    ensures (WithLoopVar(locals, name) + Hidden(d))[..|locals|] == locals
  {
  }

  lemma CondLocals(b: Stmt, w: Work, m: Work)
    requires Built(b, w, m)
    ensures m.cx.locals >= w.cx.locals
  {
    hide GenStmt, Sites;
  }

  lemma ForCtxLocals(cx: Ctx, reuse: Option<nat>)
    ensures ForCtx(cx, reuse).locals >= cx.locals + 2 && ForCtx(cx, reuse).loops == cx.loops
  {
  }

  lemma EvaluatedCx(e: Expr, a: Work, b: Work)
    requires Evaluated(e, a, b)
    ensures b.cx == a.cx && b.loops == a.loops
  {
  }

  ghost predicate InStep(cx: Ctx, locals: nat, depth: int, loops: seq<LoopControl>) {
    && cx.locals == locals && cx.depth == depth && |cx.loops| == |loops|
    && (forall i :: 0 <= i < |loops| ==>
          && cx.loops[i].depth == loops[i].scopeDepth && cx.loops[i].locals == loops[i].localCount
          && cx.loops[i].brk == 0 && cx.loops[i].cont == 0)
  }

  lemma StepFacts(cx: Ctx, locals: nat, depth: int, loops: seq<LoopControl>, size: nat)
    requires InStep(cx, locals, depth, loops) && Emitted(loops, size)
    ensures cx.locals == locals && cx.depth == depth && |cx.loops| == |loops|
    ensures forall n: nat :: size <= n ==> Emitted(loops, n)
    ensures InStep(Enter(cx), locals, depth + 1, loops)
    ensures loops != [] ==>
      var l, c := loops[|loops| - 1], cx.loops[|cx.loops| - 1];
      c.depth == l.scopeDepth && c.locals == l.localCount && c.brk == 0 && c.cont == 0
  {
  }

  lemma EmittedStays(loops: seq<LoopControl>, size: nat)
    requires Emitted(loops, size)
    ensures forall n: nat :: size <= n ==> Emitted(loops, n)
  {
  }

  lemma InStepLocals(cx: Ctx, locals: nat, depth: int, loops: seq<LoopControl>)
    requires InStep(cx, locals, depth, loops)
    ensures cx.locals == locals
  {
  }

  lemma MoreLocals(cx: Ctx, locals: nat, depth: int, loops: seq<LoopControl>, k: nat)
    requires InStep(cx, locals, depth, loops)
    ensures InStep(cx.(locals := cx.locals + k), locals + k, depth, loops)
  {
  }

  lemma OuterStep(cx: Ctx, locals: nat, depth: int, loops: seq<LoopControl>, d: int, loops': seq<LoopControl>)
    requires InStep(cx, locals, depth, loops) && loops' == loops
    ensures InStep(cx.(depth := d), locals, d, loops')
  {
  }

  lemma CellRecorded(cx: Ctx, locals: nat, depth: int, loops: seq<LoopControl>, size: nat, loops': seq<LoopControl>, size': nat)
    requires InStep(cx, locals, depth, loops) && Emitted(loops, size) && size < size' && loops != []
    requires loops' == Recorded(loops, [size' - 1], []) || loops' == Recorded(loops, [], [size' - 1])
    ensures InStep(cx, locals, depth, loops') && Emitted(loops', size')
  {
  }

  /** Back at an outer context, with the cells recorded meanwhile. */
  lemma StepBack(cx: Ctx, locals: nat, depth: int, loops: seq<LoopControl>,
      cx': Ctx, locals': nat, depth': int, loops': seq<LoopControl>, d: int)
    requires InStep(cx, locals, depth, loops) && InStep(cx', locals', depth', loops')
    requires cx'.loops == cx.loops
    ensures InStep(cx.(depth := d), locals, d, loops')
  {
  }

  lemma SameCount(s: Stmt, a: Work, b: Work)
    requires Built(s, a, b)
    ensures |b.loops| == |a.loops| && |a.code| <= |b.code| && Later(a, b)
    ensures b.cx.loops == a.cx.loops && b.cx.marks == a.cx.marks
    ensures |a.loops| > 0 ==> b.loops[..|b.loops| - 1] == a.loops[..|a.loops| - 1]
    ensures forall i :: 0 <= i < |a.loops| ==>
      b.loops[i].scopeDepth == a.loops[i].scopeDepth && b.loops[i].localCount == a.loops[i].localCount
  {
    hide GenStmt, Sites;
  }

  /** Function `fn` has its code at `addr`. */
  ghost predicate FuncAt(code: seq<int>, addr: int, fn: Func, ln: Link) {
    && 0 <= addr && addr + |GenFunc(fn, ln, addr)| <= |code|
    && code[addr..addr + |GenFunc(fn, ln, addr)|] == GenFunc(fn, ln, addr)
    && StmtSettled(fn.body, ln) && 0 in ln.consts
  }

  ghost predicate FuncsAt(code: seq<int>, fs: seq<Func>, ln: Link) {
    && |ln.addrs| == |fs|
    && forall f :: 0 <= f < |fs| ==> FuncAt(code, ln.addrs[f], fs[f], ln)
  }

  lemma FuncStays(code: seq<int>, addr: int, fn: Func, ln: Link, code': seq<int>, ln': Link)
    requires FuncAt(code, addr, fn, ln) && code <= code' && Extends(ln, ln')
    ensures FuncAt(code', addr, fn, ln')
  {
    hide GenStmt, StmtSettled;
    SameStmt(fn.body, BodyCtx(fn.arity), ln, ln', addr + 1);
    IndexStays(0, ln.consts, ln'.consts);
    assert ln'.consts[ConstIndex(ln.consts, 0)] == 0;
    var n := |GenFunc(fn, ln, addr)|;
    assert code'[addr..addr + n] == code[addr..addr + n];
  }

  lemma FuncsStay(code: seq<int>, fs: seq<Func>, ln: Link, code': seq<int>, ln': Link, fn: Func)
    requires FuncsAt(code, fs, ln) && code <= code' && ln.consts <= ln'.consts
    requires |ln'.addrs| == |ln.addrs| + 1 && ln.addrs == ln'.addrs[..|ln.addrs|]
    requires FuncAt(code', ln'.addrs[|ln.addrs|], fn, ln')
    ensures FuncsAt(code', fs + [fn], ln')
  {
    hide FuncAt;
    forall f | 0 <= f < |fs| ensures FuncAt(code', ln'.addrs[f], fs[f], ln') {
      assert ln'.addrs[..|ln.addrs|][f] == ln'.addrs[f];
      FuncStays(code, ln.addrs[f], fs[f], ln, code', ln');
    }
  }

  lemma FuncPool(code: seq<int>, addr: int, fn: Func, ln: Link)
    requires FuncAt(code, addr, fn, ln)
    ensures 0 in ln.consts
  {
  }

  lemma AllStay(code: seq<int>, fs: seq<Func>, ln: Link, code': seq<int>)
    requires FuncsAt(code, fs, ln) && code <= code'
    ensures FuncsAt(code', fs, ln)
  {
    hide FuncAt;
    forall f | 0 <= f < |fs| ensures FuncAt(code', ln.addrs[f], fs[f], ln) {
      FuncStays(code, ln.addrs[f], fs[f], ln, code', ln);
    }
  }

  lemma {:induction false} SettledPooled(e: Expr, ln: Link)
    requires Settled(e, ln)
    ensures Pooled(e, ln.consts)
    decreases e
  {
    match e
    case Neg(e1) => if !e1.Lit? { SettledPooled(e1, ln); }
    case Bin(_, l, r) => SettledPooled(l, ln); SettledPooled(r, ln);
    case Cond(c, t, f) => SettledPooled(c, ln); SettledPooled(t, ln); SettledPooled(f, ln);
    case List(es) => forall i | 0 <= i < |es| ensures Pooled(es[i], ln.consts) { SettledPooled(es[i], ln); }
    case Index(a, i) => SettledPooled(a, ln); SettledPooled(i, ln);
    case Span(a, lo, hi) => SettledPooled(a, ln); SettledPooled(lo, ln); SettledPooled(hi, ln);
    case Call(_, args) => forall i | 0 <= i < |args| ensures Pooled(args[i], ln.consts) { SettledPooled(args[i], ln); }
    case _ =>
  }

  lemma {:induction false} SettledStmtPooled(s: Stmt, ln: Link)
    requires StmtSettled(s, ln)
    ensures StmtPooled(s, ln.consts)
    decreases s
  {
    hide Settled, Pooled;
    match s
    case Then(a, b) => SettledStmtPooled(a, ln); SettledStmtPooled(b, ln);
    case Decl(e) => SettledPooled(e, ln);
    case Assign(_, e) => SettledPooled(e, ln);
    case Do(_, args) => forall i | 0 <= i < |args| ensures Pooled(args[i], ln.consts) { SettledPooled(args[i], ln); }
    case Blk(b) => SettledStmtPooled(b, ln);
    case If(c, t, e) => SettledPooled(c, ln); SettledStmtPooled(t, ln); SettledStmtPooled(e, ln);
    case Forever(b) => SettledStmtPooled(b, ln);
    case ForIn(_, e, b) => SettledPooled(e, ln); SettledStmtPooled(b, ln);
    case ForCond(c, b) => SettledPooled(c, ln); SettledStmtPooled(b, ln);
    case Ret(e) => SettledPooled(e, ln);
    case _ =>
  }

  /** Compiled functions meet what the simulation asks of a program, when their bodies are straight. */
  lemma FuncsLinked(code: seq<int>, fs: seq<Func>, ln: Link)
    requires FuncsAt(code, fs, ln) && 0 in ln.consts
    requires forall f :: 0 <= f < |fs| ==> Formed(fs[f].body, BodyCtx(fs[f].arity))
    ensures Simulation.Linked(M.Program(code, ln.consts), ln, fs)
  {
    hide GenFunc, StmtSettled, StmtPooled, Formed;
    var p := M.Program(code, ln.consts);
    forall f | 0 <= f < |fs|
      ensures Frames.Has(p, ln.addrs[f], GenFunc(fs[f], ln, ln.addrs[f])) && StmtPooled(fs[f].body, p.consts)
    {
      assert FuncAt(code, ln.addrs[f], fs[f], ln);
      SettledStmtPooled(fs[f].body, ln);
      SliceHas(p, ln.addrs[f], GenFunc(fs[f], ln, ln.addrs[f]));
    }
  }

  lemma SliceHas(p: M.Program, addr: int, g: seq<int>)
    requires 0 <= addr && addr + |g| <= |p.code| && p.code[addr..addr + |g|] == g
    ensures Frames.Has(p, addr, g)
  {
    forall i | 0 <= i < |g| ensures p.code[addr + i] == g[i] {
      assert p.code[addr..addr + |g|][i] == p.code[addr + i];
    }
  }

  lemma FuncBuilt(code: seq<int>, ln1: Link, b: Stmt, arity: nat, m: Work, ln: Link, end: int)
    requires Built(b, Work(code + [M.OP_JMP, 0] + [M.OP_SCOPE_ENTER], ln1, BodyCtx(arity), []), m)
    requires m.ln.addrs == ln.addrs && m.ln.consts <= ln.consts && 0 in ln.consts
    ensures |m.code| >= |code| + 2
    ensures var addr := |code| + 2;
      && FuncAt((m.code + PushConst(0, ln) + [M.OP_RET])[|code| + 1 := end], addr, Func(arity, b), ln)
      && code <= (m.code + PushConst(0, ln) + [M.OP_RET])[|code| + 1 := end]
  {
    hide GenStmt, StmtSettled, Sites, Recorded, After, PushConst;
    var cx, addr := BodyCtx(arity), |code| + 2;
    SameStmt(b, cx, m.ln, ln, addr + 1);
    var g := GenStmt(b, cx, ln, addr + 1);
    var whole := (m.code + PushConst(0, ln) + [M.OP_RET])[|code| + 1 := end];
    assert whole == code + [M.OP_JMP, end] + ([M.OP_SCOPE_ENTER] + g + PushConst(0, ln) + [M.OP_RET]);
    assert GenFunc(Func(arity, b), ln, addr) == [M.OP_SCOPE_ENTER] + g + PushConst(0, ln) + [M.OP_RET];
  }

  class Compiler {
    const tokens: seq<Token>
    const bytecode: array<int>
    const constants: array<int>
    var pos: nat
    var codeSize: nat
    var constCount: nat
    var locals: seq<string>
    var funcs: seq<string>
    var addrs: seq<int>
    var scopeDepth: int
    var loops: seq<LoopControl>
    ghost var cx: Ctx

    ghost predicate Valid()
      reads this
    {
      && bytecode != constants && pos <= |tokens|
      && codeSize <= bytecode.Length && constCount <= constants.Length && |funcs| == |addrs|
    }

    ghost function Code(): (r: seq<int>)
      requires codeSize <= bytecode.Length
      reads `codeSize, bytecode
      ensures |r| == codeSize
    {
      bytecode[..codeSize]
    }

    ghost function Consts(): seq<int>
      requires constCount <= constants.Length
      reads `constCount, constants
    {
      constants[..constCount]
    }

    ghost function Ln(): Link
      requires constCount <= constants.Length
      reads `constCount, `addrs, constants
    {
      Link(addrs, Consts())
    }

    function Names(): Env
      reads `locals, `funcs
    {
      Env(locals, funcs)
    }

    /** The only reasons to give up: the bytecode or the pool is full, or the limits of src/defines.h on loops
        and on the jumps out of one. */
    ghost predicate Exhausted()
      reads `codeSize, `constCount, `loops
    {
      || codeSize == bytecode.Length || constCount == constants.Length || |loops| >= MAX_LOOP_NESTING
      || (|loops| > 0 && |loops[|loops| - 1].breaks| >= MAX_JUMPS_PER_LOOP)
      || (|loops| > 0 && |loops[|loops| - 1].continues| >= MAX_JUMPS_PER_LOOP)
    }

    /** What was parsed was compiled. */
    ghost predicate Did(p: Parse<Expr>, code: seq<int>, consts: seq<int>)
      requires Valid()
      reads this, bytecode, constants
    {
      p.Some? && p.value.1 == pos && Written(p.value.0, code, consts, Code(), Ln())
    }

    // ---- Buffers ----

    method Emit(op: int) returns (r: Status)
      requires Valid()
      modifies `codeSize, bytecode
      ensures Valid() && r != Syntax
      ensures r == Full ==> Exhausted()
      ensures r == Ok ==> Code() == old(Code()) + [op]
      ensures r == Full ==> codeSize == bytecode.Length
    {
      if codeSize >= bytecode.Length {
        return Full;
      }
      bytecode[codeSize] := op;
      codeSize := codeSize + 1;
      return Ok;
    }

    method Emit2(op: int, arg: int) returns (r: Status)
      requires Valid()
      modifies `codeSize, bytecode
      ensures Valid() && r != Syntax
      ensures r == Full ==> Exhausted()
      ensures r == Ok ==> Code() == old(Code()) + [op, arg]
      ensures r == Full ==> codeSize == bytecode.Length
    {
      r := Emit(op);
      if r != Ok {
        return;
      }
      r := Emit(arg);
    }

    method Emit3(op: int, arg: int, arg2: int) returns (r: Status)
      requires Valid()
      modifies `codeSize, bytecode
      ensures Valid() && r != Syntax
      ensures r == Full ==> Exhausted()
      ensures r == Ok ==> Code() == old(Code()) + [op, arg, arg2]
      ensures r == Full ==> codeSize == bytecode.Length
    {
      r := Emit2(op, arg);
      if r != Ok {
        return;
      }
      r := Emit(arg2);
    }

    /** A jump whose target is not known yet; `p` is the cell to patch. */
    method EmitJump(op: int) returns (r: Status, p: nat)
      requires Valid()
      modifies `codeSize, bytecode
      ensures Valid() && r != Syntax
      ensures r == Full ==> Exhausted()
      ensures r == Ok ==> Code() == old(Code()) + [op, 0] && p == old(codeSize) + 1
      ensures r == Full ==> codeSize == bytecode.Length
    {
      p := codeSize + 1;
      r := Emit2(op, 0);
    }

    /** The jump target at `p` is the next instruction to be emitted. */
    method PatchHere(p: nat)
      requires Valid() && p < codeSize
      modifies bytecode
      ensures Valid() && Code() == old(Code())[p := codeSize]
    {
      bytecode[p] := codeSize;
    }

    /** make_const: the index of the value, which is appended if it is new. */
    method MakeConst(val: int) returns (r: Status, idx: nat)
      requires Valid()
      modifies `constCount, constants
      ensures Valid() && r != Syntax && old(Consts()) <= Consts()
      ensures r == Full ==> Exhausted()
      ensures r == Ok ==> val in Consts() && idx == ConstIndex(Consts(), val)
      ensures r == Full ==> constCount == constants.Length
    {
      idx := 0;
      while idx < constCount
        invariant 0 <= idx <= constCount
        invariant forall k :: 0 <= k < idx ==> constants[k] != val
      {
        if constants[idx] == val {
          assert Consts()[idx] == val;
          return Ok, idx;
        }
        idx := idx + 1;
      }
      if constCount >= constants.Length {
        return Full, 0;
      }
      constants[constCount] := val;
      constCount := constCount + 1;
      assert Consts()[idx] == val;
      r := Ok;
    }

    method EmitConst(val: int) returns (r: Status)
      requires Valid()
      modifies `codeSize, `constCount, bytecode, constants
      ensures Valid() && r != Syntax && old(Consts()) <= Consts()
      ensures r == Full ==> Exhausted()
      ensures r == Ok ==> val in Consts() && Code() == old(Code()) + PushConst(val, Ln())
    {
      var idx;
      r, idx := MakeConst(val);
      :- r;
      r := Emit2(M.OP_PSH_NUM, idx);
    }

    method Match(t: Token) returns (r: Status)
      requires Valid() && t != TEof
      modifies `pos
      ensures Valid()
      ensures r == Full ==> Exhausted()
      ensures if Peek(tokens, old(pos)) == t then r == Ok && pos == old(pos) + 1 else r == Syntax && pos == old(pos)
    {
      if Peek(tokens, pos) != t {
        return Syntax;
      }
      pos := pos + 1;
      return Ok;
    }

    method FindName(names: seq<string>, name: string) returns (r: int)
      ensures r == (match Find(names, name) case None => -1 case Some(i) => i)
    {
      var i := 0;
      while i < |names|
        invariant 0 <= i <= |names| && name !in names[..i]
      {
        if names[i] == name {
          return i;
        }
        i := i + 1;
      }
      assert names[..i] == names;
      return -1;
    }

    // ---- Expressions ----

    /** expression, term and the levels between, and factor. */
    method Expression(lvl: nat) returns (r: Status)
      requires Valid() && lvl <= FACTOR
      modifies `pos, `codeSize, `constCount, bytecode, constants
      ensures Valid()
      ensures r == Full ==> Exhausted()
      ensures r == Ok ==> Did(ParseAt(lvl, tokens, old(pos), Names()), old(Code()), old(Consts()))
      ensures r == Syntax ==> ParseAt(lvl, tokens, old(pos), Names()).None?
      decreases |tokens| - pos, 20 - lvl, 0
    {
      hide ParseCond, ParseFactor, ParseTail, Written, Exhausted;
      if lvl == EXPRESSION {
        r := Ternary();
      } else if lvl == FACTOR {
        r := Factor();
      } else {
        r := Operators(lvl);
      }
    }

    /** One level of left-associative operators; a range takes at most one. */
    method Operators(lvl: nat) returns (r: Status)
      requires Valid() && 1 <= lvl < FACTOR
      modifies `pos, `codeSize, `constCount, bytecode, constants
      ensures Valid()
      ensures r == Full ==> Exhausted()
      ensures r == Ok ==> Did(ParseAt(lvl, tokens, old(pos), Names()), old(Code()), old(Consts()))
      ensures r == Syntax ==> ParseAt(lvl, tokens, old(pos), Names()).None?
      decreases |tokens| - pos, 19 - lvl, 1
    {
      hide ParseCond, ParseFactor, Written, Code, Consts, OpCode, Names, Exhausted;
      :- Expression(lvl + 1);
      ghost var start, env, code, consts := old(pos), Names(), old(Code()), old(Consts());
      ghost var l := ParseAt(lvl + 1, tokens, start, env).value.0;
      while OpAt(lvl, Peek(tokens, pos)).Some?
        invariant Valid() && Names() == env && pos > start && Written(l, code, consts, Code(), Ln())
        invariant ParseAt(lvl, tokens, start, env) == ParseTail(lvl, l, tokens, pos, env)
        decreases |tokens| - pos
      {
        ghost var before := l;
        r, l := Operation(lvl, before, code, consts);
        if r != Ok {
          return;
        }
        if lvl == RANGE {
          return Ok;
        }
      }
      r := Ok;
    }

    /** An operator and its right operand. */
    method Operation(lvl: nat, ghost l: Expr, ghost code: seq<int>, ghost consts: seq<int>) returns (r: Status, ghost e: Expr)
      requires Valid() && 1 <= lvl < FACTOR && OpAt(lvl, Peek(tokens, pos)).Some? && Written(l, code, consts, Code(), Ln())
      modifies `pos, `codeSize, `constCount, bytecode, constants
      ensures Valid()
      ensures r == Full ==> Exhausted()
      ensures r == Ok ==> pos > old(pos) && Written(e, code, consts, Code(), Ln())
      ensures var p := ParseTail(lvl, l, tokens, old(pos), Names());
        && (r == Ok ==> p == if lvl == RANGE then Some((e, pos)) else ParseTail(lvl, e, tokens, pos, Names()))
        && (r == Syntax ==> p.None?)
      decreases |tokens| - pos, 19 - lvl, 0
    {
      hide ParseAt, Written, Code, Consts, OpCode, Names, Exhausted;
      PeekInside(tokens, pos, lvl);
      e := l;
      var op := OpAt(lvl, Peek(tokens, pos)).value;
      ghost var code1, ln1, right := Code(), Ln(), ParseAt(lvl + 1, tokens, pos + 1, Names());
      pos := pos + 1;
      :- Expression(lvl + 1);
      BinWritten(op, l, right.value.0, code, consts, code1, ln1, Code(), Ln());
      r := Emit(OpCode(op));
      e := Bin(op, l, right.value.0);
    }

    lemma PeekInside(ts: seq<Token>, i: nat, lvl: nat)
      requires OpAt(lvl, Peek(ts, i)).Some?
      ensures i < |ts|
    {
    }

    method Ternary() returns (r: Status)
      requires Valid()
      modifies `pos, `codeSize, `constCount, bytecode, constants
      ensures Valid()
      ensures r == Full ==> Exhausted()
      ensures r == Ok ==> Did(ParseCond(tokens, old(pos), Names()), old(Code()), old(Consts()))
      ensures r == Syntax ==> ParseCond(tokens, old(pos), Names()).None?
      decreases |tokens| - pos, 19, 2
    {
      hide ParseAt, ParseArms, Written, Code, Consts, Exhausted;
      ghost var code, consts := Code(), Consts();
      ghost var c := ParseAt(1, tokens, pos, Names());
      :- Expression(1);
      if Peek(tokens, pos) != TQuestion {
        return Ok;
      }
      pos := pos + 1;
      r := Arms(c.value.0, code, consts);
    }

    /** Both arms of a conditional: the first jump is patched to the second arm, the jump over that
        arm to its end. */
    method Arms(ghost c: Expr, ghost code: seq<int>, ghost consts: seq<int>) returns (r: Status)
      requires Valid() && Written(c, code, consts, Code(), Ln())
      modifies `pos, `codeSize, `constCount, bytecode, constants
      ensures Valid()
      ensures r == Full ==> Exhausted()
      ensures r == Ok ==> Did(ParseArms(c, tokens, old(pos), Names()), code, consts)
      ensures r == Syntax ==> ParseArms(c, tokens, old(pos), Names()).None?
      decreases |tokens| - pos, 20, 2
    {
      hide ParseAt, Written, Code, Consts, Exhausted;
      ghost var code1, ln1, t := Code(), Ln(), ParseAt(0, tokens, pos, Names());
      var p2;
      ghost var code2;
      r, p2, code2 := FirstArm();
      :- r;
      ghost var ln2, patched := Ln(), Code();
      :- Match(TElse);
      ghost var f := ParseAt(0, tokens, pos, Names());
      :- Expression(0);
      ghost var code3 := Code();
      WrittenLonger(f.value.0, patched, ln2.consts, code3, Ln());
      PatchHere(p2);
      CondWritten(c, t.value.0, f.value.0, code, consts, code1, ln1, code2, ln2, code3, Ln());
      r := Ok;
    }

    method FirstArm() returns (r: Status, p2: nat, ghost code2: seq<int>)
      requires Valid()
      modifies `pos, `codeSize, `constCount, bytecode, constants
      ensures Valid()
      ensures r == Full ==> Exhausted()
      ensures r == Ok ==>
        var t := ParseAt(0, tokens, old(pos), Names());
        && t.Some? && t.value.1 == pos
        && Written(t.value.0, old(Code()) + [M.OP_JZ, 0], old(Consts()), code2, Ln())
        && |code2| > old(codeSize) + 1 && p2 == |code2| + 1
        && Code() == (code2 + [M.OP_JMP, 0])[old(codeSize) + 1 := |code2| + 2]
      ensures r == Syntax ==> ParseAt(0, tokens, old(pos), Names()).None?
      decreases |tokens| - pos, 20, 1
    {
      hide ParseAt, Written, Code, Consts, Exhausted;
      var p1;
      p2, code2 := 0, [];
      r, p1 := EmitJump(M.OP_JZ);
      :- r;
      ghost var before, t := Code(), ParseAt(0, tokens, pos, Names());
      r := Expression(0);
      :- r;
      code2 := Code();
      WrittenLonger(t.value.0, before, old(Consts()), code2, Ln());
      r, p2 := EmitJump(M.OP_JMP);
      :- r;
      PatchHere(p1);
    }

    method Factor() returns (r: Status)
      requires Valid()
      modifies `pos, `codeSize, `constCount, bytecode, constants
      ensures Valid()
      ensures r == Full ==> Exhausted()
      ensures r == Ok ==> Did(ParseFactor(tokens, old(pos), Names()), old(Code()), old(Consts()))
      ensures r == Syntax ==> ParseFactor(tokens, old(pos), Names()).None?
      decreases |tokens| - pos, 10, 0
    {
      hide ParseAt, ParseName, ParseItems, Written, AllWritten, Code, Consts, Exhausted;
      ghost var code, consts := Code(), Consts();
      var t := Peek(tokens, pos);
      if t.TNum? {
        :- EmitConst(t.n);
        pos := pos + 1;
        ConstWritten(Lit(t.n), code, consts, Code(), Ln());
      } else if t == TTrue || t == TFalse {
        :- EmitConst(M.Bit(t == TTrue));
        pos := pos + 1;
        ConstWritten(Bool(t == TTrue), code, consts, Code(), Ln());
      } else if t == TMinus {
        r := Minus();
        return;
      } else if t == TLBracket {
        pos := pos + 1;
        var count;
        r, count := Items(TRBracket);
        :- r;
        ListWritten(ParseItems(tokens, old(pos) + 1, Names(), TRBracket).value.0, code, consts, Code(), Ln());
        :- Emit2(M.OP_ARR, count);
      } else if t.TId? {
        r := Name(t.name);
        return;
      } else if t == TLParen {
        pos := pos + 1;
        :- Expression(0);
        :- Match(TRParen);
      } else {
        return Syntax;
      }
      r := Ok;
    }

    method Minus() returns (r: Status)
      requires Valid() && Peek(tokens, pos) == TMinus
      modifies `pos, `codeSize, `constCount, bytecode, constants
      ensures Valid()
      ensures r == Full ==> Exhausted()
      ensures r == Ok ==> Did(ParseFactor(tokens, old(pos), Names()), old(Code()), old(Consts()))
      ensures r == Syntax ==> ParseFactor(tokens, old(pos), Names()).None?
      decreases |tokens| - pos, 9, 0
    {
      hide ParseAt, ParseName, ParseItems, Written, Code, Consts, Exhausted;
      ghost var code, consts := Code(), Consts();
      pos := pos + 1;
      var t := Peek(tokens, pos);
      if t.TNum? {
        :- EmitConst(0 - t.n);
        pos := pos + 1;
        ConstWritten(Neg(Lit(t.n)), code, consts, Code(), Ln());
      } else {
        :- EmitConst(0);
        ghost var ln := Ln();
        ghost var e := ParseFactor(tokens, pos, Names());
        :- Factor();
        NegWritten(e.value.0, code, consts, ln, Code(), Ln());
        :- Emit(M.OP_SUB);
      }
      r := Ok;
    }

    /** A call, or a variable with its subscripts. */
    method Name(name: string) returns (r: Status)
      requires Valid() && Peek(tokens, pos) == TId(name)
      modifies `pos, `codeSize, `constCount, bytecode, constants
      ensures Valid()
      ensures r == Full ==> Exhausted()
      ensures r == Ok ==> Did(ParseName(tokens, old(pos), Names()), old(Code()), old(Consts()))
      ensures r == Syntax ==> ParseName(tokens, old(pos), Names()).None?
      decreases |tokens| - pos, 9, 0
    {
      hide ParseAt, ParseItems, ParseSubs, Written, AllWritten, Find, Code, Consts, Exhausted;
      ghost var code, consts := Code(), Consts();
      pos := pos + 1;
      if Peek(tokens, pos) == TLParen {
        pos := pos + 1;
        var count;
        r, count := Items(TRParen);
        :- r;
        var f := FindName(funcs, name);
        if f < 0 {
          return Syntax;
        }
        CallWritten(f, ParseItems(tokens, old(pos) + 2, Names(), TRParen).value.0, code, consts, Code(), Ln());
        r := Emit3(M.OP_CALL, addrs[f], count);
      } else {
        var x := FindName(locals, name);
        if x < 0 {
          return Syntax;
        }
        :- Emit2(M.OP_LVAR, x);
        VarWritten(x, code, consts, Code(), Ln());
        r := Subscripts(Var(x), code, consts);
      }
    }

    /** The loop over `[i]` and `[lo:hi]` after a variable. */
    method Subscripts(ghost base: Expr, ghost code: seq<int>, ghost consts: seq<int>) returns (r: Status)
      requires Valid() && Written(base, code, consts, Code(), Ln())
      modifies `pos, `codeSize, `constCount, bytecode, constants
      ensures Valid()
      ensures r == Full ==> Exhausted()
      ensures r == Ok ==> Did(ParseSubs(base, tokens, old(pos), Names()), code, consts)
      ensures r == Syntax ==> ParseSubs(base, tokens, old(pos), Names()).None?
      decreases |tokens| - pos, 20, 1
    {
      hide ParseAt, Written, Code, Consts, Exhausted;
      ghost var a, env := base, Names();
      while Peek(tokens, pos) == TLBracket
        invariant Valid() && Names() == env && pos >= old(pos)
        invariant Written(a, code, consts, Code(), Ln())
        invariant ParseSubs(base, tokens, old(pos), env) == ParseSubs(a, tokens, pos, env)
        decreases |tokens| - pos
      {
        r, a := Subscript(a, code, consts);
        :- r;
      }
      r := Ok;
    }

    method Subscript(ghost a: Expr, ghost code: seq<int>, ghost consts: seq<int>) returns (r: Status, ghost e: Expr)
      requires Valid() && Written(a, code, consts, Code(), Ln()) && Peek(tokens, pos) == TLBracket
      modifies `pos, `codeSize, `constCount, bytecode, constants
      ensures Valid() && (r == Ok ==> pos > old(pos))
      ensures r == Full ==> Exhausted()
      ensures r == Ok ==> Written(e, code, consts, Code(), Ln())
      ensures r == Ok ==> ParseSubs(a, tokens, old(pos), Names()) == ParseSubs(e, tokens, pos, Names())
      ensures r == Syntax ==> ParseSubs(a, tokens, old(pos), Names()).None?
      decreases |tokens| - pos, 20, 0
    {
      hide ParseAt, ParseSubs, Written, Code, Consts, Exhausted;
      ghost var code1, ln1, env := Code(), Ln(), Names();
      SubsSteps(a, tokens, pos, env);
      pos := pos + 1;
      e := a;
      ghost var x := ParseAt(0, tokens, pos, env);
      r := Expression(0);
      :- r;
      ghost var code2, ln2 := Code(), Ln();
      if Peek(tokens, pos) == TColon {
        pos := pos + 1;
        r, e := SpanEnd(a, x.value.0, code, consts, code1, ln1);
      } else {
        r := Match(TRBracket);
        :- r;
        IndexWritten(a, x.value.0, code, consts, code1, ln1, Code(), Ln());
        e := Index(a, x.value.0);
        r := Emit(M.OP_AGET);
      }
    }

    method SpanEnd(ghost a: Expr, ghost x: Expr, ghost code: seq<int>, ghost consts: seq<int>, ghost code1: seq<int>, ghost ln1: Link)
      returns (r: Status, ghost e: Expr)
      requires Valid() && ln1.addrs == addrs
      requires Written(a, code, consts, code1, ln1) && Written(x, code1, ln1.consts, Code(), Ln())
      modifies `pos, `codeSize, `constCount, bytecode, constants
      ensures Valid() && (r == Ok ==> pos > old(pos))
      ensures r == Full ==> Exhausted()
      ensures r == Ok ==>
        var y := ParseAt(0, tokens, old(pos), Names());
        && y.Some? && Peek(tokens, y.value.1) == TRBracket && pos == y.value.1 + 1
        && e == Span(a, x, y.value.0) && Written(e, code, consts, Code(), Ln())
      ensures r == Syntax ==>
        var y := ParseAt(0, tokens, old(pos), Names());
        y.None? || Peek(tokens, y.value.1) != TRBracket
      decreases |tokens| - pos, 20, 2
    {
      hide ParseAt, Written, Code, Consts, Exhausted;
      ghost var code2, ln2, y := Code(), Ln(), ParseAt(0, tokens, pos, Names());
      e := a;
      r := Expression(0);
      :- r;
      r := Match(TRBracket);
      :- r;
      SpanWritten(a, x, y.value.0, code, consts, code1, ln1, code2, ln2, Code(), Ln());
      e := Span(a, x, y.value.0);
      r := Emit(M.OP_SLICE);
    }

    /** Expressions separated by commas, and the closing token. */
    method Items(close: Token) returns (r: Status, count: nat)
      requires Valid() && close != TEof
      modifies `pos, `codeSize, `constCount, bytecode, constants
      ensures Valid()
      ensures r == Full ==> Exhausted()
      ensures r == Ok ==>
        var p := ParseItems(tokens, old(pos), Names(), close);
        && p.Some? && p.value.1 == pos && count == |p.value.0|
        && AllWritten(p.value.0, old(Code()), old(Consts()), Code(), Ln())
      ensures r == Syntax ==> ParseItems(tokens, old(pos), Names(), close).None?
      decreases |tokens| - pos, 20, 1
    {
      hide ParseAt, Written, AllWritten, Code, Consts, Exhausted;
      ghost var es, env, code, consts := [], Names(), Code(), Consts();
      count := 0;
      NoneWritten(code, Ln());
      if Peek(tokens, pos) == close {
        pos := pos + 1;
        return Ok, 0;
      }
      ghost var ln := Ln();
      ghost var e := ParseAt(0, tokens, pos, env);
      r := Expression(0);
      :- r;
      count := 1;
      MoreWritten([], e.value.0, code, consts, code, ln, Code(), Ln());
      es := [e.value.0];
      assert [] + [e.value.0] == es;
      while Peek(tokens, pos) == TComma
        invariant Valid() && Names() == env && pos > old(pos) && count == |es|
        invariant AllWritten(es, code, consts, Code(), Ln())
        invariant ParseItems(tokens, old(pos), env, close) == ParseMore(es, tokens, pos, env, close)
        decreases |tokens| - pos
      {
        pos := pos + 1;
        ghost var code1, ln1 := Code(), Ln();
        e := ParseAt(0, tokens, pos, env);
        r := Expression(0);
        :- r;
        count := count + 1;
        MoreWritten(es, e.value.0, code, consts, code1, ln1, Code(), Ln());
        es := es + [e.value.0];
      }
      r := Match(close);
    }

    // ---- Statements ----

    ghost function Now(): (w: Work)
      requires codeSize <= bytecode.Length && constCount <= constants.Length
      reads `codeSize, `constCount, `addrs, `cx, `loops, bytecode, constants
      ensures |w.code| == codeSize && w.loops == loops && w.cx == cx
    {
      Work(Code(), Ln(), cx, loops)
    }

    /** The counters agree with the context, and every recorded cell has been emitted. */
    ghost predicate Ready()
      reads this
    {
      Valid() && InStep(cx, |locals|, scopeDepth, loops) && Emitted(loops, codeSize)
    }

    /** What was parsed is what was built. */
    ghost predicate Made(p: Option<Parsed>, a: Work)
      requires codeSize <= bytecode.Length && constCount <= constants.Length
      reads `codeSize, `constCount, `addrs, `cx, `loops, `pos, `locals, bytecode, constants
    {
      p.Some? && p.value.end == pos && p.value.locals == locals && Built(p.value.s, a, Now())
    }

    lemma ExprEvaluated(e: Expr, a: Work)
      requires Valid() && Written(e, a.code, a.ln.consts, Code(), Ln()) && a.ln.addrs == addrs && a.cx == cx && a.loops == loops
      ensures Evaluated(e, a, Now()) && |a.code| <= codeSize
    {
    }

    method EmitTimes(op: int, n: int) returns (r: Status)
      requires Valid()
      modifies `codeSize, bytecode
      ensures Valid() && r != Syntax
      ensures r == Full ==> Exhausted()
      ensures r == Ok ==> Code() == old(Code()) + Times(op, n)
    {
      hide Code, Exhausted;
      var i := 0;
      while i < n
        invariant Valid() && 0 <= i && (n > 0 ==> i <= n) && (n <= 0 ==> i == 0)
        invariant Code() + Times(op, n - i) == old(Code()) + Times(op, n)
      {
        ghost var before := Code();
        :- Emit(op);
        assert before + Times(op, n - i) == Code() + Times(op, n - (i + 1));
        i := i + 1;
      }
      assert Code() + [] == Code();
      r := Ok;
    }

    /** The pops of a scope's locals, and its exit. */
    method EmitLeave(pops: nat) returns (r: Status)
      requires Valid()
      modifies `codeSize, bytecode
      ensures Valid() && r != Syntax
      ensures r == Full ==> Exhausted()
      ensures r == Ok ==> Code() == old(Code()) + (Times(M.OP_POP, pops) + [M.OP_SCOPE_EXIT])
    {
      hide Code, Times, Exhausted;
      :- EmitTimes(M.OP_POP, pops);
      :- Emit(M.OP_SCOPE_EXIT);
      r := Ok;
    }

    /** emit_break and emit_continue. */
    method EmitUnwind(isBreak: bool) returns (r: Status)
      requires Ready()
      modifies `codeSize, `loops, bytecode
      ensures Valid() && (r == Ok ==> Ready())
      ensures r == Full ==> Exhausted()
      ensures r == Syntax <==> |old(loops)| == 0
      ensures r == Ok ==> Built(if isBreak then Break else Continue, old(Now()), Now())
    {
      hide Code, Times, InStep, Built, Emitted;
      StepFacts(cx, |locals|, scopeDepth, loops, codeSize);
      if |loops| == 0 {
        return Syntax;
      }
      var l := loops[|loops| - 1];
      :- EmitTimes(M.OP_SCOPE_EXIT, scopeDepth - l.scopeDepth);
      :- EmitTimes(M.OP_POP, |locals| - l.localCount);
      if |if isBreak then l.breaks else l.continues| >= MAX_JUMPS_PER_LOOP {
        return Full;
      }
      ghost var was := old(Now());
      r := EmitRecorded(isBreak, was);
    }

    /** The jump itself, whose target cell is recorded with the loop. */
    method EmitRecorded(isBreak: bool, ghost was: Work) returns (r: Status)
      requires Ready() && |loops| > 0 && was.ln == Ln() && was.cx == cx && was.loops == loops
      requires Code() + [M.OP_JMP, 0] == was.code + Unwind(cx, 0)
      modifies `codeSize, `loops, bytecode
      ensures Valid() && (r == Ok ==> Ready()) && r != Syntax
      ensures r == Full ==> Exhausted()
      ensures r == Ok ==> Built(if isBreak then Break else Continue, was, Now())
    {
      hide Code, Unwind, InStep, Built, Emitted, Exhausted;
      StepFacts(cx, |locals|, scopeDepth, loops, codeSize);
      ghost var before := codeSize;
      var n := |loops| - 1;
      var l := loops[n];
      var p;
      r, p := EmitJump(M.OP_JMP);
      :- r;
      assert l.breaks + [] == l.breaks && l.continues + [] == l.continues;
      if isBreak {
        loops := loops[n := l.(breaks := l.breaks + [p])];
      } else {
        loops := loops[n := l.(continues := l.continues + [p])];
      }
      JumpBuilt(if isBreak then Break else Continue, was, Now());
      CellRecorded(cx, |locals|, scopeDepth, was.loops, before, loops, codeSize);
    }

    method Statement() returns (r: Status)
      requires Ready()
      modifies `pos, `codeSize, `constCount, `locals, `scopeDepth, `loops, `cx, bytecode, constants
      ensures Valid() && (r == Ok ==> Ready())
      ensures r == Full ==> Exhausted()
      ensures r == Ok ==> Made(ParseStmt(tokens, old(pos), old(Names()), |old(loops)|), old(Now()))
      ensures r == Syntax ==> ParseStmt(tokens, old(pos), old(Names()), |old(loops)|).None?
      decreases |tokens| - pos, 2
    {
      hide Made, Now, Built, InStep, Emitted, ParseDecl, ParseFor, ParseIdent, ParseIf, ParseForever, ParseRet, ParseOther, Exhausted;
      var t := Peek(tokens, pos);
      if t == TFor || t == TIf || t == TForever {
        r := BlockStatement();
      } else if t == TVar {
        pos := pos + 1;
        r := VarDecl();
      } else if t.TId? {
        r := IdStatement(t.name);
      } else if t == TRet {
        pos := pos + 1;
        r := RetStatement();
      } else {
        r := OtherStatement();
      }
    }

    method BlockStatement() returns (r: Status)
      requires Ready() && Peek(tokens, pos) in {TFor, TIf, TForever}
      modifies `pos, `codeSize, `constCount, `locals, `scopeDepth, `loops, `cx, bytecode, constants
      ensures Valid() && (r == Ok ==> Ready())
      ensures r == Full ==> Exhausted()
      ensures r == Ok ==> Made(ParseStmt(tokens, old(pos), old(Names()), |old(loops)|), old(Now()))
      ensures r == Syntax ==> ParseStmt(tokens, old(pos), old(Names()), |old(loops)|).None?
      decreases |tokens| - pos, 1
    {
      hide Made, Now, Built, InStep, Emitted, ParseDecl, ParseFor, ParseIdent, ParseIf, ParseForever, ParseRet, ParseOther, Exhausted;
      var t := Peek(tokens, pos);
      pos := pos + 1;
      if t == TFor {
        r := ForStatement();
      } else if t == TIf {
        r := IfStatement();
      } else {
        r := ForeverStatement();
      }
    }

    method OtherStatement() returns (r: Status)
      requires Ready()
      modifies `pos, `codeSize, `loops, bytecode
      ensures Valid() && (r == Ok ==> Ready())
      ensures r == Full ==> Exhausted()
      ensures r == Ok ==> Made(ParseOther(tokens, old(pos), old(Names()), |old(loops)|), old(Now()))
      ensures r == Syntax ==> ParseOther(tokens, old(pos), old(Names()), |old(loops)|).None?
    {
      hide Built, InStep, Emitted, Exhausted;
      ghost var was := Now();
      var t := Peek(tokens, pos);
      if t == TEof {
        return Syntax;
      }
      pos := pos + 1;
      if t == TBreak || t == TContinue {
        r := EmitUnwind(t == TBreak);
      } else {
        SimpleBuilt(Skip, was, Now());
        r := Ok;
      }
    }

    method VarDecl() returns (r: Status)
      requires Ready()
      modifies `pos, `codeSize, `constCount, `locals, `cx, bytecode, constants
      ensures Valid() && (r == Ok ==> Ready())
      ensures r == Full ==> Exhausted()
      ensures r == Ok ==> Made(ParseDecl(tokens, old(pos), old(Names())), old(Now()))
      ensures r == Syntax ==> ParseDecl(tokens, old(pos), old(Names())).None?
    {
      hide ParseAt, Written, Evaluated, Code, Consts, InStep, Built, Emitted, Exhausted;
      ghost var was := Now();
      StepFacts(cx, |locals|, scopeDepth, loops, codeSize);
      var t := Peek(tokens, pos);
      if !t.TId? {
        return Syntax;
      }
      pos := pos + 1;
      :- Match(TAssign);
      ghost var e := ParseAt(0, tokens, pos, Names());
      :- Expression(0);
      ExprEvaluated(e.value.0, was);
      AllocVar(t.name, e.value.0, was);
      r := Ok;
    }

    /** alloc_var of the variable whose initial value was just compiled. */
    method AllocVar(name: string, ghost e: Expr, ghost was: Work)
      requires Valid() && InStep(cx, |locals|, scopeDepth, loops) && Evaluated(e, was, Now())
      modifies `locals, `cx
      ensures Valid() && InStep(cx, |locals|, scopeDepth, loops)
      ensures locals == old(locals) + [name] && Built(Decl(e), was, Now())
    {
      hide InStep, Built, Evaluated;
      MoreLocals(cx, |locals|, scopeDepth, loops, 1);
      DeclBuilt(e, was, Now());
      locals := locals + [name];
      assert cx == was.cx by { EvaluatedCx(e, was, Now()); }
      cx := cx.(locals := cx.locals + 1);
    }

    method IdStatement(name: string) returns (r: Status)
      requires Ready() && Peek(tokens, pos) == TId(name)
      modifies `pos, `codeSize, `constCount, bytecode, constants
      ensures Valid() && (r == Ok ==> Ready())
      ensures r == Full ==> Exhausted()
      ensures r == Ok ==> Made(ParseIdent(tokens, old(pos), old(Names())), old(Now()))
      ensures r == Syntax ==> ParseIdent(tokens, old(pos), old(Names())).None?
    {
      hide ParseAt, ParseItems, Written, AllWritten, Evaluated, Code, Consts, Find, InStep, Built, Emitted, Exhausted;
      ghost var was := Now();
      StepFacts(cx, |locals|, scopeDepth, loops, codeSize);
      pos := pos + 1;
      if Peek(tokens, pos) == TAssign {
        pos := pos + 1;
        ghost var e := ParseAt(0, tokens, pos, Names());
        :- Expression(0);
        ExprEvaluated(e.value.0, was);
        var x := FindName(locals, name);
        if x < 0 {
          return Syntax;
        }
        AssignBuilt(x, e.value.0, was, Now());
        r := Emit2(M.OP_SVAR, x);
      } else if Peek(tokens, pos) == TLParen {
        r := CallStatement(name);
      } else if Peek(tokens, pos) == TLBracket {
        r := Syntax;
      } else {
        SimpleBuilt(Skip, was, Now());
        r := Ok;
      }
    }

    method CallStatement(name: string) returns (r: Status)
      requires Ready() && Peek(tokens, pos) == TLParen
      modifies `pos, `codeSize, `constCount, bytecode, constants
      ensures Valid() && (r == Ok ==> Ready())
      ensures r == Full ==> Exhausted()
      ensures var p, f := ParseItems(tokens, old(pos) + 1, old(Names()), TRParen), Find(old(funcs), name);
        && (r == Ok ==> p.Some? && f.Some? && p.value.1 == pos && Built(Do(f.value, p.value.0), old(Now()), Now()))
        && (r == Syntax ==> p.None? || f.None?)
    {
      hide ParseItems, AllWritten, AllSettled, GenExprs, Code, Consts, Find, InStep, Built, Emitted, Exhausted;
      ghost var was := Now();
      StepFacts(cx, |locals|, scopeDepth, loops, codeSize);
      pos := pos + 1;
      var count;
      r, count := Items(TRParen);
      :- r;
      ghost var es := ParseItems(tokens, old(pos) + 1, Names(), TRParen).value.0;
      var f := FindName(funcs, name);
      if f < 0 {
        return Syntax;
      }
      ArgsWritten(es, was);
      DoBuilt(f, es, was, Now());
      :- Emit3(M.OP_CALL, addrs[f], count);
      :- Emit(M.OP_POP);
    }

    lemma ArgsWritten(es: seq<Expr>, a: Work)
      requires Valid() && AllWritten(es, a.code, a.ln.consts, Code(), Ln())
      ensures Code() == a.code + GenExprs(es, Ln(), |a.code|) && AllSettled(es, Ln())
      ensures a.ln.consts <= Consts() && |a.code| <= codeSize
    {
    }

    method RetStatement() returns (r: Status)
      requires Ready()
      modifies `pos, `codeSize, `constCount, bytecode, constants
      ensures Valid() && (r == Ok ==> Ready())
      ensures r == Full ==> Exhausted()
      ensures r == Ok ==> Made(ParseRet(tokens, old(pos), old(Names())), old(Now()))
      ensures r == Syntax ==> ParseRet(tokens, old(pos), old(Names())).None?
    {
      hide ParseAt, Written, Evaluated, Code, Consts, InStep, Built, Emitted, Exhausted;
      ghost var was := Now();
      StepFacts(cx, |locals|, scopeDepth, loops, codeSize);
      ghost var e := Lit(0);
      if Peek(tokens, pos) == TRBrace {
        :- EmitConst(0);
        ConstWritten(Lit(0), was.code, was.ln.consts, Code(), Ln());
      } else {
        ghost var p := ParseAt(0, tokens, pos, Names());
        :- Expression(0);
        e := p.value.0;
      }
      ExprEvaluated(e, was);
      RetBuilt(e, was, Now());
      r := Emit(M.OP_RET);
    }

    /** The statements up to the closing brace. */
    method Body() returns (r: Status, ghost s: Stmt)
      requires Ready()
      modifies `pos, `codeSize, `constCount, `locals, `scopeDepth, `loops, `cx, bytecode, constants
      ensures Valid() && (r == Ok ==> Ready())
      ensures r == Full ==> Exhausted()
      ensures r == Ok ==>
        && ParseBody(tokens, old(pos), old(Names()), |old(loops)|, Skip) == Some(Parsed(s, pos, locals))
        && Built(s, old(Now()), Now())
      ensures r == Syntax ==> ParseBody(tokens, old(pos), old(Names()), |old(loops)|, Skip).None?
      decreases |tokens| - pos, 3
    {
      hide ParseStmt, Built, Code, Consts, InStep, Emitted, Exhausted;
      ghost var start, env, d, was := pos, Names(), |loops|, Now();
      s := Skip;
      SimpleBuilt(Skip, was, was);
      while Peek(tokens, pos) != TRBrace && Peek(tokens, pos) != TEof
        invariant Ready() && funcs == env.funcs && |loops| == d && start <= pos
        invariant ParseBody(tokens, start, env, d, Skip) == ParseBody(tokens, pos, Names(), d, s)
        invariant Built(s, was, Now())
        decreases |tokens| - pos
      {
        ghost var mid, t := Now(), ParseStmt(tokens, pos, Names(), d);
        r := Statement();
        :- r;
        ThenBuilt(s, t.value.s, was, mid, Now());
        SameCount(t.value.s, mid, Now());
        s := Then(s, t.value.s);
      }
      r := Ok;
    }

    /** A braced body between its scope entry and exit; its locals are popped. */
    method Block() returns (r: Status)
      requires Ready()
      modifies `pos, `codeSize, `constCount, `locals, `scopeDepth, `loops, `cx, bytecode, constants
      ensures Valid() && (r == Ok ==> Ready())
      ensures r == Full ==> Exhausted()
      ensures r == Ok ==> Made(ParseBlock(tokens, old(pos), old(Names()), |old(loops)|), old(Now()))
      ensures r == Syntax ==> ParseBlock(tokens, old(pos), old(Names()), |old(loops)|).None?
      decreases |tokens| - pos, 5
    {
      hide ParseBody, Built, Code, Consts, Times, InStep, Emitted, Exhausted;
      ghost var was := Now();
      :- Match(TLBrace);
      ghost var s;
      r, s := Scoped();
      :- r;
      :- Match(TRBrace);
      r := Ok;
    }

    /** The statements of a block with its scope entry, pops and scope exit. */
    method Scoped() returns (r: Status, ghost s: Stmt)
      requires Ready()
      modifies `pos, `codeSize, `constCount, `locals, `scopeDepth, `loops, `cx, bytecode, constants
      ensures Valid() && (r == Ok ==> Ready())
      ensures r == Full ==> Exhausted()
      ensures r == Ok ==>
        && locals == old(locals) && Built(Blk(s), old(Now()), Now())
        && var p := ParseBody(tokens, old(pos), old(Names()), |old(loops)|, Skip);
          p.Some? && p.value.s == s && p.value.end == pos
      ensures r == Syntax ==> ParseBody(tokens, old(pos), old(Names()), |old(loops)|, Skip).None?
      decreases |tokens| - pos, 4
    {
      hide ParseBody, Built, Code, Consts, Times, InStep, Emitted, Exhausted;
      ghost var was := Now();
      var saved := |locals|;
      StepFacts(cx, |locals|, scopeDepth, loops, codeSize);
      s := Skip;
      r := Emit(M.OP_SCOPE_ENTER);
      :- r;
      scopeDepth := scopeDepth + 1;
      cx := Enter(cx);
      r, s := Body();
      :- r;
      LeaveScope(s, was, saved);
      r := EmitLeave(|locals| - saved);
      locals := locals[..saved];
      scopeDepth := scopeDepth - 1;
      cx := was.cx.(depth := cx.depth - 1);
    }

    lemma LeaveScope(s: Stmt, a: Work, saved: nat)
      requires Ready() && Built(s, a.(code := a.code + [M.OP_SCOPE_ENTER], cx := Enter(a.cx)), Now())
      requires InStep(a.cx, saved, a.cx.depth, a.loops)
      ensures Built(Blk(s), a, Work(Code() + (Times(M.OP_POP, |locals| - saved) + [M.OP_SCOPE_EXIT]), Ln(),
                                    a.cx.(depth := scopeDepth - 1), loops))
      ensures saved <= |locals| && cx.depth == scopeDepth
      ensures InStep(a.cx.(depth := scopeDepth - 1), saved, scopeDepth - 1, loops)
      ensures forall n: nat :: codeSize <= n ==> Emitted(loops, n)
    {
      hide Built, InStep, Times, Emitted;
      StepFacts(cx, |locals|, scopeDepth, loops, codeSize);
      assert a.cx.locals == saved by { InStepLocals(a.cx, saved, a.cx.depth, a.loops); }
      BlkBuilt(s, a, Now());
      assert Code() + (Times(M.OP_POP, |locals| - saved) + [M.OP_SCOPE_EXIT])
        == Code() + Times(M.OP_POP, |locals| - saved) + [M.OP_SCOPE_EXIT];
      SameCount(s, a.(code := a.code + [M.OP_SCOPE_ENTER], cx := Enter(a.cx)), Now());
      StepBack(a.cx, saved, a.cx.depth, a.loops, cx, |locals|, scopeDepth, loops, scopeDepth - 1);
    }

    /** parse_if: each branch is patched to the rest of the chain, each exit jump to its end. */
    method IfStatement() returns (r: Status)
      requires Ready()
      modifies `pos, `codeSize, `constCount, `locals, `scopeDepth, `loops, `cx, bytecode, constants
      ensures Valid() && (r == Ok ==> Ready())
      ensures r == Full ==> Exhausted()
      ensures r == Ok ==> Made(ParseIf(tokens, old(pos), old(Names()), |old(loops)|), old(Now()))
      ensures r == Syntax ==> ParseIf(tokens, old(pos), old(Names()), |old(loops)|).None?
      decreases |tokens| - pos, 6
    {
      hide ParseAt, ParseBlock, ParseChain, Written, Evaluated, Code, Consts, InStep, Built, Emitted, Exhausted;
      ghost var was, env, d := Now(), Names(), |loops|;
      StepFacts(cx, |locals|, scopeDepth, loops, codeSize);
      ghost var e := ParseAt(0, tokens, pos, env);
      :- Expression(0);
      ghost var c := Now();
      ExprEvaluated(e.value.0, was);
      var p1;
      r, p1 := EmitJump(M.OP_JZ);
      :- r;
      ghost var w, t := Now(), ParseBlock(tokens, pos, env, d);
      :- Block();
      SameCount(t.value.s, w, Now());
      r := Chain(e.value.0, t.value.s, p1, was, c);
    }

    /** The elif and else parts, or nothing. */
    method Chain(ghost e: Expr, ghost t: Stmt, p1: nat, ghost was: Work, ghost c: Work) returns (r: Status)
      requires Ready() && t.Blk? && Evaluated(e, was, c) && Built(t, c.(code := c.code + [M.OP_JZ, 0]), Now())
      requires p1 == |c.code| + 1 && p1 < codeSize
      modifies `pos, `codeSize, `constCount, `locals, `scopeDepth, `loops, `cx, bytecode, constants
      ensures Valid() && (r == Ok ==> Ready())
      ensures r == Full ==> Exhausted()
      ensures var p := ParseChain(tokens, old(pos), old(Names()), |old(loops)|);
        && (r == Ok ==> p.Some? && p.value.end == pos && p.value.locals == locals && Built(If(e, t, p.value.s), was, Now()))
        && (r == Syntax ==> p.None?)
      decreases |tokens| - pos, 7
    {
      hide ParseIf, ParseBlock, Evaluated, Code, Consts, InStep, Built, Emitted, Exhausted;
      ghost var m := Now();
      StepFacts(cx, |locals|, scopeDepth, loops, codeSize);
      if Peek(tokens, pos) != TElif && Peek(tokens, pos) != TElse {
        IfBuilt(e, t, was, c, m);
        PatchHere(p1);
        return Ok;
      }
      r := ElsePart(e, t, p1, was, c);
    }

    method ElsePart(ghost e: Expr, ghost t: Stmt, p1: nat, ghost was: Work, ghost c: Work) returns (r: Status)
      requires Ready() && t.Blk? && Evaluated(e, was, c) && Built(t, c.(code := c.code + [M.OP_JZ, 0]), Now())
      requires p1 == |c.code| + 1 && p1 < codeSize && (Peek(tokens, pos) == TElif || Peek(tokens, pos) == TElse)
      modifies `pos, `codeSize, `constCount, `locals, `scopeDepth, `loops, `cx, bytecode, constants
      ensures Valid() && (r == Ok ==> Ready())
      ensures r == Full ==> Exhausted()
      ensures var p := ParseChain(tokens, old(pos), old(Names()), |old(loops)|);
        && (r == Ok ==> p.Some? && p.value.end == pos && p.value.locals == locals && Built(If(e, t, p.value.s), was, Now()))
        && (r == Syntax ==> p.None?)
      decreases |tokens| - pos, 6
    {
      hide ParseIf, ParseBlock, Evaluated, Code, Consts, InStep, Built, Emitted, Exhausted;
      ghost var m := Now();
      StepFacts(cx, |locals|, scopeDepth, loops, codeSize);
      var p2;
      r, p2 := EmitJump(M.OP_JMP);
      :- r;
      PatchHere(p1);
      ghost var j := Now();
      var isElif := Peek(tokens, pos) == TElif;
      pos := pos + 1;
      ghost var f := ChainAt(isElif);
      if isElif {
        r := IfStatement();
      } else {
        r := Block();
      }
      :- r;
      SameCount(f.value.s, j, Now());
      StepFacts(cx, |locals|, scopeDepth, loops, codeSize);
      IfElseBuilt(e, t, f.value.s, was, c, m, Now());
      PatchHere(p2);
    }

    ghost function ChainAt(isElif: bool): Option<Parsed>
      requires Valid()
      reads this
    {
      if isElif then ParseIf(tokens, pos, Names(), |loops|) else ParseBlock(tokens, pos, Names(), |loops|)
    }

    /** push_loop. */
    method PushLoop() returns (r: Status)
      requires Ready()
      modifies `loops, `cx
      ensures Valid() && r != Syntax
      ensures r == Full ==> Exhausted()
      ensures r == Ok ==> Ready() && cx == InLoop(old(cx), 0, 0) && loops == Open(old(cx), old(loops))
    {
      if |loops| >= MAX_LOOP_NESTING {
        return Full;
      }
      loops := loops + [LoopControl(scopeDepth, |locals|, [], [])];
      cx := InLoop(cx, 0, 0);
      r := Ok;
    }

    /** pop_loop: the recorded continues, then the recorded breaks. */
    method PopLoop(continueAddr: int, breakAddr: int)
      requires Valid() && |loops| > 0 && Emitted(loops, codeSize)
      modifies `loops, bytecode
      ensures Valid() && loops == old(loops)[..|old(loops)| - 1] && Emitted(loops, codeSize)
      ensures var l := old(loops)[|old(loops)| - 1];
        Patched(old(Code()), Code(), 0, l.breaks, l.continues, breakAddr, continueAddr)
    {
      var l := loops[|loops| - 1];
      loops := loops[..|loops| - 1];
      ghost var was, rest := Code(), loops;
      var i := 0;
      while i < |l.continues|
        invariant 0 <= i <= |l.continues| && loops == rest
        invariant forall k :: 0 <= k < codeSize ==> bytecode[k] == Set(was[k], k, [], l.continues[..i], breakAddr, continueAddr)
      {
        bytecode[l.continues[i]] := continueAddr;
        i := i + 1;
      }
      assert l.continues[..i] == l.continues;
      i := 0;
      while i < |l.breaks|
        invariant 0 <= i <= |l.breaks| && loops == rest
        invariant forall k :: 0 <= k < codeSize ==> bytecode[k] == Set(was[k], k, l.breaks[..i], l.continues, breakAddr, continueAddr)
      {
        bytecode[l.breaks[i]] := breakAddr;
        i := i + 1;
      }
      assert l.breaks[..i] == l.breaks;
      assert forall k :: 0 <= k < |was| ==> Code()[k] == Set(was[k], 0 + k, l.breaks, l.continues, breakAddr, continueAddr);
    }

    method ForeverStatement() returns (r: Status)
      requires Ready()
      modifies `pos, `codeSize, `constCount, `locals, `scopeDepth, `loops, `cx, bytecode, constants
      ensures Valid() && (r == Ok ==> Ready())
      ensures r == Full ==> Exhausted()
      ensures r == Ok ==> Made(ParseForever(tokens, old(pos), old(Names()), |old(loops)|), old(Now()))
      ensures r == Syntax ==> ParseForever(tokens, old(pos), old(Names()), |old(loops)|).None?
      decreases |tokens| - pos, 7
    {
      hide ParseBlock, Code, Consts, InStep, Built, Emitted, InLoop, Patched, Later, Names, Exhausted;
      ghost var was := Now();
      StepFacts(cx, |locals|, scopeDepth, loops, codeSize);
      var loop := codeSize;
      ghost var b;
      r, b := LoopBlock();
      :- r;
      r := CloseForever(b, was, loop);
    }

    /** The back jump, and pop_loop. */
    method CloseForever(ghost b: Stmt, ghost was: Work, loop: int) returns (r: Status)
      requires Ready() && loop == |was.code| && was.cx.locals == |locals|
      requires InStep(was.cx, |locals|, was.cx.depth, was.loops) && |loops| == |was.loops| + 1
      requires b.Blk? && Built(b, was.(cx := InLoop(was.cx, 0, 0), loops := Open(was.cx, was.loops)), Now())
      modifies `codeSize, `loops, `cx, bytecode
      ensures Valid() && (r == Ok ==> Ready()) && r != Syntax
      ensures r == Full ==> Exhausted()
      ensures r == Ok ==> Built(Forever(b), was, Now())
    {
      hide Code, Consts, InStep, Built, Emitted, InLoop, Patched, Later, Exhausted;
      ghost var m := Now();
      SameCount(b, was.(cx := InLoop(was.cx, 0, 0), loops := Open(was.cx, was.loops)), m);
      StepFacts(cx, |locals|, scopeDepth, loops, codeSize);
      :- Emit2(M.OP_JMP, loop);
      PopLoop(loop, codeSize);
      ForeverBuilt(b, was, m, Code());
      OuterStep(was.cx, |locals|, was.cx.depth, was.loops, scopeDepth, loops);
      cx := was.cx.(depth := cx.depth);
      r := Ok;
    }

    method ForStatement() returns (r: Status)
      requires Ready()
      modifies `pos, `codeSize, `constCount, `locals, `scopeDepth, `loops, `cx, bytecode, constants
      ensures Valid() && (r == Ok ==> Ready())
      ensures r == Full ==> Exhausted()
      ensures r == Ok ==> Made(ParseFor(tokens, old(pos), old(Names()), |old(loops)|), old(Now()))
      ensures r == Syntax ==> ParseFor(tokens, old(pos), old(Names()), |old(loops)|).None?
      decreases |tokens| - pos, 6
    {
      hide ParseIter, ParseCondFor, Made, Now, InStep, Emitted, Exhausted;
      :- Match(TLParen);
      var t := Peek(tokens, pos);
      if t == TVar {
        pos := pos + 1;
        if Peek(tokens, pos).TId? {
          r := Iteration(tokens[pos].name);
        } else {
          r := Syntax;
        }
      } else if t.TId? && Peek(tokens, pos + 1) == TIn {
        r := Iteration(t.name);
      } else if t.TId? && (Peek(tokens, pos + 1) == TComma || Peek(tokens, pos + 1) == TColon) {
        r := Syntax;
      } else {
        r := ConditionLoop();
      }
    }

    /** Scope entry, loop variable, collection and position. */
    method IterationHead(name: string) returns (r: Status, x: nat, ghost e: Expr)
      requires Ready() && Peek(tokens, pos) == TId(name)
      modifies `pos, `codeSize, `constCount, `locals, `scopeDepth, `cx, bytecode, constants
      ensures Valid()
      ensures r == Full ==> Exhausted()
      ensures var reuse, env := Find(old(locals), name), Env(WithLoopVar(old(locals), name), funcs);
        && (r == Ok ==>
              && Ready() && Peek(tokens, old(pos) + 1) == TIn
              && ParseAt(0, tokens, old(pos) + 2, env) == Some((e, pos))
              && locals == WithLoopVar(old(locals), name) + Hidden(|loops|)
              && cx == ForCtx(old(cx), reuse) && x == LoopVar(reuse, old(cx)) && x < cx.locals
              && 0 in Consts() && Settled(e, Ln()) && old(Consts()) <= Consts()
              && Code() == old(Code()) + ForHead(reuse, e, Ln(), old(codeSize)))
        && (r == Syntax ==> Peek(tokens, old(pos) + 1) != TIn || ParseAt(0, tokens, old(pos) + 2, env).None?)
    {
      hide ParseAt, Code, Consts, InStep, Emitted, Find, Settled, ForHead, PushConst, Exhausted;
      ghost var code, reuse, base := Code(), Find(locals, name), cx;
      x, e := 0, Lit(0);
      pos := pos + 1;
      var st, loc := LoopVariable(name);
      r := st;
      :- r;
      x := loc;
      StepFacts(cx, |locals|, scopeDepth, loops, codeSize);
      r, e := Collection(reuse, code);
      :- r;
      MoreLocals(cx, |locals|, scopeDepth, loops, 2);
      locals := locals + Hidden(|loops|);
      cx := cx.(locals := cx.locals + 2);
    }

    /** The collection and the initial position. */
    method Collection(ghost reuse: Option<nat>, ghost code: seq<int>) returns (r: Status, ghost e: Expr)
      requires Valid() && (reuse.None? ==> 0 in Consts())
      requires Code() == code + [M.OP_SCOPE_ENTER] + if reuse.None? then PushConst(0, Ln()) else []
      modifies `pos, `codeSize, `constCount, bytecode, constants
      ensures Valid()
      ensures r == Full ==> Exhausted()
      ensures r == Ok ==>
        && Peek(tokens, old(pos)) == TIn && ParseAt(0, tokens, old(pos) + 1, Names()) == Some((e, pos))
        && 0 in Consts() && Settled(e, Ln()) && old(Consts()) <= Consts() && codeSize >= old(codeSize)
        && Code() == code + ForHead(reuse, e, Ln(), |code|)
      ensures r == Syntax ==> Peek(tokens, old(pos)) != TIn || ParseAt(0, tokens, old(pos) + 1, Names()).None?
    {
      hide ParseAt, Written, Code, Consts, Settled, ForHead, Exhausted;
      e := Lit(0);
      ghost var ln1, code1 := Ln(), Code();
      r := Match(TIn);
      :- r;
      ghost var p := ParseAt(0, tokens, pos, Names());
      r := Expression(0);
      :- r;
      e := p.value.0;
      ghost var ln2, code2 := Ln(), Code();
      WrittenLonger(e, code1, ln1.consts, code2, ln2);
      ConstsGrew(e, code1, ln1, code2, ln2);
      r := EmitConst(0);
      :- r;
      HeadWritten(reuse, e, code, ln1, code1, ln2, code2, Ln(), Code());
    }

    lemma ConstsGrew(e: Expr, code1: seq<int>, ln1: Link, code2: seq<int>, ln2: Link)
      requires Written(e, code1, ln1.consts, code2, ln2)
      ensures ln1.consts <= ln2.consts
    {
    }

    /** The outer scope of the loop, and get_var_addr: an existing local, or a new one holding 0. */
    method LoopVariable(name: string) returns (r: Status, x: nat)
      requires Ready()
      modifies `codeSize, `constCount, `locals, `scopeDepth, `cx, bytecode, constants
      ensures Valid() && r != Syntax
      ensures r == Full ==> Exhausted()
      ensures var reuse := Find(old(locals), name);
        r == Ok ==>
          && InStep(cx, |locals|, scopeDepth, loops) && Emitted(loops, codeSize)
          && locals == WithLoopVar(old(locals), name)
          && cx == Enter(old(cx)).(locals := old(cx).locals + if reuse.None? then 1 else 0)
          && x == LoopVar(reuse, old(cx)) && x < cx.locals
          && old(Consts()) <= Consts() && (reuse.None? ==> 0 in Consts())
          && Code() == old(Code()) + [M.OP_SCOPE_ENTER] + if reuse.None? then PushConst(0, Ln()) else []
    {
      hide Code, Consts, InStep, Emitted, Exhausted;
      StepFacts(cx, |locals|, scopeDepth, loops, codeSize);
      x := 0;
      r := Emit(M.OP_SCOPE_ENTER);
      :- r;
      scopeDepth := scopeDepth + 1;
      cx := Enter(cx);
      var loc := FindName(locals, name);
      if loc >= 0 {
        x := loc;
        assert Code() + [] == Code();
        return;
      }
      r := EmitConst(0);
      :- r;
      x := |locals|;
      MoreLocals(cx, |locals|, scopeDepth, loops, 1);
      locals := locals + [name];
      cx := cx.(locals := cx.locals + 1);
    }

    /** `i < length` or leave; then the element at `i` goes into the loop variable. */
    method EmitTest(n: nat, x: nat) returns (r: Status, exit: nat)
      requires Valid() && n >= 2
      modifies `codeSize, bytecode
      ensures Valid() && r != Syntax
      ensures r == Full ==> Exhausted()
      ensures r == Ok ==> Code() == old(Code()) + ForTest(n, x, 0) && exit == old(codeSize) + 7
    {
      hide Code, Exhausted;
      exit := codeSize + 7;
      r := Emit2(M.OP_LVAR, n - 1);
      :- r;
      r := Emit2(M.OP_LVAR, n - 2);
      :- r;
      r := Emit2(M.OP_ALEN, M.OP_LT);
      :- r;
      r := Emit2(M.OP_JZ, 0);
      :- r;
      assert Code() == old(Code()) + ([M.OP_LVAR, n - 1] + [M.OP_LVAR, n - 2] + [M.OP_ALEN] + [M.OP_LT] + [M.OP_JZ, 0]);
      ghost var mid := Code();
      r := Emit2(M.OP_LVAR, n - 2);
      :- r;
      r := Emit2(M.OP_LVAR, n - 1);
      :- r;
      r := Emit3(M.OP_IT_DEF, M.OP_SVAR, x);
      :- r;
      assert Code() == mid + ([M.OP_LVAR, n - 2] + [M.OP_LVAR, n - 1] + [M.OP_IT_DEF] + [M.OP_SVAR, x]);
    }

    method EmitNext(n: nat, loop: int) returns (r: Status)
      requires Valid() && n >= 2
      modifies `codeSize, `constCount, bytecode, constants
      ensures Valid() && r != Syntax && old(Consts()) <= Consts()
      ensures r == Full ==> Exhausted()
      ensures r == Ok ==> 1 in Consts() && Code() == old(Code()) + ForNext(n, loop, Ln())
    {
      hide Code, Consts, PushConst, Exhausted;
      :- Emit2(M.OP_LVAR, n - 1);
      :- EmitConst(1);
      :- Emit3(M.OP_ADD, M.OP_SVAR, n - 1);
      :- Emit2(M.OP_JMP, loop);
      r := Ok;
    }

    /** for (x in e) { .. } from the loop variable on. */
    method Iteration(name: string) returns (r: Status)
      requires Ready() && Peek(tokens, pos) == TId(name)
      modifies `pos, `codeSize, `constCount, `locals, `scopeDepth, `loops, `cx, bytecode, constants
      ensures Valid() && (r == Ok ==> Ready())
      ensures r == Full ==> Exhausted()
      ensures r == Ok ==> Made(ParseIter(tokens, old(pos), old(Names()), |old(loops)|), old(Now()))
      ensures r == Syntax ==> ParseIter(tokens, old(pos), old(Names()), |old(loops)|).None?
      decreases |tokens| - pos, 6
    {
      hide ParseAt, ParseBlock, Code, Consts, InStep, Emitted, Find, Settled, ForHead, ForTest, ForCtx, Built, WithLoopVar,
        Hidden, InLoop, Exhausted;
      ghost var was, reuse := Now(), Find(locals, name);
      StepFacts(cx, |locals|, scopeDepth, loops, codeSize);
      LocalsKept(locals, name, |loops|);
      var count := |locals|;
      var st, x;
      ghost var e;
      st, x, e := IterationHead(name);
      r := st;
      :- r;
      ghost var h := Now();
      StepFacts(cx, |locals|, scopeDepth, loops, codeSize);
      ForCtxLocals(was.cx, reuse);
      r := IterationBody(reuse, e, was, h, count, x);
    }

    /** The test, the body and what follows it. */
    method IterationBody(ghost reuse: Option<nat>, ghost e: Expr, ghost was: Work, ghost h: Work, count: nat, x: nat) returns (r: Status)
      requires Ready() && h == Now() && Later(was, h) && h.loops == was.loops && h.cx == ForCtx(was.cx, reuse)
      requires x == LoopVar(reuse, was.cx) && 2 <= |locals| && count <= |locals|
      requires 0 in h.ln.consts && Settled(e, h.ln) && h.code == was.code + ForHead(reuse, e, h.ln, |was.code|)
      requires was.cx.locals == count && InStep(was.cx, count, was.cx.depth, was.loops)
      modifies `pos, `codeSize, `constCount, `locals, `scopeDepth, `loops, `cx, bytecode, constants
      ensures Valid() && (r == Ok ==> Ready())
      ensures r == Full ==> Exhausted()
      ensures r == Ok ==>
        && Peek(tokens, old(pos)) == TRParen && locals == old(locals)[..count]
        && var p := ParseBlock(tokens, old(pos) + 1, old(Names()), |old(loops)| + 1);
          p.Some? && p.value.end == pos && Built(ForIn(reuse, e, p.value.s), was, Now())
      ensures r == Syntax && Peek(tokens, old(pos)) == TRParen ==>
        ParseBlock(tokens, old(pos) + 1, old(Names()), |old(loops)| + 1).None?
      decreases |tokens| - pos, 7
    {
      hide ParseBlock, Code, Consts, InStep, Emitted, Settled, ForHead, ForTest, ForCtx, Built, InLoop, Exhausted;
      StepFacts(cx, |locals|, scopeDepth, loops, codeSize);
      var loop, exit := codeSize, 0;
      r, exit := EmitTest(|locals|, x);
      :- r;
      :- Match(TRParen);
      ghost var b;
      r, b := LoopBlock();
      :- r;
      r := CloseIteration(reuse, e, b, was, h, loop, exit, count);
    }

    /** push_loop and a block. */
    method LoopBlock() returns (r: Status, ghost b: Stmt)
      requires Ready()
      modifies `pos, `codeSize, `constCount, `locals, `scopeDepth, `loops, `cx, bytecode, constants
      ensures Valid() && (r == Ok ==> Ready())
      ensures r == Full ==> Exhausted()
      ensures var p := ParseBlock(tokens, old(pos), old(Names()), |old(loops)| + 1);
        && (r == Ok ==>
              && p == Some(Parsed(b, pos, locals)) && locals == old(locals) && codeSize >= old(codeSize)
              && |loops| == |old(loops)| + 1
              && Built(b, old(Now()).(cx := InLoop(old(cx), 0, 0), loops := Open(old(cx), old(loops))), Now()))
        && (r == Syntax ==> p.None?)
      decreases |tokens| - pos, 6
    {
      hide ParseBlock, Code, Consts, InStep, Emitted, Built, InLoop, Exhausted;
      b := Skip;
      r := PushLoop();
      :- r;
      ghost var w, p := Now(), ParseBlock(tokens, pos, Names(), |loops|);
      r := Block();
      :- r;
      b := p.value.s;
      SameCount(b, w, Now());
    }

    /** The increment, the exit target, the pops of the loop's variables, and pop_loop. */
    method CloseIteration(ghost reuse: Option<nat>, ghost e: Expr, ghost b: Stmt, ghost was: Work, ghost h: Work,
        loop: int, exit: nat, count: nat) returns (r: Status)
      requires Ready() && b.Blk? && count <= |locals| && h.cx.locals == |locals| && h.cx.locals >= 2
      requires Later(was, h) && h.loops == was.loops && h.cx == ForCtx(was.cx, reuse)
      requires 0 in h.ln.consts && Settled(e, h.ln) && h.code == was.code + ForHead(reuse, e, h.ln, |was.code|)
      requires Built(b, Work(h.code + ForTest(|locals|, LoopVar(reuse, was.cx), 0), h.ln, InLoop(h.cx, 0, 0), Open(h.cx, h.loops)), Now())
      requires loop == |h.code| && exit == loop + 7 && loop + FOR_TEST_SIZE <= codeSize
      requires was.cx.locals == count && InStep(was.cx, count, was.cx.depth, was.loops)
      requires |loops| == |was.loops| + 1
      modifies `codeSize, `constCount, `locals, `scopeDepth, `loops, `cx, bytecode, constants
      ensures Valid() && (r == Ok ==> Ready()) && r != Syntax
      ensures r == Full ==> Exhausted()
      ensures r == Ok ==> locals == old(locals)[..count] && Built(ForIn(reuse, e, b), was, Now())
    {
      hide Code, Consts, InStep, Emitted, Settled, ForHead, ForTest, ForCtx, Built, InLoop, Times, ForNext, Patched, Exhausted;
      StepFacts(cx, |locals|, scopeDepth, loops, codeSize);
      ghost var m := Now();
      SameCount(b, Work(h.code + ForTest(|locals|, LoopVar(reuse, was.cx), 0), h.ln, InLoop(h.cx, 0, 0), Open(h.cx, h.loops)), m);
      var cont, n := codeSize, |locals|;
      :- EmitNext(n, loop);
      PatchHere(exit);
      var brk := codeSize;
      :- EmitLeave(n - count);
      locals := locals[..count];
      scopeDepth := scopeDepth - 1;
      PopLoop(cont, brk);
      ForInBuilt(reuse, e, b, was, h, m, Ln(), Code());
      OuterStep(was.cx, count, was.cx.depth, was.loops, scopeDepth, loops);
      cx := was.cx.(depth := cx.depth - 1);
      r := Ok;
    }

    /** for (c) { .. } from the condition on: two scopes are entered and three left. */
    method ConditionLoop() returns (r: Status)
      requires Ready()
      modifies `pos, `codeSize, `constCount, `locals, `scopeDepth, `loops, `cx, bytecode, constants
      ensures Valid() && (r == Ok ==> Ready())
      ensures r == Full ==> Exhausted()
      ensures r == Ok ==> Made(ParseCondFor(tokens, old(pos), old(Names()), |old(loops)|), old(Now()))
      ensures r == Syntax ==> ParseCondFor(tokens, old(pos), old(Names()), |old(loops)|).None?
      decreases |tokens| - pos, 6
    {
      hide ParseAt, ParseBlock, Code, Consts, InStep, Emitted, Built, Evaluated, CondCtx, Exhausted;
      ghost var was := Now();
      StepFacts(cx, |locals|, scopeDepth, loops, codeSize);
      var loop := codeSize + 1;
      ghost var a;
      r, a := OpenCondition();
      :- r;
      StepFacts(cx, |locals|, scopeDepth, loops, codeSize);
      ghost var e := ParseAt(0, tokens, pos, Names());
      :- Expression(0);
      ExprEvaluated(e.value.0, a);
      :- Match(TRParen);
      r := ConditionBody(e.value.0, was, loop);
    }

    method ConditionBody(ghost e: Expr, ghost was: Work, loop: int) returns (r: Status)
      requires Ready() && loop == |was.code| + 1 && cx == CondCtx(was.cx, 0, 0) && |loops| == |was.loops| + 1
      requires Evaluated(e, Work(was.code + [M.OP_SCOPE_ENTER] + [M.OP_SCOPE_ENTER], was.ln, CondCtx(was.cx, 0, 0),
                                 Open(Enter(was.cx), was.loops)), Now())
      requires InStep(was.cx, |locals|, was.cx.depth, was.loops)
      modifies `pos, `codeSize, `constCount, `locals, `scopeDepth, `loops, `cx, bytecode, constants
      ensures Valid() && (r == Ok ==> Ready())
      ensures r == Full ==> Exhausted()
      ensures var p := ParseBlock(tokens, old(pos), old(Names()), |old(loops)|);
        && (r == Ok ==>
              && p.Some? && p.value.end == pos && locals == old(locals)
              && Built(ForCond(e, p.value.s.body), was, Now()))
        && (r == Syntax ==> p.None?)
      decreases |tokens| - pos, 6
    {
      hide ParseBody, Code, Consts, InStep, Emitted, Built, Evaluated, CondCtx, Exhausted;
      ghost var c := Now();
      StepFacts(cx, |locals|, scopeDepth, loops, codeSize);
      InStepLocals(was.cx, |locals|, was.cx.depth, was.loops);
      var count := |locals|;
      var exit;
      r, exit := EmitJump(M.OP_JZ);
      :- r;
      :- Match(TLBrace);
      ghost var w := Now();
      ghost var b;
      r, b := Body();
      :- r;
      SameCount(b, w, Now());
      CondLocals(b, w, Now());
      StepFacts(cx, |locals|, scopeDepth, loops, codeSize);
      r := CloseCondition(e, b, was, c, loop, exit, count);
    }

    method OpenCondition() returns (r: Status, ghost a: Work)
      requires Ready()
      modifies `codeSize, `scopeDepth, `loops, `cx, bytecode
      ensures Valid() && r != Syntax
      ensures r == Full ==> Exhausted()
      ensures r == Ok ==>
        && Ready() && a == Now() && cx == CondCtx(old(cx), 0, 0) && loops == Open(Enter(old(cx)), old(loops))
        && Code() == old(Code()) + [M.OP_SCOPE_ENTER] + [M.OP_SCOPE_ENTER]
    {
      hide Code, InStep, Emitted, Exhausted;
      a := Now();
      StepFacts(cx, |locals|, scopeDepth, loops, codeSize);
      r := Emit(M.OP_SCOPE_ENTER);
      :- r;
      scopeDepth := scopeDepth + 1;
      cx := Enter(cx);
      r := PushLoop();
      :- r;
      StepFacts(cx, |locals|, scopeDepth, loops, codeSize);
      r := Emit(M.OP_SCOPE_ENTER);
      :- r;
      scopeDepth := scopeDepth + 1;
      cx := Enter(cx);
      a := Now();
    }

    /** The pops and exit of the body, the back jump, the exit target, two more exits, and pop_loop. */
    method CloseCondition(ghost e: Expr, ghost b: Stmt, ghost was: Work, ghost c: Work, loop: int, exit: nat, count: nat)
      returns (r: Status)
      requires Ready() && count <= |locals| && loop == |was.code| + 1 && exit == |c.code| + 1 && exit < codeSize
      requires Evaluated(e, Work(was.code + [M.OP_SCOPE_ENTER] + [M.OP_SCOPE_ENTER], was.ln, CondCtx(was.cx, 0, 0),
                                 Open(Enter(was.cx), was.loops)), c)
      requires Built(b, c.(code := c.code + [M.OP_JZ, 0]), Now())
      requires was.cx.locals == count && InStep(was.cx, count, was.cx.depth, was.loops)
      requires |loops| == |was.loops| + 1
      modifies `pos, `codeSize, `locals, `scopeDepth, `loops, `cx, bytecode
      ensures Valid() && (r == Ok ==> Ready())
      ensures r == Full ==> Exhausted()
      ensures r == Ok ==>
        && locals == old(locals)[..count] && Peek(tokens, old(pos)) == TRBrace && pos == old(pos) + 1
        && Built(ForCond(e, b), was, Now())
      ensures r == Syntax ==> Peek(tokens, old(pos)) != TRBrace
    {
      hide Code, Consts, InStep, Emitted, CondCtx, Built, Evaluated, Times, Patched, CondTail, Exhausted;
      StepFacts(cx, |locals|, scopeDepth, loops, codeSize);
      ghost var m, a := Now(), Work(was.code + [M.OP_SCOPE_ENTER] + [M.OP_SCOPE_ENTER], was.ln, CondCtx(was.cx, 0, 0),
                                    Open(Enter(was.cx), was.loops));
      EvaluatedCx(e, a, c);
      SameCount(b, c.(code := c.code + [M.OP_JZ, 0]), m);
      var pops := |locals| - count;
      var cont;
      r, cont := CloseBody(pops, loop);
      :- r;
      locals := locals[..count];
      r := ExitCondition(m, loop, exit, pops, cont);
      :- r;
      ForCondBuilt(e, b, was, c, m, Code());
      OuterStep(was.cx, count, was.cx.depth, was.loops, scopeDepth, loops);
      cx := was.cx.(depth := cx.depth - 3);
      r := Ok;
    }

    /** The exit target, two more exits, and pop_loop. */
    method ExitCondition(ghost m: Work, loop: int, exit: nat, pops: nat, cont: int) returns (r: Status)
      requires Valid() && |loops| > 0 && Emitted(loops, |m.code|) && exit < |m.code| && loops == m.loops
      requires Code() == m.code + CondTail(pops, loop) && cont == |m.code| + pops + 1
      modifies `codeSize, `scopeDepth, `loops, bytecode
      ensures Valid() && r != Syntax
      ensures r == Full ==> Exhausted()
      ensures r == Ok ==>
        && scopeDepth == old(scopeDepth) - 3 && loops == old(loops)[..|old(loops)| - 1] && Emitted(loops, codeSize)
        && codeSize == old(codeSize) + 2
        && var l := m.loops[|m.loops| - 1];
          Patched((m.code + CondTail(pops, loop))[exit := cont + 2] + [M.OP_SCOPE_EXIT, M.OP_SCOPE_EXIT],
                  Code(), 0, l.breaks, l.continues, cont + 3, cont)
    {
      hide Code, Emitted, Patched, CondTail, Exhausted;
      assert forall n: nat :: |m.code| <= n ==> Emitted(loops, n) by { EmittedStays(loops, |m.code|); }
      PatchHere(exit);
      :- Emit2(M.OP_SCOPE_EXIT, M.OP_SCOPE_EXIT);
      scopeDepth := scopeDepth - 3;
      PopLoop(cont, codeSize - 1);
      r := Ok;
    }

    method CloseBody(pops: nat, loop: int) returns (r: Status, cont: nat)
      requires Valid()
      modifies `pos, `codeSize, bytecode
      ensures Valid()
      ensures r == Full ==> Exhausted()
      ensures r == Ok ==>
        && Peek(tokens, old(pos)) == TRBrace && pos == old(pos) + 1
        && Code() == old(Code()) + CondTail(pops, loop) && cont == old(codeSize) + pops + 1
      ensures r == Syntax ==> Peek(tokens, old(pos)) != TRBrace
    {
      hide Code, Times, Exhausted;
      cont := 0;
      r := EmitTimes(M.OP_POP, pops);
      :- r;
      r := Match(TRBrace);
      :- r;
      r := Emit(M.OP_SCOPE_EXIT);
      :- r;
      cont := codeSize;
      r := Emit2(M.OP_JMP, loop);
    }

    // ---- Functions ----

    constructor (ts: seq<Token>, maxCode: nat, maxConstants: nat)
      ensures Idle() && tokens == ts && pos == 0 && codeSize == 0 && constCount == 0 && funcs == [] && addrs == []
      ensures bytecode.Length == maxCode && constants.Length == maxConstants && fresh(bytecode) && fresh(constants)
    {
      tokens := ts;
      bytecode := new int[maxCode](i => 0);
      constants := new int[maxConstants](i => 0);
      pos, codeSize, constCount := 0, 0, 0;
      locals, funcs, addrs, scopeDepth, loops := [], [], [], 0, [];
      cx := Ctx(0, 0, [], []);
      new;
      assert bytecode != constants;
    }

    /** Outside any function. */
    ghost predicate Idle()
      reads this
    {
      Valid() && loops == []
    }

    method Params() returns (r: Status)
      requires Valid() && locals == []
      modifies `pos, `locals
      ensures Valid()
      ensures r == Full ==> Exhausted()
      ensures r == Ok ==> ParseParams(tokens, old(pos), []) == Some((locals, pos))
      ensures r == Syntax ==> ParseParams(tokens, old(pos), []).None?
      ensures r != Full
    {
      while Peek(tokens, pos) != TRParen
        invariant Valid() && ParseParams(tokens, old(pos), []) == ParseParams(tokens, pos, locals)
        decreases |tokens| - pos
      {
        var t := Peek(tokens, pos);
        if !t.TId? {
          return Syntax;
        }
        pos := pos + 1;
        if Peek(tokens, pos) == TComma {
          pos := pos + 1;
        }
        locals := locals + [t.name];
      }
      pos := pos + 1;
      r := Ok;
    }

    /** function(): the code around the body is jumped over, and the name is known before the body. */
    method Function() returns (r: Status, ghost fn: Func)
      requires Idle()
      modifies this, bytecode, constants
      ensures Valid() && (r == Ok ==> Idle())
      ensures r == Full ==> Exhausted()
      ensures var p := ParseFunc(tokens, old(pos), old(funcs));
        && (r == Ok ==>
              && p.Some? && p.value.1 == fn && p.value.2 == pos
              && funcs == old(funcs) + [p.value.0] && |addrs| == |old(addrs)| + 1 && addrs[..|old(addrs)|] == old(addrs)
              && old(Consts()) <= Consts() && old(Code()) <= Code()
              && FuncAt(Code(), addrs[|old(addrs)|], fn, Ln()))
        && (r == Syntax ==> p.None?)
    {
      hide ParseBody, ParseParams, Code, Consts, FuncAt, Exhausted;
      fn := Func(0, Skip);
      ghost var code := Code();
      var saved, savedDepth, exit := locals, scopeDepth, 0;
      r := Match(TFn);
      :- r;
      var t := Peek(tokens, pos);
      if !t.TId? {
        return Syntax, fn;
      }
      pos := pos + 1;
      r, exit := FunctionHeader(t.name);
      :- r;
      r, fn := FunctionBody(code, exit);
      locals, scopeDepth := saved, savedDepth;
    }

    /** The jump around the function, its registration, and its parameters. */
    method FunctionHeader(name: string) returns (r: Status, exit: nat)
      requires Idle()
      modifies `pos, `codeSize, `locals, `funcs, `addrs, bytecode
      ensures Valid()
      ensures r == Full ==> Exhausted()
      ensures r == Ok ==>
        && Peek(tokens, old(pos)) == TLParen
        && pos >= old(pos) + 2 && ParseParams(tokens, old(pos) + 1, []) == Some((locals, pos - 1))
        && Peek(tokens, pos - 1) == TLBrace
        && funcs == old(funcs) + [name] && addrs == old(addrs) + [old(codeSize) + 2]
        && Code() == old(Code()) + [M.OP_JMP, 0] && exit == old(codeSize) + 1
      ensures r == Syntax && Peek(tokens, old(pos)) == TLParen ==>
        var p := ParseParams(tokens, old(pos) + 1, []);
        p.None? || Peek(tokens, p.value.1) != TLBrace
    {
      hide ParseParams, Code, Exhausted;
      exit := 0;
      r, exit := EmitJump(M.OP_JMP);
      :- r;
      funcs, addrs := funcs + [name], addrs + [codeSize];
      locals := [];
      r := Match(TLParen);
      :- r;
      r := Params();
      :- r;
      r := Match(TLBrace);
    }

    /** From the scope entry to the implicit `ret 0`; then the jump around the function is patched. */
    method FunctionBody(ghost code: seq<int>, exit: nat) returns (r: Status, ghost fn: Func)
      requires Idle() && Code() == code + [M.OP_JMP, 0] && exit == |code| + 1
      modifies `pos, `codeSize, `constCount, `locals, `scopeDepth, `loops, `cx, bytecode, constants
      ensures Valid() && (r == Ok ==> Idle())
      ensures r == Full ==> Exhausted()
      ensures var p := ParseBody(tokens, old(pos), old(Names()), 0, Skip);
        && (r == Ok ==>
              && p.Some? && Peek(tokens, p.value.end) == TRBrace && pos == p.value.end + 1
              && fn == Func(|old(locals)|, p.value.s)
              && old(Consts()) <= Consts() && code <= Code() && FuncAt(Code(), |code| + 2, fn, Ln()))
        && (r == Syntax ==> p.None? || Peek(tokens, p.value.end) != TRBrace)
    {
      hide ParseBody, Code, Consts, InStep, Emitted, FuncAt, Built, PushConst, Exhausted;
      fn := Func(0, Skip);
      r := Emit(M.OP_SCOPE_ENTER);
      :- r;
      scopeDepth := 1;
      cx := BodyCtx(|locals|);
      FirstStep(|locals|, codeSize);
      ghost var ln1, arity := Ln(), |locals|;
      ghost var w := Now();
      ghost var b;
      r, b := Body();
      :- r;
      fn := Func(arity, b);
      SameCount(b, w, Now());
      r := CloseFunction(b, arity, code, ln1, exit);
    }

    method CloseFunction(ghost b: Stmt, ghost arity: nat, ghost code: seq<int>, ghost ln1: Link, exit: nat) returns (r: Status)
      requires Idle() && exit == |code| + 1 && exit < codeSize
      requires Built(b, Work(code + [M.OP_JMP, 0] + [M.OP_SCOPE_ENTER], ln1, BodyCtx(arity), []), Now())
      modifies `pos, `codeSize, `constCount, bytecode, constants
      ensures Valid() && (r == Ok ==> Idle())
      ensures r == Full ==> Exhausted()
      ensures r == Ok ==>
        && Peek(tokens, old(pos)) == TRBrace && pos == old(pos) + 1 && old(Consts()) <= Consts()
        && code <= Code() && FuncAt(Code(), |code| + 2, Func(arity, b), Ln())
      ensures r == Syntax ==> Peek(tokens, old(pos)) != TRBrace
    {
      hide Code, Consts, FuncAt, Built, PushConst, Exhausted;
      ghost var m := Now();
      :- Match(TRBrace);
      :- EmitConst(0);
      :- Emit(M.OP_RET);
      FuncBuilt(code, ln1, b, arity, m, Ln(), codeSize);
      PatchHere(exit);
      r := Ok;
    }

    lemma FirstStep(n: nat, size: nat)
      ensures InStep(BodyCtx(n), n, 1, []) && Emitted([], size)
    {
    }

    /** A program of functions: compiled whole, its bytecode is linked, in the sense in which running
        any of its functions computes what the source means, if every body is straight. */
    method Program() returns (r: Status, ghost fs: seq<Func>)
      requires Idle() && pos == 0 && codeSize == 0 && funcs == [] && addrs == []
      modifies this, bytecode, constants
      ensures Valid()
      ensures r == Full ==> Exhausted()
      ensures r == Ok ==> ParseProgram(tokens, 0, [], []) == Some(fs) && FuncsAt(Code(), fs, Ln())
      ensures r == Ok && fs != [] && (forall f :: 0 <= f < |fs| ==> Drift.Straight(fs[f].body, -1)) ==>
        Simulation.Linked(M.Program(Code(), Consts()), Ln(), fs)
      ensures r == Syntax ==> ParseProgram(tokens, 0, [], []).None?
    {
      hide ParseFunc, FuncAt, Code, Consts, Formed, Drift.Straight, Simulation.Linked, Exhausted;
      fs := [];
      r := Ok;
      while Peek(tokens, pos) != TEof
        invariant Idle() && |fs| == |addrs| && FuncsAt(Code(), fs, Ln())
        invariant ParseProgram(tokens, 0, [], []) == ParseProgram(tokens, pos, funcs, fs)
        invariant forall f :: 0 <= f < |fs| ==> (Formed(fs[f].body, BodyCtx(fs[f].arity)) <==> Drift.Straight(fs[f].body, -1))
        invariant fs != [] ==> 0 in Consts()
        decreases |tokens| - pos
      {
        ghost var code, ln := Code(), Ln();
        ghost var at, names := pos, funcs;
        ghost var fn;
        r, fn := Function();
        :- r;
        FuncFormed(tokens, at, names);
        FuncsStay(code, fs, ln, Code(), Ln(), fn);
        FuncPool(Code(), addrs[|fs|], fn, Ln());
        fs := fs + [fn];
      }
      ghost var code := Code();
      r := Emit(M.OP_HLT);
      :- r;
      AllStay(code, fs, Ln(), Code());
      if fs != [] && (forall f :: 0 <= f < |fs| ==> Drift.Straight(fs[f].body, -1)) {
        FuncsLinked(Code(), fs, Ln());
      }
    }
  }
}
