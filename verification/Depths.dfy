/** Every emitted instruction has one stack height and one list of open scopes, on which all paths to
    it agree: fall-through, both arms of a conditional, breaks, continues and back edges
    (src/compiler.c:395-451, 1142-1254, 1833-1935, 1979-2120, 2358-2391). */
module Depths {
  import opened Defines
  import opened Machine
  import opened Frames
  import opened Codegen
  import L = Language

  /** What is known where an instruction starts: the height above the frame pointer, the local counts
      at which the frame's open scopes were entered, and whether the top of the stack is a number or an
      array just allocated. The other cells are operands. */
  datatype Note = Operand | Spot(height: int, marks: seq<nat>, mild: bool)

  function Ins(h: int, ms: seq<nat>, m: bool, size: nat): (n: seq<Note>)
    requires size > 0
    ensures |n| == size
  {
    [Spot(h, ms, m)] + seq(size - 1, _ => Operand)
  }

  // ---- Expressions ----

  /** Expressions whose value is a number or was allocated by their last instruction. */
  predicate Mild(e: L.Expr) {
    match e
    case Lit(_) => true
    case Bool(_) => true
    case Neg(_) => true
    case Bin(_, _, _) => true
    case List(_) => true
    case Span(_, _, _) => true
    case Cond(_, t, f) => Mild(t) && Mild(f)
    case _ => false
  }

  function NoteExpr(e: L.Expr, h: int, ms: seq<nat>): (n: seq<Note>)
    ensures |n| > 0
    decreases e, 0
  {
    match e
    case Lit(_) => Ins(h, ms, false, 2)
    case Bool(_) => Ins(h, ms, false, 2)
    case Var(_) => Ins(h, ms, false, 2)
    case Neg(e1) =>
      if e1.Lit? then Ins(h, ms, false, 2)
      else Ins(h, ms, false, 2) + NoteExpr(e1, h + 1, ms) + Ins(h + 2, ms, false, 1)
    case Bin(_, l, r) => NoteExpr(l, h, ms) + NoteExpr(r, h + 1, ms) + Ins(h + 2, ms, false, 1)
    case Cond(c, t, f) =>
      NoteExpr(c, h, ms) + Ins(h + 1, ms, false, 2) + NoteExpr(t, h, ms) + Ins(h + 1, ms, Mild(t), 2) + NoteExpr(f, h, ms)
    case List(es) => NoteExprs(es, h, ms) + Ins(h + |es|, ms, false, 2)
    case Index(a, i) => NoteExpr(a, h, ms) + NoteExpr(i, h + 1, ms) + Ins(h + 2, ms, false, 1)
    case Span(a, lo, hi) =>
      NoteExpr(a, h, ms) + NoteExpr(lo, h + 1, ms) + NoteExpr(hi, h + 2, ms) + Ins(h + 3, ms, false, 1)
    case Call(_, args) => NoteExprs(args, h, ms) + Ins(h + |args|, ms, false, 3)
  }

  function NoteExprs(es: seq<L.Expr>, h: int, ms: seq<nat>): (n: seq<Note>)
    ensures es != [] ==> |n| > 0
    decreases es, 0
  {
    if es == [] then [] else NoteExpr(es[0], h, ms) + NoteExprs(es[1..], h + 1, ms)
  }

  lemma NegNotes(e: L.Expr, h: int, ms: seq<nat>)
    ensures NoteExpr(L.Neg(e), h, ms)
      == if e.Lit? then Ins(h, ms, false, 2) else Ins(h, ms, false, 2) + NoteExpr(e, h + 1, ms) + Ins(h + 2, ms, false, 1)
  {
    hide Ins;
  }

  lemma BinNotes(op: L.BinOp, l: L.Expr, r: L.Expr, h: int, ms: seq<nat>)
    ensures NoteExpr(L.Bin(op, l, r), h, ms) == NoteExpr(l, h, ms) + NoteExpr(r, h + 1, ms) + Ins(h + 2, ms, false, 1)
  {
    hide Ins;
  }

  lemma CondNotes(c: L.Expr, t: L.Expr, f: L.Expr, h: int, ms: seq<nat>)
    ensures NoteExpr(L.Cond(c, t, f), h, ms) == NoteExpr(c, h, ms) + Ins(h + 1, ms, false, 2) + NoteExpr(t, h, ms)
      + Ins(h + 1, ms, Mild(t), 2) + NoteExpr(f, h, ms)
  {
    hide Ins, Mild;
  }

  lemma IndexNotes(a: L.Expr, i: L.Expr, h: int, ms: seq<nat>)
    ensures NoteExpr(L.Index(a, i), h, ms) == NoteExpr(a, h, ms) + NoteExpr(i, h + 1, ms) + Ins(h + 2, ms, false, 1)
  {
    hide Ins;
  }

  lemma SpanNotes(a: L.Expr, lo: L.Expr, hi: L.Expr, h: int, ms: seq<nat>)
    ensures NoteExpr(L.Span(a, lo, hi), h, ms)
      == NoteExpr(a, h, ms) + NoteExpr(lo, h + 1, ms) + NoteExpr(hi, h + 2, ms) + Ins(h + 3, ms, false, 1)
  {
    hide Ins;
  }

  lemma ListNotes(es: seq<L.Expr>, h: int, ms: seq<nat>)
    ensures NoteExpr(L.List(es), h, ms) == NoteExprs(es, h, ms) + Ins(h + |es|, ms, false, 2)
  {
    hide Ins, NoteExprs;
  }

  lemma CallNotes(f: nat, args: seq<L.Expr>, h: int, ms: seq<nat>)
    ensures NoteExpr(L.Call(f, args), h, ms) == NoteExprs(args, h, ms) + Ins(h + |args|, ms, false, 3)
  {
    hide Ins, NoteExprs;
  }

  lemma {:induction false} ExprSize(e: L.Expr, h: int, ms: seq<nat>, ln: Link, base: int)
    ensures |NoteExpr(e, h, ms)| == |GenExpr(e, ln, base)|
    decreases e, 1
  {
    match e
    case Neg(e1) => NegSize(e1, h, ms, ln, base);
    case Bin(op, l, r) => BinSize(op, l, r, h, ms, ln, base);
    case Cond(c, t, f) => CondSize(c, t, f, h, ms, ln, base);
    case List(es) => ListIs(es, ln, base); ListNotes(es, h, ms); hide GenExpr, NoteExpr, GenExprs, NoteExprs; ExprsSize(es, h, ms, ln, base);
    case Index(a, i) => IndexSize(a, i, h, ms, ln, base);
    case Span(a, lo, hi) => SpanSize(a, lo, hi, h, ms, ln, base);
    case Call(f, args) => CallIs(f, args, ln, base); CallNotes(f, args, h, ms); hide GenExpr, NoteExpr, GenExprs, NoteExprs; ExprsSize(args, h, ms, ln, base);
    case _ =>
  }

  lemma {:induction false} NegSize(e: L.Expr, h: int, ms: seq<nat>, ln: Link, base: int)
    ensures |NoteExpr(L.Neg(e), h, ms)| == |GenExpr(L.Neg(e), ln, base)|
    decreases L.Neg(e), 0
  {
    hide GenExpr, NoteExpr, Ins;
    NegIs(e, ln, base);
    NegNotes(e, h, ms);
    ExprSize(e, h + 1, ms, ln, base + 2);
  }

  lemma {:induction false} BinSize(op: L.BinOp, l: L.Expr, r: L.Expr, h: int, ms: seq<nat>, ln: Link, base: int)
    ensures |NoteExpr(L.Bin(op, l, r), h, ms)| == |GenExpr(L.Bin(op, l, r), ln, base)|
    decreases L.Bin(op, l, r), 0
  {
    hide GenExpr, NoteExpr, Ins;
    BinIs(op, l, r, ln, base);
    BinNotes(op, l, r, h, ms);
    ExprSize(l, h, ms, ln, base);
    ExprSize(r, h + 1, ms, ln, base + |GenExpr(l, ln, base)|);
  }

  lemma {:induction false} CondSize(c: L.Expr, t: L.Expr, f: L.Expr, h: int, ms: seq<nat>, ln: Link, base: int)
    ensures |NoteExpr(L.Cond(c, t, f), h, ms)| == |GenExpr(L.Cond(c, t, f), ln, base)|
    decreases L.Cond(c, t, f), 0
  {
    hide GenExpr, NoteExpr, Ins, Mild;
    CondIs(c, t, f, ln, base);
    CondNotes(c, t, f, h, ms);
    hide Branches;
    ExprSize(c, h, ms, ln, base);
    var k := base + |GenExpr(c, ln, base)| + 2;
    ExprSize(t, h, ms, ln, k);
    ExprSize(f, h, ms, ln, k + |GenExpr(t, ln, k)| + 2);
  }

  lemma {:induction false} IndexSize(a: L.Expr, i: L.Expr, h: int, ms: seq<nat>, ln: Link, base: int)
    ensures |NoteExpr(L.Index(a, i), h, ms)| == |GenExpr(L.Index(a, i), ln, base)|
    decreases L.Index(a, i), 0
  {
    hide GenExpr, NoteExpr, Ins;
    IndexIs(a, i, ln, base);
    IndexNotes(a, i, h, ms);
    ExprSize(a, h, ms, ln, base);
    ExprSize(i, h + 1, ms, ln, base + |GenExpr(a, ln, base)|);
  }

  lemma {:induction false} SpanSize(a: L.Expr, lo: L.Expr, hi: L.Expr, h: int, ms: seq<nat>, ln: Link, base: int)
    ensures |NoteExpr(L.Span(a, lo, hi), h, ms)| == |GenExpr(L.Span(a, lo, hi), ln, base)|
    decreases L.Span(a, lo, hi), 0
  {
    hide GenExpr, NoteExpr, Ins;
    SpanIs(a, lo, hi, ln, base);
    SpanNotes(a, lo, hi, h, ms);
    ExprSize(a, h, ms, ln, base);
    var k := base + |GenExpr(a, ln, base)|;
    ExprSize(lo, h + 1, ms, ln, k);
    ExprSize(hi, h + 2, ms, ln, k + |GenExpr(lo, ln, k)|);
  }

  lemma {:induction false} ExprsSize(es: seq<L.Expr>, h: int, ms: seq<nat>, ln: Link, base: int)
    ensures |NoteExprs(es, h, ms)| == |GenExprs(es, ln, base)|
    decreases es, 0
  {
    hide GenExpr, NoteExpr;
    if es != [] {
      ExprSize(es[0], h, ms, ln, base);
      ExprsSize(es[1..], h + 1, ms, ln, base + |GenExpr(es[0], ln, base)|);
    }
  }

  /** An expression starts at the height it is evaluated at. */
  lemma {:induction false} ExprFirst(e: L.Expr, h: int, ms: seq<nat>)
    ensures NoteExpr(e, h, ms)[0] == Spot(h, ms, false)
    decreases e, 0
  {
    match e
    case Neg(_) =>
    case Bin(_, l, _) => ExprFirst(l, h, ms);
    case Cond(c, _, _) => ExprFirst(c, h, ms);
    case List(es) => ExprsFirst(es, h, ms);
    case Index(a, _) => ExprFirst(a, h, ms);
    case Span(a, _, _) => ExprFirst(a, h, ms);
    case Call(_, args) => ExprsFirst(args, h, ms);
    case _ =>
  }

  lemma {:induction false} ExprsFirst(es: seq<L.Expr>, h: int, ms: seq<nat>)
    ensures es != [] ==> NoteExprs(es, h, ms)[0] == Spot(h, ms, false)
    decreases es, 0
  {
    if es != [] { ExprFirst(es[0], h, ms); }
  }

  // ---- Statements ----

  /** `k` pops, or `k` scope exits, in a row. */
  function PopNotes(h: int, ms: seq<nat>, k: int): (n: seq<Note>)
    ensures |n| == AtLeast0(k)
  {
    seq(AtLeast0(k), i => Spot(h - i, ms, false))
  }

  function ExitNotes(h: int, ms: seq<nat>, k: int): (n: seq<Note>)
    ensures |n| == AtLeast0(k)
  {
    seq(AtLeast0(k), i => Spot(h, if i <= |ms| && 0 <= i then ms[..|ms| - i] else [], false))
  }

  function NoteUnwind(cx: Ctx): (n: seq<Note>)
    requires |cx.loops| > 0
  {
    var l := cx.loops[|cx.loops| - 1];
    var out := if l.open <= |cx.marks| then cx.marks[..l.open] else cx.marks;
    ExitNotes(cx.locals, cx.marks, cx.depth - l.depth) + PopNotes(cx.locals, out, cx.locals - l.locals) + Ins(l.locals, out, false, 2)
  }

  /** The scope, the loop variable unless it exists, the list and the position of a `for (x in e)`. */
  function NoteForHead(reuse: Option<nat>, e: L.Expr, cx: Ctx): seq<Note> {
    var n, ms := cx.locals, cx.marks + [cx.locals];
    var v := if reuse.None? then 1 else 0;
    Ins(n, cx.marks, false, 1) + (if reuse.None? then Ins(n, ms, false, 2) else []) + NoteExpr(e, n + v, ms) + Ins(n + v + 1, ms, false, 2)
  }

  function NoteForTest(n: nat, ms: seq<nat>): (r: seq<Note>)
    ensures |r| == FOR_TEST_SIZE
  {
    Ins(n, ms, false, 2) + Ins(n + 1, ms, false, 2) + Ins(n + 2, ms, false, 1) + Ins(n + 2, ms, false, 1) + Ins(n + 1, ms, false, 2)
    + Ins(n, ms, false, 2) + Ins(n + 1, ms, false, 2) + Ins(n + 2, ms, false, 1) + Ins(n + 1, ms, false, 2)
  }

  function NoteForNext(n: nat, ms: seq<nat>): (r: seq<Note>)
    ensures |r| == FOR_NEXT_SIZE
  {
    Ins(n, ms, false, 2) + Ins(n + 1, ms, false, 2) + Ins(n + 2, ms, false, 1) + Ins(n + 1, ms, true, 2) + Ins(n, ms, false, 2)
  }

  function NoteStmt(s: L.Stmt, cx: Ctx): seq<Note>
    decreases s, 1
  {
    var n, ms := cx.locals, cx.marks;
    match s
    case Skip => []
    case Then(a, b) => NoteThen(a, b, cx)
    case Decl(e) => NoteExpr(e, n, ms)
    case Assign(_, e) => NoteExpr(e, n, ms) + Ins(n + 1, ms, Mild(e), 2)
    case Do(_, args) => NoteExprs(args, n, ms) + Ins(n + |args|, ms, false, 3) + Ins(n + 1, ms, false, 1)
    case Blk(b) => NoteBlk(b, cx)
    case If(c, t, e) => NoteIf(c, t, e, cx)
    case Forever(b) => NoteForever(b, cx)
    case ForIn(reuse, e, b) => NoteForIn(reuse, e, b, cx)
    case ForCond(c, b) => NoteForCond(c, b, cx)
    case Break => if |cx.loops| == 0 then [] else NoteUnwind(cx)
    case Continue => if |cx.loops| == 0 then [] else NoteUnwind(cx)
    case Ret(e) => NoteExpr(e, n, ms) + Ins(n + 1, ms, false, 1)
  }

  function NoteThen(a: L.Stmt, b: L.Stmt, cx: Ctx): seq<Note>
    decreases L.Then(a, b), 0
  {
    NoteStmt(a, cx) + NoteStmt(b, After(a, cx))
  }

  function NoteIf(c: L.Expr, t: L.Stmt, e: L.Stmt, cx: Ctx): seq<Note>
    decreases L.If(c, t, e), 0
  {
    var n, ms := cx.locals, cx.marks;
    NoteExpr(c, n, ms) + Ins(n + 1, ms, false, 2) + NoteStmt(t, cx)
    + (if e.Skip? then [] else Ins(n, ms, false, 2) + NoteStmt(e, cx.(depth := After(t, cx).depth)))
  }

  function NoteForever(b: L.Stmt, cx: Ctx): seq<Note>
    decreases L.Forever(b), 0
  {
    NoteStmt(b, InLoop(cx, 0, 0)) + Ins(cx.locals, cx.marks, false, 2)
  }

  function NoteBlk(b: L.Stmt, cx: Ctx): seq<Note>
    decreases L.Blk(b), 0
  {
    var n, ex := cx.locals, After(b, Enter(cx));
    Ins(n, cx.marks, false, 1) + NoteStmt(b, Enter(cx)) + PopNotes(ex.locals, Enter(cx).marks, ex.locals - n)
    + Ins(n, Enter(cx).marks, false, 1)
  }

  function NoteForIn(reuse: Option<nat>, e: L.Expr, b: L.Stmt, cx: Ctx): seq<Note>
    decreases L.ForIn(reuse, e, b), 0
  {
    var fx := ForCtx(cx, reuse);
    NoteForHead(reuse, e, cx) + NoteForTest(fx.locals, fx.marks) + NoteStmt(b, InLoop(fx, 0, 0)) + NoteForNext(fx.locals, fx.marks)
    + PopNotes(fx.locals, fx.marks, fx.locals - cx.locals) + Ins(cx.locals, fx.marks, false, 1)
  }

  function NoteForCond(c: L.Expr, b: L.Stmt, cx: Ctx): seq<Note>
    decreases L.ForCond(c, b), 0
  {
    var n, lx := cx.locals, CondCtx(cx, 0, 0);
    var m1, m2 := cx.marks + [n], cx.marks + [n, n];
    var ex := After(b, lx);
    Ins(n, cx.marks, false, 1) + Ins(n, m1, false, 1) + NoteExpr(c, n, m2) + Ins(n + 1, m2, false, 2) + NoteStmt(b, lx)
    + PopNotes(ex.locals, m2, ex.locals - n) + Ins(n, m2, false, 1) + Ins(n, m1, false, 2) + Ins(n, m2, false, 1) + Ins(n, m1, false, 1)
  }

  function NoteFunc(fn: L.Func): seq<Note> {
    var cx := BodyCtx(fn.arity);
    var n := After(fn.body, cx).locals;
    Ins(fn.arity, [], false, 1) + NoteStmt(fn.body, cx) + Ins(n, cx.marks, false, 2) + Ins(n + 1, cx.marks, false, 1)
  }

  // ---- Agreement ----

  /** A function of the program with its notes, at its address. In tame code every assignment is of a
      mild value, or to a variable that outlives at most the innermost scope. */
  datatype Listing = Listing(p: Program, ln: Link, fs: seq<L.Func>, tame: bool, notes: seq<Note>, addr: int)

  predicate Sorted(ms: seq<nat>) {
    forall i, j :: 0 <= i < j < |ms| ==> ms[i] <= ms[j]
  }

  /** `marks[i]` is the number of locals when the i-th open scope was entered: `slot` outlives a scope
      other than the innermost. */
  predicate OutlivesTwo(slot: int, marks: seq<nat>) {
    exists i :: 0 <= i < |marks| - 1 && slot < marks[i]
  }

  ghost predicate Piece(g: Listing, base: int, code: seq<int>, n: seq<Note>) {
    && |code| == |n| && Has(g.p, base, code)
    && 0 <= base - g.addr && base - g.addr + |n| <= |g.notes|
    && forall i :: 0 <= i < |n| ==> g.notes[base - g.addr + i] == n[i]
  }

  lemma PieceSplit(g: Listing, base: int, x: seq<int>, y: seq<int>, n: seq<Note>, m: seq<Note>)
    requires Piece(g, base, x + y, n + m) && |x| == |n|
    ensures Piece(g, base, x, n) && Piece(g, base + |x|, y, m)
  {
    HasSplit(g.p, base, x, y);
    var at := base - g.addr;
    forall i | 0 <= i < |n| ensures g.notes[at + i] == n[i] {
      assert (n + m)[i] == n[i];
    }
    forall i | 0 <= i < |m| ensures g.notes[at + |x| + i] == m[i] {
      assert (n + m)[|n| + i] == m[i];
      assert g.notes[at + (|x| + i)] == m[i];
    }
  }

  predicate Fits(n: Note, h: int, ms: seq<nat>, m: bool) {
    n.Spot? && n.height == h && n.marks == ms && (n.mild ==> m)
  }

  /** An instruction starts at `pc`, and may be reached at height `h` with the scopes `ms` open. */
  predicate Goes(g: Listing, pc: int, h: int, ms: seq<nat>, m: bool) {
    Fits(NoteAt(g, pc), h, ms, m)
  }

  predicate Begins(g: Listing, pc: int, h: int, ms: seq<nat>) {
    NoteAt(g, pc) == Spot(h, ms, false)
  }

  function NoteAt(g: Listing, pc: int): Note {
    if 0 <= pc - g.addr < |g.notes| then g.notes[pc - g.addr] else Operand
  }

  predicate Plain(op: int) {
    || IsMath(op) || IsCompare(op)
    || op in {OP_AND, OP_OR, OP_RANGE, OP_AGET, OP_IT_DEF, OP_SLICE, OP_ALEN, OP_POP, OP_SCOPE_ENTER, OP_SCOPE_EXIT, OP_RET}
  }

  /** The cells an instruction without operands takes are there, and where it goes agrees. */
  ghost predicate FlowPlain(g: Listing, next: int, op: int, h: int, ms: seq<nat>) {
    if IsMath(op) || IsCompare(op) || op == OP_AND || op == OP_OR || op == OP_RANGE then h >= 2 && Goes(g, next, h - 1, ms, true)
    else if op == OP_AGET || op == OP_IT_DEF then h >= 2 && Goes(g, next, h - 1, ms, false)
    else if op == OP_SLICE then h >= 3 && Goes(g, next, h - 2, ms, true)
    else if op == OP_ALEN then h >= 1 && Goes(g, next, h, ms, true)
    else if op == OP_POP then h >= 1 && Goes(g, next, h - 1, ms, false)
    else if op == OP_SCOPE_ENTER then h >= 0 && Goes(g, next, h, ms + [h], false)
    else if op == OP_SCOPE_EXIT then |ms| > 0 && Goes(g, next, h, ms[..|ms| - 1], false)
    else op == OP_RET && h >= 1
  }

  /** As much for an instruction with operands; `m` is what is known of the top of the stack. */
  ghost predicate FlowArg(g: Listing, pc: int, op: int, arg: int, h: int, ms: seq<nat>, m: bool) {
    if op == OP_PSH_NUM then 0 <= arg < |g.p.consts| && Goes(g, pc + 2, h + 1, ms, true)
    else if op == OP_LVAR then 0 <= arg < h && Goes(g, pc + 2, h + 1, ms, false)
    else if op == OP_SVAR then
      0 <= arg < h - 1 && Sorted(ms) && (g.tame ==> m || !OutlivesTwo(arg, ms)) && Goes(g, pc + 2, h - 1, ms, false)
    else if op == OP_JMP then Goes(g, arg, h, ms, m)
    else if op == OP_JZ then h >= 1 && Goes(g, pc + 2, h - 1, ms, false) && Goes(g, arg, h - 1, ms, false)
    else if op == OP_ARR then 0 <= arg <= h && Goes(g, pc + 2, h - arg + 1, ms, true)
    else
      && op == OP_CALL && 0 <= pc && pc + 2 < |g.p.code|
      && var n := g.p.code[pc + 2];
        0 <= n <= h && IsEntry(g.ln, g.fs, arg, n) && Goes(g, pc + 3, h - n + 1, ms, false)
  }

  /** A function with `n` parameters starts at `addr`. */
  ghost predicate IsEntry(ln: Link, fs: seq<L.Func>, addr: int, n: int) {
    exists f :: 0 <= f < |fs| && f < |ln.addrs| && ln.addrs[f] == addr && fs[f].arity == n
  }

  ghost predicate Flow(g: Listing, pc: int, n: Note)
    requires n.Spot?
  {
    && 0 <= pc < |g.p.code|
    && var op := g.p.code[pc];
      if Plain(op) then FlowPlain(g, pc + 1, op, n.height, n.marks)
      else pc + 1 < |g.p.code| && FlowArg(g, pc, op, g.p.code[pc + 1], n.height, n.marks, n.mild)
  }

  /** Every instruction that starts in [lo, hi) finds its operands and goes to places that agree. */
  ghost predicate Clean(g: Listing, lo: int, hi: int) {
    forall pc :: lo <= pc < hi && NoteAt(g, pc).Spot? ==> Flow(g, pc, NoteAt(g, pc))
  }

  // ---- Single instructions ----

  lemma PlainClean(g: Listing, base: int, op: int, h: int, ms: seq<nat>, m: bool)
    requires Piece(g, base, [op], Ins(h, ms, m, 1)) && Plain(op) && FlowPlain(g, base + 1, op, h, ms)
    ensures Clean(g, base, base + 1) && Goes(g, base, h, ms, m) && (!m ==> Begins(g, base, h, ms))
  {
    hide FlowPlain;
    assert [op][0] == op && Ins(h, ms, m, 1)[0] == Spot(h, ms, m);
    assert g.notes[base - g.addr + 0] == Spot(h, ms, m);
    assert NoteAt(g, base) == Spot(h, ms, m) && g.p.code[base + 0] == op;
  }

  lemma ArgClean(g: Listing, base: int, op: int, arg: int, h: int, ms: seq<nat>, m: bool)
    requires Piece(g, base, [op, arg], Ins(h, ms, m, 2)) && !Plain(op) && FlowArg(g, base, op, arg, h, ms, m)
    ensures Clean(g, base, base + 2) && Goes(g, base, h, ms, m) && (!m ==> Begins(g, base, h, ms))
  {
    hide FlowArg;
    assert [op, arg][0] == op && [op, arg][1] == arg && Ins(h, ms, m, 2)[0] == Spot(h, ms, m) && Ins(h, ms, m, 2)[1] == Operand;
    assert g.notes[base - g.addr + 0] == Spot(h, ms, m) && g.notes[base - g.addr + 1] == Operand;
    assert NoteAt(g, base) == Spot(h, ms, m) && NoteAt(g, base + 1) == Operand;
    assert g.p.code[base + 0] == op && g.p.code[base + 1] == arg;
  }

  lemma CallClean(g: Listing, base: int, addr: int, n: nat, h: int, ms: seq<nat>)
    requires Piece(g, base, [OP_CALL, addr, n], Ins(h, ms, false, 3))
    requires n <= h && IsEntry(g.ln, g.fs, addr, n) && Goes(g, base + 3, h - n + 1, ms, false)
    ensures Clean(g, base, base + 3) && Begins(g, base, h, ms)
  {
    hide IsEntry, Goes;
    var c, i := [OP_CALL, addr, n], Ins(h, ms, false, 3);
    assert c[0] == OP_CALL && c[1] == addr && c[2] == n && i[0] == Spot(h, ms, false) && i[1] == Operand && i[2] == Operand;
    assert g.notes[base - g.addr + 0] == i[0] && g.notes[base - g.addr + 1] == i[1] && g.notes[base - g.addr + 2] == i[2];
    assert NoteAt(g, base) == i[0] && NoteAt(g, base + 1) == Operand && NoteAt(g, base + 2) == Operand;
    assert g.p.code[base + 0] == c[0] && g.p.code[base + 1] == c[1] && g.p.code[base + 2] == c[2];
  }

  lemma CleanJoin(g: Listing, lo: int, mid: int, hi: int)
    requires Clean(g, lo, mid) && Clean(g, mid, hi)
    ensures Clean(g, lo, hi)
  {
    hide Flow;
  }

  lemma CleanNone(g: Listing, at: int)
    ensures Clean(g, at, at)
  {
  }

  lemma BeginsGoes(g: Listing, pc: int, h: int, ms: seq<nat>)
    requires Begins(g, pc, h, ms)
    ensures Goes(g, pc, h, ms, true) && Goes(g, pc, h, ms, false)
  {
  }

  // ---- Expressions ----

  /** Its variables are among the first `n` slots, its calls pass as many arguments as there are parameters. */
  ghost predicate Bound(e: L.Expr, n: nat, fs: seq<L.Func>)
    decreases e
  {
    match e
    case Var(x) => x < n
    case Neg(e1) => Bound(e1, n, fs)
    case Bin(_, l, r) => Bound(l, n, fs) && Bound(r, n, fs)
    case Cond(c, t, f) => Bound(c, n, fs) && Bound(t, n, fs) && Bound(f, n, fs)
    case List(es) => forall i :: 0 <= i < |es| ==> Bound(es[i], n, fs)
    case Index(a, i) => Bound(a, n, fs) && Bound(i, n, fs)
    case Span(a, lo, hi) => Bound(a, n, fs) && Bound(lo, n, fs) && Bound(hi, n, fs)
    case Call(f, args) => f < |fs| && |args| == fs[f].arity && forall i :: 0 <= i < |args| ==> Bound(args[i], n, fs)
    case _ => true
  }

  ghost predicate AllBound(es: seq<L.Expr>, n: nat, fs: seq<L.Func>) {
    forall i :: 0 <= i < |es| ==> Bound(es[i], n, fs)
  }

  /** The constants and addresses of the program are those of the link. */
  ghost predicate Listed(g: Listing) {
    g.ln.consts == g.p.consts && 0 in g.p.consts && |g.ln.addrs| == |g.fs|
  }

  lemma ExprBegins(g: Listing, e: L.Expr, base: int, h: int, ms: seq<nat>)
    requires Piece(g, base, GenExpr(e, g.ln, base), NoteExpr(e, h, ms))
    ensures Begins(g, base, h, ms)
  {
    hide NoteExpr, GenExpr;
    ExprFirst(e, h, ms);
    assert g.notes[base - g.addr + 0] == NoteExpr(e, h, ms)[0];
  }

  lemma {:induction false} ExprClean(g: Listing, e: L.Expr, base: int, n: nat, h: int, ms: seq<nat>)
    requires Listed(g) && Bound(e, n, g.fs) && Pooled(e, g.p.consts) && n <= h
    requires Piece(g, base, GenExpr(e, g.ln, base), NoteExpr(e, h, ms))
    requires Goes(g, base + |GenExpr(e, g.ln, base)|, h + 1, ms, Mild(e))
    ensures Clean(g, base, base + |GenExpr(e, g.ln, base)|) && Begins(g, base, h, ms)
    decreases e, 1
  {
    hide Clean, Piece, Goes, Begins, GenExpr, NoteExpr, Bound, Pooled, Listed, Mild;
    ExprBegins(g, e, base, h, ms);
    MildOf(e);
    match e
    case Lit(_) => LeafClean(g, e, base, n, h, ms);
    case Bool(_) => LeafClean(g, e, base, n, h, ms);
    case Var(_) => LeafClean(g, e, base, n, h, ms);
    case Neg(e1) => NegClean(g, e1, base, n, h, ms);
    case Bin(op, l, r) => BinClean(g, op, l, r, base, n, h, ms);
    case Cond(c, t, f) => CondClean(g, c, t, f, base, n, h, ms);
    case List(es) => ListClean(g, es, base, n, h, ms);
    case Index(a, i) => IndexClean(g, a, i, base, n, h, ms);
    case Span(a, lo, hi) => SpanClean(g, a, lo, hi, base, n, h, ms);
    case Call(f, args) => CallsClean(g, f, args, base, n, h, ms);
  }

  lemma MildOf(e: L.Expr)
    ensures e.Neg? || e.Bin? || e.List? || e.Span? ==> Mild(e)
    ensures e.Index? || e.Call? ==> !Mild(e)
    ensures e.Cond? ==> Mild(e) == (Mild(e.t) && Mild(e.e2))
  {
  }

  lemma LeafClean(g: Listing, e: L.Expr, base: int, n: nat, h: int, ms: seq<nat>)
    requires Listed(g) && Bound(e, n, g.fs) && Pooled(e, g.p.consts) && n <= h && (e.Lit? || e.Bool? || e.Var?)
    requires Piece(g, base, GenExpr(e, g.ln, base), NoteExpr(e, h, ms))
    requires Goes(g, base + |GenExpr(e, g.ln, base)|, h + 1, ms, Mild(e))
    ensures Clean(g, base, base + |GenExpr(e, g.ln, base)|)
  {
    hide Clean, Piece, Goes, Begins, ConstIndex, Ins;
    match e
    case Lit(n) => ArgClean(g, base, OP_PSH_NUM, ConstIndex(g.ln.consts, n), h, ms, false);
    case Bool(b) => ArgClean(g, base, OP_PSH_NUM, ConstIndex(g.ln.consts, Bit(b)), h, ms, false);
    case Var(x) => ArgClean(g, base, OP_LVAR, x, h, ms, false);
  }

  lemma {:induction false} NegClean(g: Listing, e: L.Expr, base: int, n: nat, h: int, ms: seq<nat>)
    requires Listed(g) && Bound(L.Neg(e), n, g.fs) && Pooled(L.Neg(e), g.p.consts) && n <= h
    requires Piece(g, base, GenExpr(L.Neg(e), g.ln, base), NoteExpr(L.Neg(e), h, ms))
    requires Goes(g, base + |GenExpr(L.Neg(e), g.ln, base)|, h + 1, ms, true)
    ensures Clean(g, base, base + |GenExpr(L.Neg(e), g.ln, base)|)
    decreases L.Neg(e), 0
  {
    hide Clean, Piece, Goes, Begins, ConstIndex, GenExpr, NoteExpr;
    NegIs(e, g.ln, base);
    NegNotes(e, h, ms);
    if e.Lit? {
      ArgClean(g, base, OP_PSH_NUM, ConstIndex(g.ln.consts, 0 - e.n), h, ms, false);
    } else {
      var c0, c1 := PushConst(0, g.ln), GenExpr(e, g.ln, base + 2);
      var n0, n1 := Ins(h, ms, false, 2), NoteExpr(e, h + 1, ms);
      ExprSize(e, h + 1, ms, g.ln, base + 2);
      ThreePieces(g, base, c0, c1, [OP_SUB], n0, n1, Ins(h + 2, ms, false, 1));
      var end := base + 2 + |c1|;
      PlainClean(g, end, OP_SUB, h + 2, ms, false);
      BeginsGoes(g, end, h + 2, ms);
      ExprCleanHere(g, e, base + 2, n, h + 1, ms);
      BeginsGoes(g, base + 2, h + 1, ms);
      ArgClean(g, base, OP_PSH_NUM, ConstIndex(g.ln.consts, 0), h, ms, false);
      CleanJoin(g, base, base + 2, end);
      CleanJoin(g, base, end, end + 1);
    }
  }

  /** As ExprClean, where the instruction that follows begins afresh. */
  lemma {:induction false} ExprCleanHere(g: Listing, e: L.Expr, base: int, n: nat, h: int, ms: seq<nat>)
    requires Listed(g) && Bound(e, n, g.fs) && Pooled(e, g.p.consts) && n <= h
    requires Piece(g, base, GenExpr(e, g.ln, base), NoteExpr(e, h, ms))
    requires Begins(g, base + |GenExpr(e, g.ln, base)|, h + 1, ms)
    ensures Clean(g, base, base + |GenExpr(e, g.ln, base)|) && Begins(g, base, h, ms)
    decreases e, 2
  {
    hide Clean, Piece, GenExpr, NoteExpr, Pooled, Bound, Listed;
    ExprClean(g, e, base, n, h, ms);
  }

  lemma {:induction false} BinClean(g: Listing, op: L.BinOp, l: L.Expr, r: L.Expr, base: int, n: nat, h: int, ms: seq<nat>)
    requires Listed(g) && Bound(L.Bin(op, l, r), n, g.fs) && Pooled(L.Bin(op, l, r), g.p.consts) && n <= h
    requires Piece(g, base, GenExpr(L.Bin(op, l, r), g.ln, base), NoteExpr(L.Bin(op, l, r), h, ms))
    requires Goes(g, base + |GenExpr(L.Bin(op, l, r), g.ln, base)|, h + 1, ms, true)
    ensures Clean(g, base, base + |GenExpr(L.Bin(op, l, r), g.ln, base)|)
    decreases L.Bin(op, l, r), 0
  {
    hide Clean, Piece, Goes, Begins, GenExpr, NoteExpr;
    BinIs(op, l, r, g.ln, base);
    BinNotes(op, l, r, h, ms);
    var cl := GenExpr(l, g.ln, base);
    var mid := base + |cl|;
    var cr := GenExpr(r, g.ln, mid);
    var end := mid + |cr|;
    ExprSize(l, h, ms, g.ln, base);
    ExprSize(r, h + 1, ms, g.ln, mid);
    ThreePieces(g, base, cl, cr, [L.OpCode(op)], NoteExpr(l, h, ms), NoteExpr(r, h + 1, ms), Ins(h + 2, ms, false, 1));
    PlainClean(g, end, L.OpCode(op), h + 2, ms, false);
    ExprCleanHere(g, r, mid, n, h + 1, ms);
    ExprCleanHere(g, l, base, n, h, ms);
    CleanJoin(g, base, mid, end);
    CleanJoin(g, base, end, end + 1);
  }

  lemma {:induction false} IndexClean(g: Listing, a: L.Expr, i: L.Expr, base: int, n: nat, h: int, ms: seq<nat>)
    requires Listed(g) && Bound(L.Index(a, i), n, g.fs) && Pooled(L.Index(a, i), g.p.consts) && n <= h
    requires Piece(g, base, GenExpr(L.Index(a, i), g.ln, base), NoteExpr(L.Index(a, i), h, ms))
    requires Goes(g, base + |GenExpr(L.Index(a, i), g.ln, base)|, h + 1, ms, false)
    ensures Clean(g, base, base + |GenExpr(L.Index(a, i), g.ln, base)|)
    decreases L.Index(a, i), 0
  {
    hide Clean, Piece, Goes, Begins, GenExpr, NoteExpr;
    IndexIs(a, i, g.ln, base);
    IndexNotes(a, i, h, ms);
    var ca := GenExpr(a, g.ln, base);
    var mid := base + |ca|;
    var ci := GenExpr(i, g.ln, mid);
    var end := mid + |ci|;
    ExprSize(a, h, ms, g.ln, base);
    ExprSize(i, h + 1, ms, g.ln, mid);
    ThreePieces(g, base, ca, ci, [OP_AGET], NoteExpr(a, h, ms), NoteExpr(i, h + 1, ms), Ins(h + 2, ms, false, 1));
    PlainClean(g, end, OP_AGET, h + 2, ms, false);
    ExprCleanHere(g, i, mid, n, h + 1, ms);
    ExprCleanHere(g, a, base, n, h, ms);
    CleanJoin(g, base, mid, end);
    CleanJoin(g, base, end, end + 1);
  }

  lemma {:induction false} SpanClean(g: Listing, a: L.Expr, lo: L.Expr, hi: L.Expr, base: int, n: nat, h: int, ms: seq<nat>)
    requires Listed(g) && Bound(L.Span(a, lo, hi), n, g.fs) && Pooled(L.Span(a, lo, hi), g.p.consts) && n <= h
    requires Piece(g, base, GenExpr(L.Span(a, lo, hi), g.ln, base), NoteExpr(L.Span(a, lo, hi), h, ms))
    requires Goes(g, base + |GenExpr(L.Span(a, lo, hi), g.ln, base)|, h + 1, ms, true)
    ensures Clean(g, base, base + |GenExpr(L.Span(a, lo, hi), g.ln, base)|)
    decreases L.Span(a, lo, hi), 0
  {
    hide Clean, Piece, Goes, Begins, GenExpr, NoteExpr, Ins;
    SpanIs(a, lo, hi, g.ln, base);
    SpanNotes(a, lo, hi, h, ms);
    var ca := GenExpr(a, g.ln, base);
    var k1 := base + |ca|;
    var cl := GenExpr(lo, g.ln, k1);
    var k2 := k1 + |cl|;
    var ch := GenExpr(hi, g.ln, k2);
    var end := k2 + |ch|;
    var na, nl, nh := NoteExpr(a, h, ms), NoteExpr(lo, h + 1, ms), NoteExpr(hi, h + 2, ms);
    ExprSize(a, h, ms, g.ln, base);
    ExprSize(lo, h + 1, ms, g.ln, k1);
    ExprSize(hi, h + 2, ms, g.ln, k2);
    PieceSplit(g, base, ca + cl + ch, [OP_SLICE], na + nl + nh, Ins(h + 3, ms, false, 1));
    ThreePieces(g, base, ca, cl, ch, na, nl, nh);
    PlainClean(g, end, OP_SLICE, h + 3, ms, false);
    ExprCleanHere(g, hi, k2, n, h + 2, ms);
    ExprCleanHere(g, lo, k1, n, h + 1, ms);
    ExprCleanHere(g, a, base, n, h, ms);
    CleanJoin(g, base, k1, k2);
    CleanJoin(g, base, k2, end);
    CleanJoin(g, base, end, end + 1);
  }

  /** The arms of a conditional meet at the same height, whichever way the jump goes. */
  lemma {:induction false} CondClean(g: Listing, c: L.Expr, t: L.Expr, f: L.Expr, base: int, n: nat, h: int, ms: seq<nat>)
    requires Listed(g) && Bound(L.Cond(c, t, f), n, g.fs) && Pooled(L.Cond(c, t, f), g.p.consts) && n <= h
    requires Piece(g, base, GenExpr(L.Cond(c, t, f), g.ln, base), NoteExpr(L.Cond(c, t, f), h, ms))
    requires Goes(g, base + |GenExpr(L.Cond(c, t, f), g.ln, base)|, h + 1, ms, Mild(t) && Mild(f))
    ensures Clean(g, base, base + |GenExpr(L.Cond(c, t, f), g.ln, base)|)
    decreases L.Cond(c, t, f), 0
  {
    hide Clean, Piece, Begins, Goes, GenExpr, NoteExpr, Bound, Pooled, Mild, Listed, Ins, NoteAt, Branches;
    CondIs(c, t, f, g.ln, base);
    CondNotes(c, t, f, h, ms);
    CondParts(c, t, f, n, g.fs, g.p.consts);
    var cc := GenExpr(c, g.ln, base);
    var k1 := base + |cc|;
    var ct := GenExpr(t, g.ln, k1 + 2);
    var k2 := k1 + 2 + |ct|;
    var cf := GenExpr(f, g.ln, k2 + 2);
    var end := k2 + 2 + |cf|;
    var nc, nt, nf := NoteExpr(c, h, ms), NoteExpr(t, h, ms), NoteExpr(f, h, ms);
    var j1, j2 := Ins(h + 1, ms, false, 2), Ins(h + 1, ms, Mild(t), 2);
    ExprSize(c, h, ms, g.ln, base);
    ExprSize(t, h, ms, g.ln, k1 + 2);
    ExprSize(f, h, ms, g.ln, k2 + 2);
    BranchesIs(cc, k2 + 2, ct, end, cf);
    FivePieces(g, base, cc, [OP_JZ, k2 + 2], ct, [OP_JMP, end], cf, nc, j1, nt, j2, nf);
    GoesWeaker(g, end, h + 1, ms, Mild(t) && Mild(f), Mild(f));
    GoesWeaker(g, end, h + 1, ms, Mild(t) && Mild(f), Mild(t));
    ExprClean(g, f, k2 + 2, n, h, ms);
    SkipClean(g, k2, end, h + 1, ms, Mild(t));
    ExprClean(g, t, k1 + 2, n, h, ms);
    CleanJoin(g, k1 + 2, k2, k2 + 2);
    CleanJoin(g, k1 + 2, k2 + 2, end);
    ZeroClean(g, k1, k2 + 2, h, ms);
    ExprCleanHere(g, c, base, n, h, ms);
    CleanJoin(g, base, k1, k1 + 2);
    CleanJoin(g, base, k1 + 2, end);
  }

  lemma CondParts(c: L.Expr, t: L.Expr, f: L.Expr, n: nat, fs: seq<L.Func>, consts: seq<int>)
    requires Bound(L.Cond(c, t, f), n, fs) && Pooled(L.Cond(c, t, f), consts)
    ensures Bound(c, n, fs) && Bound(t, n, fs) && Bound(f, n, fs)
    ensures Pooled(c, consts) && Pooled(t, consts) && Pooled(f, consts)
  {
  }

  lemma BranchesIs(c: seq<int>, els: int, t: seq<int>, end: int, f: seq<int>)
    ensures Branches(c, els, t, end, f) == c + [OP_JZ, els] + t + [OP_JMP, end] + f
  {
  }

  lemma SkipClean(g: Listing, base: int, target: int, h: int, ms: seq<nat>, m: bool)
    requires Piece(g, base, [OP_JMP, target], Ins(h, ms, m, 2)) && Goes(g, target, h, ms, m)
    ensures Clean(g, base, base + 2) && Goes(g, base, h, ms, m)
  {
    hide Piece, Goes;
    ArgClean(g, base, OP_JMP, target, h, ms, m);
  }

  lemma ZeroClean(g: Listing, base: int, target: int, h: nat, ms: seq<nat>)
    requires Piece(g, base, [OP_JZ, target], Ins(h + 1, ms, false, 2)) && Begins(g, base + 2, h, ms) && Begins(g, target, h, ms)
    ensures Clean(g, base, base + 2) && Begins(g, base, h + 1, ms)
  {
    hide Piece, Goes;
    BeginsGoes(g, base + 2, h, ms);
    BeginsGoes(g, target, h, ms);
    hide Begins;
    ArgClean(g, base, OP_JZ, target, h + 1, ms, false);
  }

  lemma FivePieces(g: Listing, base: int, a: seq<int>, b: seq<int>, c: seq<int>, d: seq<int>, e: seq<int>,
                   na: seq<Note>, nb: seq<Note>, nc: seq<Note>, nd: seq<Note>, ne: seq<Note>)
    requires Piece(g, base, a + b + c + d + e, na + nb + nc + nd + ne)
    requires |a| == |na| && |b| == |nb| && |c| == |nc| && |d| == |nd|
    ensures Piece(g, base, a, na) && Piece(g, base + |a|, b, nb) && Piece(g, base + |a| + |b|, c, nc)
    ensures Piece(g, base + |a| + |b| + |c|, d, nd) && Piece(g, base + |a| + |b| + |c| + |d|, e, ne)
  {
    hide Piece;
    PieceSplit(g, base, a + b + c + d, e, na + nb + nc + nd, ne);
    PieceSplit(g, base, a + b + c, d, na + nb + nc, nd);
    ThreePieces(g, base, a, b, c, na, nb, nc);
  }

  lemma ThreePieces(g: Listing, base: int, a: seq<int>, b: seq<int>, c: seq<int>, na: seq<Note>, nb: seq<Note>, nc: seq<Note>)
    requires Piece(g, base, a + b + c, na + nb + nc) && |a| == |na| && |b| == |nb|
    ensures Piece(g, base, a, na) && Piece(g, base + |a|, b, nb) && Piece(g, base + |a| + |b|, c, nc)
  {
    hide Piece;
    PieceSplit(g, base, a + b, c, na + nb, nc);
    PieceSplit(g, base, a, b, na, nb);
  }

  lemma GoesWeaker(g: Listing, pc: int, h: int, ms: seq<nat>, m: bool, m': bool)
    requires Goes(g, pc, h, ms, m) && (m ==> m')
    ensures Goes(g, pc, h, ms, m')
  {
  }

  lemma {:induction false} ListClean(g: Listing, es: seq<L.Expr>, base: int, n: nat, h: int, ms: seq<nat>)
    requires Listed(g) && Bound(L.List(es), n, g.fs) && Pooled(L.List(es), g.p.consts) && n <= h
    requires Piece(g, base, GenExpr(L.List(es), g.ln, base), NoteExpr(L.List(es), h, ms))
    requires Goes(g, base + |GenExpr(L.List(es), g.ln, base)|, h + 1, ms, true)
    ensures Clean(g, base, base + |GenExpr(L.List(es), g.ln, base)|)
    decreases L.List(es), 0
  {
    hide Clean, Piece, Goes, Begins, GenExpr, NoteExpr, GenExprs, NoteExprs;
    ListIs(es, g.ln, base);
    ListNotes(es, h, ms);
    var c := GenExprs(es, g.ln, base);
    var end := base + |c|;
    ExprsSize(es, h, ms, g.ln, base);
    PieceSplit(g, base, c, [OP_ARR, |es|], NoteExprs(es, h, ms), Ins(h + |es|, ms, false, 2));
    ArgClean(g, end, OP_ARR, |es|, h + |es|, ms, false);
    ExprsClean(g, es, base, n, h, ms);
    CleanJoin(g, base, end, end + 2);
  }

  lemma {:induction false} CallsClean(g: Listing, f: nat, args: seq<L.Expr>, base: int, n: nat, h: int, ms: seq<nat>)
    requires Listed(g) && Bound(L.Call(f, args), n, g.fs) && Pooled(L.Call(f, args), g.p.consts) && n <= h
    requires Piece(g, base, GenExpr(L.Call(f, args), g.ln, base), NoteExpr(L.Call(f, args), h, ms))
    requires Goes(g, base + |GenExpr(L.Call(f, args), g.ln, base)|, h + 1, ms, false)
    ensures Clean(g, base, base + |GenExpr(L.Call(f, args), g.ln, base)|)
    decreases L.Call(f, args), 0
  {
    hide Clean, Piece, Goes, Begins, GenExpr, NoteExpr, GenExprs, NoteExprs;
    CallIs(f, args, g.ln, base);
    CallNotes(f, args, h, ms);
    var c := GenExprs(args, g.ln, base);
    var end := base + |c|;
    ExprsSize(args, h, ms, g.ln, base);
    PieceSplit(g, base, c, [OP_CALL, FuncAddr(f, g.ln), |args|], NoteExprs(args, h, ms), Ins(h + |args|, ms, false, 3));
    CallClean(g, end, FuncAddr(f, g.ln), |args|, h + |args|, ms);
    ExprsClean(g, args, base, n, h, ms);
    CleanJoin(g, base, end, end + 3);
  }

  /** A list of expressions leaves one cell each. */
  lemma {:induction false} ExprsClean(g: Listing, es: seq<L.Expr>, base: int, n: nat, h: int, ms: seq<nat>)
    requires Listed(g) && AllBound(es, n, g.fs) && AllPooled(es, g.p.consts) && n <= h
    requires Piece(g, base, GenExprs(es, g.ln, base), NoteExprs(es, h, ms))
    requires Begins(g, base + |GenExprs(es, g.ln, base)|, h + |es|, ms)
    ensures Clean(g, base, base + |GenExprs(es, g.ln, base)|) && Begins(g, base, h, ms)
    decreases es, 3
  {
    hide Clean, Piece, Goes, Begins, Bound, Pooled, GenExpr, NoteExpr;
    if es == [] {
      CleanNone(g, base);
    } else {
      var c := GenExpr(es[0], g.ln, base);
      var mid := base + |c|;
      var rest := GenExprs(es[1..], g.ln, mid);
      ExprSize(es[0], h, ms, g.ln, base);
      PieceSplit(g, base, c, rest, NoteExpr(es[0], h, ms), NoteExprs(es[1..], h + 1, ms));
      ExprsClean(g, es[1..], mid, n, h + 1, ms);
      ExprCleanHere(g, es[0], base, n, h, ms);
      CleanJoin(g, base, mid, mid + |rest|);
    }
  }
}
