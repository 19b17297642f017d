/** All paths agree, statement by statement and for whole functions: every jump lands on an
    instruction, at the height and with the scopes its target expects
    (src/compiler.c:395-451, 1833-1935, 1979-2120, 2282-2478). */
module Agreement {
  import opened Defines
  import opened Machine
  import opened Frames
  import opened Codegen
  import opened Simulation
  import opened Depths
  import L = Language

  /** Scopes further in were entered with as many locals or more. */
  predicate Ascending(cx: Ctx) {
    Sorted(cx.marks) && (|cx.marks| > 0 ==> cx.marks[|cx.marks| - 1] <= cx.locals)
  }

  lemma AscendingOn(cx: Ctx, cx': Ctx)
    requires Ascending(cx) && cx'.locals >= cx.locals
    ensures cx'.marks == cx.marks ==> Ascending(cx')
    ensures cx'.marks == cx.marks + [cx.locals] || cx'.marks == cx.marks + [cx.locals, cx.locals] ==> Ascending(cx')
  {
  }

  /** Break and continue targets of the innermost loop are where its locals and scopes are again. */
  ghost predicate LoopGoes(g: Listing, cx: Ctx) {
    |cx.loops| > 0 ==>
      var l := cx.loops[|cx.loops| - 1];
      l.open <= |cx.marks| && Begins(g, l.brk, l.locals, cx.marks[..l.open]) && Begins(g, l.cont, l.locals, cx.marks[..l.open])
  }

  ghost predicate StmtBound(s: L.Stmt, cx: Ctx, fs: seq<L.Func>, tame: bool)
    decreases s
  {
    match s
    case Then(a, b) => StmtBound(a, cx, fs, tame) && StmtBound(b, After(a, cx), fs, tame)
    case Decl(e) => Bound(e, cx.locals, fs)
    case Assign(x, e) => x < cx.locals && Bound(e, cx.locals, fs) && (tame ==> Mild(e) || !OutlivesTwo(x, cx.marks))
    case Do(f, args) => f < |fs| && |args| == fs[f].arity && AllBound(args, cx.locals, fs)
    case Blk(b) => StmtBound(b, Enter(cx), fs, tame)
    case If(c, t, e) => Bound(c, cx.locals, fs) && StmtBound(t, cx, fs, tame) && StmtBound(e, cx.(depth := After(t, cx).depth), fs, tame)
    case Forever(b) => StmtBound(b, InLoop(cx, 0, 0), fs, tame)
    case ForIn(reuse, e, b) =>
      && (reuse.Some? ==> reuse.value < cx.locals) && Bound(e, cx.locals + (if reuse.None? then 1 else 0), fs)
      && (tame ==> !OutlivesTwo(LoopVar(reuse, cx), ForCtx(cx, reuse).marks))
      && StmtBound(b, InLoop(ForCtx(cx, reuse), 0, 0), fs, tame)
    case ForCond(c, b) => Bound(c, cx.locals, fs) && StmtBound(b, CondCtx(cx, 0, 0), fs, tame)
    case Ret(e) => Bound(e, cx.locals, fs)
    case _ => true
  }

  // ---- Code and notes side by side ----

  /** Each compound statement is annotated by its own function. */
  lemma NotesOf(s: L.Stmt, bx: Ctx)
    ensures s.Then? ==> NoteStmt(s, bx) == NoteThen(s.first, s.second, bx)
    ensures s.Blk? ==> NoteStmt(s, bx) == NoteBlk(s.body, bx)
    ensures s.If? ==> NoteStmt(s, bx) == NoteIf(s.c, s.thn, s.els, bx)
    ensures s.Forever? ==> NoteStmt(s, bx) == NoteForever(s.body, bx)
    ensures s.ForIn? ==> NoteStmt(s, bx) == NoteForIn(s.reuse, s.e, s.body, bx)
    ensures s.ForCond? ==> NoteStmt(s, bx) == NoteForCond(s.c, s.body, bx)
    ensures (s.Break? || s.Continue?) && |bx.loops| > 0 ==> NoteStmt(s, bx) == NoteUnwind(bx)
  {
    hide NoteThen, NoteBlk, NoteIf, NoteForever, NoteForIn, NoteForCond, NoteUnwind, NoteExpr, NoteExprs, Ins;
  }

  lemma {:induction false} StmtSize(s: L.Stmt, cx: Ctx, bx: Ctx, ln: Link, base: int)
    requires SameShape(cx, bx)
    ensures |NoteStmt(s, bx)| == |GenStmt(s, cx, ln, base)|
    decreases s, 1
  {
    hide GenThen, GenBlk, GenIf, GenForever, GenForIn, GenForCond, GenExpr, GenExprs, NoteExpr, NoteExprs, NoteBlk, NoteForIn,
      NoteForCond, NoteUnwind, NoteThen, NoteIf, NoteForever, Unwind, After;
    match s
    case Then(a, b) => hide NoteStmt, GenStmt; ThenSize(a, b, cx, bx, ln, base);
    case Decl(e) => ExprSize(e, bx.locals, bx.marks, ln, base);
    case Assign(_, e) => ExprSize(e, bx.locals, bx.marks, ln, base);
    case Do(_, args) => ExprsSize(args, bx.locals, bx.marks, ln, base);
    case Blk(b) => BlkSize(b, cx, bx, ln, base);
    case If(c, t, e) => hide NoteStmt, GenStmt; IfSize(c, t, e, cx, bx, ln, base);
    case Forever(b) => hide NoteStmt, GenStmt; ForeverSize(b, cx, bx, ln, base);
    case ForIn(reuse, e, b) => ForInSize(reuse, e, b, cx, bx, ln, base);
    case ForCond(c, b) => ForCondSize(c, b, cx, bx, ln, base);
    case Break => UnwindSize(cx, bx);
    case Continue => UnwindSize(cx, bx);
    case Ret(e) => ExprSize(e, bx.locals, bx.marks, ln, base);
    case _ =>
  }

  lemma UnwindSize(cx: Ctx, bx: Ctx)
    requires SameShape(cx, bx)
    ensures |cx.loops| == |bx.loops|
    ensures |cx.loops| > 0 ==> forall t :: |Unwind(cx, t)| == |NoteUnwind(bx)|
  {
    hide Unwind, ExitNotes, PopNotes;
  }

  lemma {:induction false} ThenSize(a: L.Stmt, b: L.Stmt, cx: Ctx, bx: Ctx, ln: Link, base: int)
    requires SameShape(cx, bx)
    ensures |NoteStmt(L.Then(a, b), bx)| == |GenStmt(L.Then(a, b), cx, ln, base)|
    decreases L.Then(a, b), 0
  {
    hide NoteStmt, GenStmt, SameShape, After;
    NotesOf(L.Then(a, b), bx);
    StmtCode(L.Then(a, b), cx, ln, base);
    StmtSize(a, cx, bx, ln, base);
    AfterShape(a, cx, bx);
    StmtSize(b, After(a, cx), After(a, bx), ln, base + |GenStmt(a, cx, ln, base)|);
  }

  lemma {:induction false} BlkSize(b: L.Stmt, cx: Ctx, bx: Ctx, ln: Link, base: int)
    requires SameShape(cx, bx)
    ensures |NoteBlk(b, bx)| == |GenBlk(b, cx, ln, base)|
    decreases L.Blk(b), 0
  {
    hide Braced, GenStmt, NoteStmt, After;
    StmtSize(b, Enter(cx), Enter(bx), ln, base + 1);
    AfterShape(b, Enter(cx), Enter(bx));
  }

  lemma {:induction false} IfSize(c: L.Expr, t: L.Stmt, e: L.Stmt, cx: Ctx, bx: Ctx, ln: Link, base: int)
    requires SameShape(cx, bx)
    ensures |NoteStmt(L.If(c, t, e), bx)| == |GenStmt(L.If(c, t, e), cx, ln, base)|
    decreases L.If(c, t, e), 0
  {
    hide GenExpr, NoteExpr, GenStmt, NoteStmt, SameShape, After, Branches, OneBranch;
    NotesOf(L.If(c, t, e), bx);
    StmtCode(L.If(c, t, e), cx, ln, base);
    ExprSize(c, bx.locals, bx.marks, ln, base);
    var k := base + |GenExpr(c, ln, base)| + 2;
    StmtSize(t, cx, bx, ln, k);
    ElseShape(t, cx, bx);
    if !e.Skip? {
      StmtSize(e, cx.(depth := After(t, cx).depth), bx.(depth := After(t, bx).depth), ln, k + |GenStmt(t, cx, ln, k)| + 2);
    }
  }

  lemma {:induction false} ForeverSize(b: L.Stmt, cx: Ctx, bx: Ctx, ln: Link, base: int)
    requires SameShape(cx, bx)
    ensures |NoteStmt(L.Forever(b), bx)| == |GenStmt(L.Forever(b), cx, ln, base)|
    decreases L.Forever(b), 0
  {
    hide GenStmt, NoteStmt, Endless;
    NotesOf(L.Forever(b), bx);
    StmtCode(L.Forever(b), cx, ln, base);
    var size := |GenStmt(b, InLoop(cx, 0, 0), ln, base)|;
    StmtSize(b, InLoop(cx, base + size + 2, base), InLoop(bx, 0, 0), ln, base);
  }

  lemma HeadSize(reuse: Option<nat>, e: L.Expr, bx: Ctx, ln: Link, base: int)
    ensures |NoteForHead(reuse, e, bx)| == |ForHead(reuse, e, ln, base)|
  {
    hide GenExpr, NoteExpr;
    var v := if reuse.None? then 1 else 0;
    ExprSize(e, bx.locals + v, bx.marks + [bx.locals], ln, base + 1 + 2 * v);
  }

  lemma ForCtxIs(cx: Ctx, reuse: Option<nat>)
    ensures ForCtx(cx, reuse).locals == cx.locals + (if reuse.None? then 3 else 2)
    ensures ForCtx(cx, reuse).marks == cx.marks + [cx.locals] && ForCtx(cx, reuse).loops == cx.loops
  {
  }

  lemma {:induction false} ForInSize(reuse: Option<nat>, e: L.Expr, b: L.Stmt, cx: Ctx, bx: Ctx, ln: Link, base: int)
    requires SameShape(cx, bx)
    ensures |NoteForIn(reuse, e, b, bx)| == |GenForIn(reuse, e, b, cx, ln, base)|
    decreases L.ForIn(reuse, e, b), 0
  {
    hide GenStmt, NoteStmt, ForLoop, ForHead, ForTest, ForNext, NoteForHead, NoteForTest, NoteForNext, SameShape, GenForIn, ForCtx, InLoop, LoopVar, Ins, PopNotes;
    ForInIs(reuse, e, b, cx, ln, base);
    ForCtxIs(cx, reuse);
    ForCtxIs(bx, reuse);
    HeadSize(reuse, e, bx, ln, base);
    ForCtxShape(cx, bx, reuse);
    var fx, fx' := ForCtx(cx, reuse), ForCtx(bx, reuse);
    var start := base + |ForHead(reuse, e, ln, base)| + FOR_TEST_SIZE;
    var cont := start + |GenStmt(b, InLoop(fx, 0, 0), ln, start)|;
    StmtSize(b, InLoop(fx, cont + FOR_NEXT_SIZE, cont), InLoop(fx', 0, 0), ln, start);
  }

  lemma {:induction false} ForCondSize(c: L.Expr, b: L.Stmt, cx: Ctx, bx: Ctx, ln: Link, base: int)
    requires SameShape(cx, bx)
    ensures |NoteForCond(c, b, bx)| == |GenForCond(c, b, cx, ln, base)|
    decreases L.ForCond(c, b), 0
  {
    hide GenStmt, NoteStmt, CondLoop, GenExpr, NoteExpr, After;
    ExprSize(c, bx.locals, bx.marks + [bx.locals, bx.locals], ln, base + 2);
    var start := base + 2 + |GenExpr(c, ln, base + 2)| + 2;
    AfterShape(b, CondCtx(cx, 0, 0), CondCtx(bx, 0, 0));
    var pops := After(b, CondCtx(cx, 0, 0)).locals - cx.locals;
    var cont := start + |GenStmt(b, CondCtx(cx, 0, 0), ln, start)| + pops + 1;
    StmtSize(b, CondCtx(cx, cont + 3, cont), CondCtx(bx, 0, 0), ln, start);
  }

  // ---- Runs of one instruction ----

  lemma {:induction false} ExitsClean(g: Listing, base: int, k: nat, h: int, ms: seq<nat>)
    requires Piece(g, base, Times(OP_SCOPE_EXIT, k), ExitNotes(h, ms, k)) && k <= |ms|
    requires Begins(g, base + k, h, ms[..|ms| - k])
    ensures Clean(g, base, base + k) && Begins(g, base, h, ms)
    decreases k
  {
    hide Piece, Begins, Clean;
    if k == 0 {
      assert ms[..|ms|] == ms;
      CleanNone(g, base);
    } else {
      var out := ms[..|ms| - 1];
      assert Times(OP_SCOPE_EXIT, k) == [OP_SCOPE_EXIT] + Times(OP_SCOPE_EXIT, k - 1);
      assert ExitNotes(h, ms, k) == Ins(h, ms, false, 1) + ExitNotes(h, out, k - 1) by { ExitsFirst(h, ms, k); }
      PieceSplit(g, base, [OP_SCOPE_EXIT], Times(OP_SCOPE_EXIT, k - 1), Ins(h, ms, false, 1), ExitNotes(h, out, k - 1));
      assert out[..|out| - (k - 1)] == ms[..|ms| - k];
      ExitsClean(g, base + 1, k - 1, h, out);
      BeginsGoes(g, base + 1, h, out);
      hide Goes;
      PlainClean(g, base, OP_SCOPE_EXIT, h, ms, false);
      CleanJoin(g, base, base + 1, base + k);
    }
  }

  lemma ExitsFirst(h: int, ms: seq<nat>, k: nat)
    requires 0 < k <= |ms|
    ensures ExitNotes(h, ms, k) == Ins(h, ms, false, 1) + ExitNotes(h, ms[..|ms| - 1], k - 1)
  {
    var out := ms[..|ms| - 1];
    assert ms[..|ms| - 0] == ms;
    forall i | 1 <= i < k ensures ExitNotes(h, ms, k)[i] == ExitNotes(h, out, k - 1)[i - 1] {
      assert ms[..|ms| - i] == out[..|out| - (i - 1)];
    }
  }

  lemma {:induction false} PopsClean(g: Listing, base: int, k: nat, h: int, ms: seq<nat>)
    requires Piece(g, base, Times(OP_POP, k), PopNotes(h, ms, k)) && k <= h
    requires Begins(g, base + k, h - k, ms)
    ensures Clean(g, base, base + k) && Begins(g, base, h, ms)
    decreases k
  {
    hide Piece, Begins, Clean;
    if k == 0 {
      CleanNone(g, base);
    } else {
      assert Times(OP_POP, k) == [OP_POP] + Times(OP_POP, k - 1);
      assert PopNotes(h, ms, k) == Ins(h, ms, false, 1) + PopNotes(h - 1, ms, k - 1);
      PieceSplit(g, base, [OP_POP], Times(OP_POP, k - 1), Ins(h, ms, false, 1), PopNotes(h - 1, ms, k - 1));
      PopsClean(g, base + 1, k - 1, h - 1, ms);
      BeginsGoes(g, base + 1, h - 1, ms);
      hide Goes;
      PlainClean(g, base, OP_POP, h, ms, false);
      CleanJoin(g, base, base + 1, base + k);
    }
  }

  // ---- Statements ----

  /** The statement with its code and notes in place, and what follows it agreeing. */
  ghost predicate Laid(g: Listing, s: L.Stmt, cx: Ctx, bx: Ctx, base: int) {
    && Listed(g) && SameShape(cx, bx) && LoopGoes(g, cx) && Ascending(cx)
    && Formed(s, cx) && StmtPooled(s, g.p.consts) && StmtBound(s, cx, g.fs, g.tame)
    && Piece(g, base, GenStmt(s, cx, g.ln, base), NoteStmt(s, bx))
    && Begins(g, base + |GenStmt(s, cx, g.ln, base)|, After(s, cx).locals, cx.marks)
  }

  ghost predicate Agrees(g: Listing, s: L.Stmt, cx: Ctx, base: int) {
    Clean(g, base, base + |GenStmt(s, cx, g.ln, base)|) && Begins(g, base, cx.locals, cx.marks)
  }

  /** Inside the statement every path agrees. */
  lemma {:induction false} StmtAgrees(g: Listing, s: L.Stmt, cx: Ctx, bx: Ctx, base: int)
    requires Laid(g, s, cx, bx, base)
    ensures Agrees(g, s, cx, base)
    decreases s, 3
  {
    hide Laid, Agrees;
    match s
    case Skip => SkipAgrees(g, cx, bx, base);
    case Then(a, b) => ThenAgrees(g, a, b, cx, bx, base);
    case Decl(e) => DeclAgrees(g, e, cx, bx, base);
    case Assign(x, e) => AssignAgrees(g, x, e, cx, bx, base);
    case Do(f, args) => DoAgrees(g, f, args, cx, bx, base);
    case Blk(b) => BlkAgrees(g, b, cx, bx, base);
    case If(c, t, e) => IfAgrees(g, c, t, e, cx, bx, base);
    case Forever(b) => ForeverAgrees(g, b, cx, bx, base);
    case ForIn(reuse, e, b) => ForInAgrees(g, reuse, e, b, cx, bx, base);
    case ForCond(c, b) => ForCondAgrees(g, c, b, cx, bx, base);
    case Break => UnwindAgrees(g, s, cx, bx, base);
    case Continue => UnwindAgrees(g, s, cx, bx, base);
    case Ret(e) => RetAgrees(g, e, cx, bx, base);
  }

  lemma SkipAgrees(g: Listing, cx: Ctx, bx: Ctx, base: int)
    requires Laid(g, L.Skip, cx, bx, base)
    ensures Agrees(g, L.Skip, cx, base)
  {
    hide SameShape, Piece;
  }

  lemma DeclAgrees(g: Listing, e: L.Expr, cx: Ctx, bx: Ctx, base: int)
    requires Laid(g, L.Decl(e), cx, bx, base)
    ensures Agrees(g, L.Decl(e), cx, base)
  {
    hide Piece, Clean, Begins, Goes, GenExpr, NoteExpr, Bound, Pooled, Listed;
    ExprCleanHere(g, e, base, cx.locals, cx.locals, cx.marks);
  }

  lemma AssignAgrees(g: Listing, x: nat, e: L.Expr, cx: Ctx, bx: Ctx, base: int)
    requires Laid(g, L.Assign(x, e), cx, bx, base)
    ensures Agrees(g, L.Assign(x, e), cx, base)
  {
    hide Piece, Clean, Begins, Goes, GenExpr, NoteExpr, Bound, Pooled, Listed, Mild;
    var c, n, ms := GenExpr(e, g.ln, base), cx.locals, cx.marks;
    var end := base + |c|;
    ExprSize(e, n, ms, g.ln, base);
    PieceSplit(g, base, c, [OP_SVAR, x], NoteExpr(e, n, ms), Ins(n + 1, ms, Mild(e), 2));
    BeginsGoes(g, end + 2, n, ms);
    ArgClean(g, end, OP_SVAR, x, n + 1, ms, Mild(e));
    ExprClean(g, e, base, n, n, ms);
    CleanJoin(g, base, end, end + 2);
  }

  lemma RetAgrees(g: Listing, e: L.Expr, cx: Ctx, bx: Ctx, base: int)
    requires Laid(g, L.Ret(e), cx, bx, base)
    ensures Agrees(g, L.Ret(e), cx, base)
  {
    hide Piece, Clean, Begins, Goes, GenExpr, NoteExpr, Bound, Pooled, Listed;
    var c, n, ms := GenExpr(e, g.ln, base), cx.locals, cx.marks;
    var end := base + |c|;
    ExprSize(e, n, ms, g.ln, base);
    PieceSplit(g, base, c, [OP_RET], NoteExpr(e, n, ms), Ins(n + 1, ms, false, 1));
    PlainClean(g, end, OP_RET, n + 1, ms, false);
    ExprCleanHere(g, e, base, n, n, ms);
    CleanJoin(g, base, end, end + 1);
  }

  lemma DoAgrees(g: Listing, f: nat, args: seq<L.Expr>, cx: Ctx, bx: Ctx, base: int)
    requires Laid(g, L.Do(f, args), cx, bx, base)
    ensures Agrees(g, L.Do(f, args), cx, base)
  {
    hide Piece, Clean, Begins, Goes, GenExprs, NoteExprs, AllBound, AllPooled;
    var c, n, ms := GenExprs(args, g.ln, base), cx.locals, cx.marks;
    var end := base + |c|;
    ExprsSize(args, n, ms, g.ln, base);
    ThreePieces(g, base, c, [OP_CALL, FuncAddr(f, g.ln), |args|], [OP_POP],
                NoteExprs(args, n, ms), Ins(n + |args|, ms, false, 3), Ins(n + 1, ms, false, 1));
    BeginsGoes(g, end + 4, n, ms);
    PlainClean(g, end + 3, OP_POP, n + 1, ms, false);
    CallClean(g, end, FuncAddr(f, g.ln), |args|, n + |args|, ms);
    ExprsClean(g, args, base, n, n, ms);
    CleanJoin(g, base, end, end + 3);
    CleanJoin(g, base, end + 3, end + 4);
  }

  lemma {:induction false} ThenAgrees(g: Listing, a: L.Stmt, b: L.Stmt, cx: Ctx, bx: Ctx, base: int)
    requires Laid(g, L.Then(a, b), cx, bx, base)
    ensures Agrees(g, L.Then(a, b), cx, base)
    decreases L.Then(a, b), 0
  {
    hide Piece, Clean, Begins, GenStmt, NoteStmt, SameShape, LoopGoes, Listed, After;
    StmtCode(L.Then(a, b), cx, g.ln, base);
    NotesOf(L.Then(a, b), bx);
    ThenParts(a, b, cx, g.fs, g.p.consts, g.tame);
    hide Formed, StmtPooled, StmtBound;
    var ca := GenStmt(a, cx, g.ln, base);
    var mid := base + |ca|;
    StmtSize(a, cx, bx, g.ln, base);
    PieceSplit(g, base, ca, GenStmt(b, After(a, cx), g.ln, mid), NoteStmt(a, bx), NoteStmt(b, After(a, bx)));
    AfterShape(a, cx, bx);
    LoopGoesOn(g, cx, After(a, cx));
    AscendingOn(cx, After(a, cx));
    StmtAgrees(g, b, After(a, cx), After(a, bx), mid);
    StmtAgrees(g, a, cx, bx, base);
    CleanJoin(g, base, mid, mid + |GenStmt(b, After(a, cx), g.ln, mid)|);
  }

  lemma ThenParts(a: L.Stmt, b: L.Stmt, cx: Ctx, fs: seq<L.Func>, consts: seq<int>, tame: bool)
    requires Formed(L.Then(a, b), cx) && StmtPooled(L.Then(a, b), consts) && StmtBound(L.Then(a, b), cx, fs, tame)
    ensures Formed(a, cx) && StmtPooled(a, consts) && StmtBound(a, cx, fs, tame)
    ensures Formed(b, After(a, cx)) && StmtPooled(b, consts) && StmtBound(b, After(a, cx), fs, tame)
    ensures After(L.Then(a, b), cx).locals == After(b, After(a, cx)).locals
  {
    hide After;
    ThenLocals(a, b, cx);
  }

  lemma ThenLocals(a: L.Stmt, b: L.Stmt, cx: Ctx)
    ensures After(L.Then(a, b), cx).locals == After(b, After(a, cx)).locals
  {
  }

  /** The loops and scopes are what matters to the targets. */
  lemma LoopGoesOn(g: Listing, cx: Ctx, cx': Ctx)
    requires LoopGoes(g, cx) && cx'.loops == cx.loops && cx.marks <= cx'.marks
    ensures LoopGoes(g, cx')
  {
    hide Begins;
    if |cx.loops| > 0 {
      var l := cx.loops[|cx.loops| - 1];
      assert cx'.marks[..l.open] == cx.marks[..l.open];
    }
  }

  lemma UnwindAgrees(g: Listing, s: L.Stmt, cx: Ctx, bx: Ctx, base: int)
    requires Laid(g, s, cx, bx, base) && (s.Break? || s.Continue?)
    ensures Agrees(g, s, cx, base)
  {
    hide Piece, Clean, Begins, Times, ExitNotes, PopNotes;
    var l := cx.loops[|cx.loops| - 1];
    var target := if s.Break? then l.brk else l.cont;
    var k, m, out := cx.depth - l.depth, cx.locals - l.locals, cx.marks[..l.open];
    NotesOf(s, bx);
    var p := base + k;
    assert bx.loops[|bx.loops| - 1].open == l.open;
    ThreePieces(g, base, Times(OP_SCOPE_EXIT, k), Times(OP_POP, m), [OP_JMP, target],
                ExitNotes(cx.locals, cx.marks, k), PopNotes(cx.locals, out, m), Ins(l.locals, out, false, 2));
    BeginsGoes(g, target, l.locals, out);
    hide Goes;
    JumpClean(g, p + m, target, l.locals, out);
    PopsClean(g, p, m, cx.locals, out);
    assert cx.marks[..|cx.marks| - k] == out;
    ExitsClean(g, base, k, cx.locals, cx.marks);
    CleanJoin(g, base, p, p + m);
    CleanJoin(g, base, p + m, p + m + 2);
  }

  lemma JumpClean(g: Listing, base: int, target: int, h: int, ms: seq<nat>)
    requires Piece(g, base, [OP_JMP, target], Ins(h, ms, false, 2)) && Goes(g, target, h, ms, false)
    ensures Clean(g, base, base + 2) && Begins(g, base, h, ms)
  {
    hide Piece, Goes;
    ArgClean(g, base, OP_JMP, target, h, ms, false);
  }

  lemma {:induction false} BlkAgrees(g: Listing, b: L.Stmt, cx: Ctx, bx: Ctx, base: int)
    requires Laid(g, L.Blk(b), cx, bx, base)
    ensures Agrees(g, L.Blk(b), cx, base)
    decreases L.Blk(b), 0
  {
    hide Piece, Clean, Begins, GenStmt, NoteStmt, SameShape, LoopGoes, Listed, After, Times, PopNotes, Goes;
    StmtCode(L.Blk(b), cx, g.ln, base);
    NotesOf(L.Blk(b), bx);
    BlkParts(b, cx, bx, g.fs, g.p.consts, g.tame);
    hide Formed, StmtPooled, StmtBound;
    var ex, n, ms := Enter(cx), cx.locals, cx.marks + [cx.locals];
    var c, pops := GenStmt(b, ex, g.ln, base + 1), After(b, ex).locals - n;
    var k := base + 1 + |c|;
    StmtSize(b, ex, Enter(bx), g.ln, base + 1);
    PieceSplit(g, base, [OP_SCOPE_ENTER] + c + Times(OP_POP, pops), [OP_SCOPE_EXIT],
               Ins(n, cx.marks, false, 1) + NoteStmt(b, Enter(bx)) + PopNotes(n + pops, ms, pops), Ins(n, ms, false, 1));
    ThreePieces(g, base, [OP_SCOPE_ENTER], c, Times(OP_POP, pops), Ins(n, cx.marks, false, 1), NoteStmt(b, Enter(bx)), PopNotes(n + pops, ms, pops));
    BeginsGoes(g, k + pops + 1, n, cx.marks);
    ExitClean(g, k + pops, n, cx.marks, n);
    PopsClean(g, k, pops, n + pops, ms);
    LoopGoesOn(g, cx, ex);
    AscendingOn(cx, ex);
    StmtAgrees(g, b, ex, Enter(bx), base + 1);
    EnterClean(g, base, n, cx.marks);
    CleanJoin(g, base, base + 1, k);
    CleanJoin(g, base, k, k + pops);
    CleanJoin(g, base, k + pops, k + pops + 1);
  }

  lemma ExitClean(g: Listing, base: int, h: int, ms: seq<nat>, n: nat)
    requires Piece(g, base, [OP_SCOPE_EXIT], Ins(h, ms + [n], false, 1)) && Begins(g, base + 1, h, ms)
    ensures Clean(g, base, base + 1) && Begins(g, base, h, ms + [n])
  {
    hide Piece;
    assert (ms + [n])[..|ms + [n]| - 1] == ms;
    PlainClean(g, base, OP_SCOPE_EXIT, h, ms + [n], false);
  }

  lemma EnterClean(g: Listing, base: int, h: nat, ms: seq<nat>)
    requires Piece(g, base, [OP_SCOPE_ENTER], Ins(h, ms, false, 1)) && Begins(g, base + 1, h, ms + [h])
    ensures Clean(g, base, base + 1) && Begins(g, base, h, ms)
  {
    hide Piece;
    PlainClean(g, base, OP_SCOPE_ENTER, h, ms, false);
  }

  lemma BlkParts(b: L.Stmt, cx: Ctx, bx: Ctx, fs: seq<L.Func>, consts: seq<int>, tame: bool)
    requires SameShape(cx, bx) && Formed(L.Blk(b), cx) && StmtPooled(L.Blk(b), consts) && StmtBound(L.Blk(b), cx, fs, tame)
    ensures Formed(b, Enter(cx)) && StmtPooled(b, consts) && StmtBound(b, Enter(cx), fs, tame)
    ensures SameShape(Enter(cx), Enter(bx)) && After(b, Enter(cx)).locals == After(b, Enter(bx)).locals
    ensures bx.locals == cx.locals && bx.marks == cx.marks && After(L.Blk(b), cx).locals == cx.locals
  {
    AfterShape(b, Enter(cx), Enter(bx));
    hide Formed, StmtPooled, StmtBound;
  }

  /** A failed condition and the end of the first branch meet what follows at the same point. */
  lemma {:induction false} IfAgrees(g: Listing, c: L.Expr, t: L.Stmt, e: L.Stmt, cx: Ctx, bx: Ctx, base: int)
    requires Laid(g, L.If(c, t, e), cx, bx, base)
    ensures Agrees(g, L.If(c, t, e), cx, base)
    decreases L.If(c, t, e), 2
  {
    hide Piece, Clean, Begins, GenStmt, NoteStmt, GenExpr, NoteExpr, SameShape, LoopGoes, Listed, After, Goes;
    StmtCode(L.If(c, t, e), cx, g.ln, base);
    NotesOf(L.If(c, t, e), bx);
    IfParts(c, t, e, cx, bx, g.fs, g.p.consts, g.tame);
    hide Formed, StmtPooled, StmtBound, Bound, Pooled;
    var cc, n, ms := GenExpr(c, g.ln, base), cx.locals, cx.marks;
    var k := base + |cc| + 2;
    var ct := GenStmt(t, cx, g.ln, k);
    var els := k + |ct|;
    var nc, nt, j := NoteExpr(c, n, ms), NoteStmt(t, bx), Ins(n + 1, ms, false, 2);
    ExprSize(c, n, ms, g.ln, base);
    StmtSize(t, cx, bx, g.ln, k);
    if e.Skip? {
      assert nc + j + nt + [] == nc + j + nt;
      ThreePieces(g, base, cc, [OP_JZ, els], ct, nc, j, nt);
      ArmAgrees(g, c, t, cx, bx, base, els);
    } else {
      var ex, fx := cx.(depth := After(t, cx).depth), bx.(depth := After(t, bx).depth);
      var ce, j2 := GenStmt(e, ex, g.ln, els + 2), Ins(n, ms, false, 2);
      var end := els + 2 + |ce|;
      assert nc + j + nt + (j2 + NoteStmt(e, fx)) == nc + j + nt + j2 + NoteStmt(e, fx);
      FivePieces(g, base, cc, [OP_JZ, els + 2], ct, [OP_JMP, end], ce, nc, j, nt, j2, NoteStmt(e, fx));
      LoopGoesOn(g, cx, ex);
      StmtAgrees(g, e, ex, fx, els + 2);
      BeginsGoes(g, end, n, ms);
      JumpClean(g, els, end, n, ms);
      ArmAgrees(g, c, t, cx, bx, base, els + 2);
      CleanJoin(g, base, els, els + 2);
      CleanJoin(g, base, els + 2, end);
    }
  }

  /** The condition, the jump over the branch, and the branch. */
  lemma {:induction false} ArmAgrees(g: Listing, c: L.Expr, t: L.Stmt, cx: Ctx, bx: Ctx, base: int, target: int)
    requires Listed(g) && SameShape(cx, bx) && LoopGoes(g, cx) && Ascending(cx)
    requires Bound(c, cx.locals, g.fs) && Pooled(c, g.p.consts)
    requires Formed(t, cx) && StmtPooled(t, g.p.consts) && StmtBound(t, cx, g.fs, g.tame) && After(t, cx).locals == cx.locals
    requires Piece(g, base, GenExpr(c, g.ln, base), NoteExpr(c, cx.locals, cx.marks))
    requires var k := base + |GenExpr(c, g.ln, base)|;
      && Piece(g, k, [OP_JZ, target], Ins(cx.locals + 1, cx.marks, false, 2))
      && Piece(g, k + 2, GenStmt(t, cx, g.ln, k + 2), NoteStmt(t, bx))
      && Begins(g, k + 2 + |GenStmt(t, cx, g.ln, k + 2)|, cx.locals, cx.marks)
    requires Begins(g, target, cx.locals, cx.marks)
    ensures var k := base + |GenExpr(c, g.ln, base)|;
      Clean(g, base, k + 2 + |GenStmt(t, cx, g.ln, k + 2)|) && Begins(g, base, cx.locals, cx.marks)
    decreases t, 4
  {
    hide Piece, Clean, Begins, GenStmt, NoteStmt, GenExpr, NoteExpr, SameShape, LoopGoes, Listed, After, Goes,
      Formed, StmtPooled, StmtBound, Bound, Pooled;
    var n, ms := cx.locals, cx.marks;
    var k := base + |GenExpr(c, g.ln, base)|;
    var els := k + 2 + |GenStmt(t, cx, g.ln, k + 2)|;
    StmtAgrees(g, t, cx, bx, k + 2);
    BeginsGoes(g, k + 2, n, ms);
    BeginsGoes(g, target, n, ms);
    BranchClean(g, k, target, n, ms);
    ExprCleanHere(g, c, base, n, n, ms);
    CleanJoin(g, base, k, k + 2);
    CleanJoin(g, base, k + 2, els);
  }

  lemma BranchClean(g: Listing, base: int, target: int, h: nat, ms: seq<nat>)
    requires Piece(g, base, [OP_JZ, target], Ins(h + 1, ms, false, 2)) && Goes(g, base + 2, h, ms, false) && Goes(g, target, h, ms, false)
    ensures Clean(g, base, base + 2) && Begins(g, base, h + 1, ms)
  {
    hide Piece, Goes;
    ArgClean(g, base, OP_JZ, target, h + 1, ms, false);
  }

  lemma IfParts(c: L.Expr, t: L.Stmt, e: L.Stmt, cx: Ctx, bx: Ctx, fs: seq<L.Func>, consts: seq<int>, tame: bool)
    requires SameShape(cx, bx) && Formed(L.If(c, t, e), cx) && StmtPooled(L.If(c, t, e), consts) && StmtBound(L.If(c, t, e), cx, fs, tame)
    ensures Bound(c, cx.locals, fs) && Pooled(c, consts) && bx.locals == cx.locals && bx.marks == cx.marks
    ensures Formed(t, cx) && StmtPooled(t, consts) && StmtBound(t, cx, fs, tame) && After(t, cx).locals == cx.locals
    ensures var ex, fx := cx.(depth := After(t, cx).depth), bx.(depth := After(t, bx).depth);
      && Formed(e, ex) && StmtPooled(e, consts) && StmtBound(e, ex, fs, tame) && SameShape(ex, fx) && After(e, ex).locals == cx.locals
      && After(L.If(c, t, e), cx).locals == cx.locals
  {
    hide Pooled, Bound;
    ElseShape(t, cx, bx);
    BranchLocals(t, cx);
    IfLocals(c, t, e, cx);
    ChainLocals(e, cx.(depth := After(t, cx).depth));
  }

  lemma BranchLocals(t: L.Stmt, cx: Ctx)
    requires t.Blk? || t.Skip?
    ensures After(t, cx).locals == cx.locals
  {
  }

  lemma IfLocals(c: L.Expr, t: L.Stmt, e: L.Stmt, cx: Ctx)
    ensures After(L.If(c, t, e), cx).locals == After(e, cx.(depth := After(t, cx).depth)).locals
  {
  }

  lemma {:induction false} ChainLocals(e: L.Stmt, cx: Ctx)
    requires Formed(e, cx) && (e.Skip? || e.Blk? || e.If?)
    ensures After(e, cx).locals == cx.locals
    decreases e
  {
    if e.If? {
      IfLocals(e.c, e.thn, e.els, cx);
      ChainLocals(e.els, cx.(depth := After(e.thn, cx).depth));
    }
  }

  lemma {:induction false} ForeverAgrees(g: Listing, b: L.Stmt, cx: Ctx, bx: Ctx, base: int)
    requires Laid(g, L.Forever(b), cx, bx, base)
    ensures Agrees(g, L.Forever(b), cx, base)
    decreases L.Forever(b), 0
  {
    hide Piece, Clean, Begins, GenStmt, NoteStmt, SameShape, Listed, After, Goes;
    StmtCode(L.Forever(b), cx, g.ln, base);
    NotesOf(L.Forever(b), bx);
    ForeverParts(b, cx, bx, g.fs, g.p.consts, g.tame);
    hide Formed, StmtPooled, StmtBound;
    var n, ms := cx.locals, cx.marks;
    var brk := base + |GenStmt(b, InLoop(cx, 0, 0), g.ln, base)| + 2;
    var lx, lx' := InLoop(cx, brk, base), InLoop(bx, 0, 0);
    LoopShapes(cx, bx, brk, base);
    BodyFits(b, cx, bx, brk, base, g.fs, g.tame);
    var c := GenStmt(b, lx, g.ln, base);
    StmtSize(b, lx, lx', g.ln, base);
    StmtSize(b, InLoop(cx, 0, 0), lx', g.ln, base);
    PieceSplit(g, base, c, [OP_JMP, base], NoteStmt(b, lx'), Ins(n, ms, false, 2));
    BodyBegins(g, b, lx, lx', base);
    BeginsGoes(g, base, n, ms);
    JumpClean(g, base + |c|, base, n, ms);
    LoopHere(g, cx, brk, base);
    AscendingOn(cx, lx);
    StmtAgrees(g, b, lx, lx', base);
    CleanJoin(g, base, base + |c|, brk);
  }

  /** A loop's targets, seen from its body. */
  lemma LoopHere(g: Listing, cx: Ctx, brk: int, cont: int)
    requires Begins(g, brk, cx.locals, cx.marks) && Begins(g, cont, cx.locals, cx.marks)
    ensures LoopGoes(g, InLoop(cx, brk, cont))
  {
    hide Begins;
    assert cx.marks[..|cx.marks|] == cx.marks;
  }

  /** The code of a block starts where the block does. */
  lemma BodyBegins(g: Listing, b: L.Stmt, cx: Ctx, bx: Ctx, base: int)
    requires b.Blk? && SameShape(cx, bx) && Piece(g, base, GenStmt(b, cx, g.ln, base), NoteStmt(b, bx))
    ensures Begins(g, base, cx.locals, cx.marks)
  {
    hide GenStmt;
    assert NoteStmt(b, bx)[0] == Spot(bx.locals, bx.marks, false) by { BlkFirst(b, bx); }
    assert |NoteStmt(b, bx)| > 0 by { BlkFirst(b, bx); }
    hide NoteStmt;
    assert g.notes[base - g.addr + 0] == NoteStmt(b, bx)[0];
  }

  lemma BlkFirst(b: L.Stmt, bx: Ctx)
    requires b.Blk?
    ensures |NoteStmt(b, bx)| > 0 && NoteStmt(b, bx)[0] == Spot(bx.locals, bx.marks, false)
  {
    hide After;
    NotesOf(b, bx);
  }

  lemma LoopShapes(cx: Ctx, bx: Ctx, brk: int, cont: int)
    requires SameShape(cx, bx)
    ensures SameShape(InLoop(cx, brk, cont), InLoop(bx, 0, 0)) && SameShape(InLoop(cx, 0, 0), InLoop(bx, 0, 0))
    ensures SameShape(InLoop(cx, 0, 0), InLoop(cx, brk, cont)) && bx.locals == cx.locals && bx.marks == cx.marks
  {
  }

  /** Forming and binding do not depend on where the loop's jumps go. */
  lemma BodyFits(b: L.Stmt, cx: Ctx, bx: Ctx, brk: int, cont: int, fs: seq<L.Func>, tame: bool)
    requires b.Blk? && Formed(b, InLoop(cx, 0, 0)) && StmtBound(b, InLoop(cx, 0, 0), fs, tame)
    ensures Formed(b, InLoop(cx, brk, cont)) && StmtBound(b, InLoop(cx, brk, cont), fs, tame)
    ensures After(b, InLoop(cx, brk, cont)).locals == cx.locals
  {
    hide Formed, StmtBound;
    LoopShapes(cx, cx, brk, cont) by { SelfShape(cx); }
    FormedShape(b, InLoop(cx, 0, 0), InLoop(cx, brk, cont));
    BoundShape(b, InLoop(cx, 0, 0), InLoop(cx, brk, cont), fs, tame);
    BranchLocals(b, InLoop(cx, brk, cont));
  }

  lemma SelfShape(cx: Ctx)
    ensures SameShape(cx, cx)
  {
  }

  lemma {:induction false} BoundShape(s: L.Stmt, cx: Ctx, cx': Ctx, fs: seq<L.Func>, tame: bool)
    requires SameShape(cx, cx') && StmtBound(s, cx, fs, tame)
    ensures StmtBound(s, cx', fs, tame)
    decreases s
  {
    hide Bound, AllBound;
    match s
    case Then(a, b) =>
      BoundShape(a, cx, cx', fs, tame);
      AfterShape(a, cx, cx');
      BoundShape(b, After(a, cx), After(a, cx'), fs, tame);
    case Blk(b) => BoundShape(b, Enter(cx), Enter(cx'), fs, tame);
    case If(_, t, e) =>
      BoundShape(t, cx, cx', fs, tame);
      AfterShape(t, cx, cx');
      BoundShape(e, cx.(depth := After(t, cx).depth), cx'.(depth := After(t, cx').depth), fs, tame);
    case Forever(b) => BoundShape(b, InLoop(cx, 0, 0), InLoop(cx', 0, 0), fs, tame);
    case ForIn(reuse, _, b) => BoundShape(b, InLoop(ForCtx(cx, reuse), 0, 0), InLoop(ForCtx(cx', reuse), 0, 0), fs, tame);
    case ForCond(_, b) => BoundShape(b, CondCtx(cx, 0, 0), CondCtx(cx', 0, 0), fs, tame);
    case _ =>
  }

  lemma ForeverParts(b: L.Stmt, cx: Ctx, bx: Ctx, fs: seq<L.Func>, consts: seq<int>, tame: bool)
    requires SameShape(cx, bx) && Formed(L.Forever(b), cx) && StmtPooled(L.Forever(b), consts) && StmtBound(L.Forever(b), cx, fs, tame)
    ensures b.Blk? && Formed(b, InLoop(cx, 0, 0)) && StmtPooled(b, consts) && StmtBound(b, InLoop(cx, 0, 0), fs, tame)
    ensures bx.locals == cx.locals && bx.marks == cx.marks && After(L.Forever(b), cx).locals == cx.locals
  {
  }

  // ---- for (x in e) ----

  lemma {:induction false} ForInAgrees(g: Listing, reuse: Option<nat>, e: L.Expr, b: L.Stmt, cx: Ctx, bx: Ctx, base: int)
    requires Laid(g, L.ForIn(reuse, e, b), cx, bx, base)
    ensures Agrees(g, L.ForIn(reuse, e, b), cx, base)
    decreases L.ForIn(reuse, e, b), 1
  {
    hide Piece, Clean, Begins, GenStmt, NoteStmt, SameShape, Listed, After, Goes, GenForIn, ForHead, ForTest, ForNext, NoteForHead,
      NoteForTest, NoteForNext, Times, PopNotes, InLoop, ForCtx, LoopVar;
    StmtCode(L.ForIn(reuse, e, b), cx, g.ln, base);
    NotesOf(L.ForIn(reuse, e, b), bx);
    ForInIs(reuse, e, b, cx, g.ln, base);
    ForInParts(reuse, e, b, cx, bx, g.fs, g.p.consts, g.tame);
    hide Formed, StmtPooled, StmtBound;
    var n, head := cx.locals, ForHead(reuse, e, g.ln, base);
    var fx, fx' := ForCtx(cx, reuse), ForCtx(bx, reuse);
    var loop := base + |head|;
    var start := loop + FOR_TEST_SIZE;
    var cont := start + |GenStmt(b, InLoop(fx, 0, 0), g.ln, start)|;
    var brk := cont + FOR_NEXT_SIZE;
    var lx, lx' := InLoop(fx, brk, cont), InLoop(fx', 0, 0);
    var pops, end := fx.locals - n, brk + (fx.locals - n);
    LoopShapes(fx, fx', brk, cont);
    BodyFits(b, fx, fx', brk, cont, g.fs, g.tame);
    HeadSize(reuse, e, bx, g.ln, base);
    StmtSize(b, lx, lx', g.ln, start);
    StmtSize(b, InLoop(fx, 0, 0), lx', g.ln, start);
    var test, next := ForTest(fx.locals, LoopVar(reuse, cx), brk), ForNext(fx.locals, loop, g.ln);
    PieceSplit(g, base, head + test + GenStmt(b, lx, g.ln, start) + next + Times(OP_POP, pops), [OP_SCOPE_EXIT],
      NoteForHead(reuse, e, bx) + NoteForTest(fx.locals, fx.marks) + NoteStmt(b, lx') + NoteForNext(fx.locals, fx.marks)
      + PopNotes(fx.locals, fx.marks, pops), Ins(n, fx.marks, false, 1));
    FivePieces(g, base, head, test, GenStmt(b, lx, g.ln, start), next, Times(OP_POP, pops), NoteForHead(reuse, e, bx),
      NoteForTest(fx.locals, fx.marks), NoteStmt(b, lx'), NoteForNext(fx.locals, fx.marks), PopNotes(fx.locals, fx.marks, pops));
    ExitClean(g, end, n, cx.marks, n);
    PopsClean(g, brk, pops, fx.locals, fx.marks);
    AscendingOn(cx, fx);
    IterationClean(g, b, fx, fx', loop, start, cont, brk, LoopVar(reuse, cx));
    HeadClean(g, reuse, e, cx, bx, base);
    CleanJoin(g, base, loop, brk);
    CleanJoin(g, base, brk, end);
    CleanJoin(g, base, end, end + 1);
  }

  lemma ForInParts(reuse: Option<nat>, e: L.Expr, b: L.Stmt, cx: Ctx, bx: Ctx, fs: seq<L.Func>, consts: seq<int>, tame: bool)
    requires var s := L.ForIn(reuse, e, b); SameShape(cx, bx) && Formed(s, cx) && StmtPooled(s, consts) && StmtBound(s, cx, fs, tame)
    ensures b.Blk? && bx.locals == cx.locals && bx.marks == cx.marks
    ensures Bound(e, cx.locals + (if reuse.None? then 1 else 0), fs) && Pooled(e, consts) && 0 in consts && 1 in consts
    ensures var fx, fx' := ForCtx(cx, reuse), ForCtx(bx, reuse);
      && SameShape(fx, fx') && fx.marks == fx'.marks == cx.marks + [cx.locals] && fx.locals == fx'.locals
      && fx.locals == cx.locals + (if reuse.None? then 3 else 2) && LoopVar(reuse, cx) < fx.locals
      && (tame ==> !OutlivesTwo(LoopVar(reuse, cx), fx.marks))
      && Formed(b, InLoop(fx, 0, 0)) && StmtPooled(b, consts) && StmtBound(b, InLoop(fx, 0, 0), fs, tame)
    ensures After(L.ForIn(reuse, e, b), cx).locals == cx.locals
  {
    hide Bound, Pooled, InLoop;
  }

  /** The test, the body and the step of one iteration, with the jumps back and out. */
  lemma {:induction false} IterationClean(g: Listing, b: L.Stmt, fx: Ctx, fx': Ctx, loop: int, start: int, cont: int, brk: int, x: nat)
    requires Listed(g) && 1 in g.p.consts && SameShape(fx, fx') && fx.locals >= 2 && x < fx.locals
    requires Ascending(fx) && (g.tame ==> !OutlivesTwo(x, fx.marks))
    requires b.Blk? && Formed(b, InLoop(fx, brk, cont)) && StmtPooled(b, g.p.consts) && StmtBound(b, InLoop(fx, brk, cont), g.fs, g.tame)
    requires After(b, InLoop(fx, brk, cont)).locals == fx.locals && SameShape(InLoop(fx, brk, cont), InLoop(fx', 0, 0))
    requires start == loop + FOR_TEST_SIZE && brk == cont + FOR_NEXT_SIZE
    requires cont == start + |GenStmt(b, InLoop(fx, brk, cont), g.ln, start)|
    requires Piece(g, loop, ForTest(fx.locals, x, brk), NoteForTest(fx.locals, fx.marks))
    requires Piece(g, start, GenStmt(b, InLoop(fx, brk, cont), g.ln, start), NoteStmt(b, InLoop(fx', 0, 0)))
    requires Piece(g, cont, ForNext(fx.locals, loop, g.ln), NoteForNext(fx.locals, fx.marks))
    requires Begins(g, brk, fx.locals, fx.marks)
    ensures Clean(g, loop, brk) && Begins(g, loop, fx.locals, fx.marks)
    decreases b, 4
  {
    hide Piece, Clean, Begins, GenStmt, NoteStmt, SameShape, Listed, After, ForTest, ForNext, NoteForTest, NoteForNext, Formed,
      StmtPooled, StmtBound;
    TestBegins(g, loop, fx.locals, x, brk, fx.marks);
    NextClean(g, cont, fx.locals, loop, fx.marks);
    LoopHere(g, fx, brk, cont);
    AscendingOn(fx, InLoop(fx, brk, cont));
    StmtAgrees(g, b, InLoop(fx, brk, cont), InLoop(fx', 0, 0), start);
    TestClean(g, loop, fx.locals, x, brk, fx.marks);
    CleanJoin(g, loop, start, cont);
    CleanJoin(g, loop, cont, brk);
  }

  lemma TestBegins(g: Listing, base: int, n: nat, x: nat, exit: int, ms: seq<nat>)
    requires n >= 2 && Piece(g, base, ForTest(n, x, exit), NoteForTest(n, ms))
    ensures Begins(g, base, n, ms)
  {
    hide ForTest;
    assert NoteForTest(n, ms)[0] == Spot(n, ms, false);
    assert g.notes[base - g.addr + 0] == NoteForTest(n, ms)[0];
  }

  lemma TestClean(g: Listing, base: int, n: nat, x: nat, exit: int, ms: seq<nat>)
    requires n >= 2 && x < n && Piece(g, base, ForTest(n, x, exit), NoteForTest(n, ms))
    requires Begins(g, base + FOR_TEST_SIZE, n, ms) && Begins(g, exit, n, ms) && Sorted(ms) && (g.tame ==> !OutlivesTwo(x, ms))
    ensures Clean(g, base, base + FOR_TEST_SIZE)
  {
    hide Piece, Clean, Begins, Ins, Goes;
    var i, a := [OP_LVAR, n - 1], [OP_LVAR, n - 2];
    var n0, n1, m1, n2 := Ins(n, ms, false, 2), Ins(n + 1, ms, false, 2), Ins(n + 2, ms, false, 1), Ins(n + 1, ms, false, 2);
    FivePieces(g, base, i + a + [OP_ALEN] + [OP_LT] + [OP_JZ, exit], a, i, [OP_IT_DEF], [OP_SVAR, x], n0 + n1 + m1 + m1 + n2, n0, n1, m1, n2);
    FivePieces(g, base, i, a, [OP_ALEN], [OP_LT], [OP_JZ, exit], n0, n1, m1, m1, n2);
    ElementClean(g, base + 8, n, x, ms);
    LengthClean(g, base, n, exit, ms);
    CleanJoin(g, base, base + 8, base + 15);
  }

  /** The element at the position goes to the loop variable. */
  lemma ElementClean(g: Listing, base: int, n: nat, x: nat, ms: seq<nat>)
    requires n >= 2 && x < n && Begins(g, base + 7, n, ms) && Sorted(ms) && (g.tame ==> !OutlivesTwo(x, ms))
    requires Piece(g, base, [OP_LVAR, n - 2], Ins(n, ms, false, 2)) && Piece(g, base + 2, [OP_LVAR, n - 1], Ins(n + 1, ms, false, 2))
    requires Piece(g, base + 4, [OP_IT_DEF], Ins(n + 2, ms, false, 1)) && Piece(g, base + 5, [OP_SVAR, x], Ins(n + 1, ms, false, 2))
    ensures Clean(g, base, base + 7) && Begins(g, base, n, ms)
  {
    hide Piece, Clean, Begins;
    StoreClean(g, base + 5, x, n, ms, false);
    BeginsGoes(g, base + 5, n + 1, ms);
    PlainClean(g, base + 4, OP_IT_DEF, n + 2, ms, false);
    LoadClean(g, base + 2, n - 1, n + 1, ms);
    LoadClean(g, base, n - 2, n, ms);
    CleanJoin(g, base, base + 2, base + 4);
    CleanJoin(g, base, base + 4, base + 5);
    CleanJoin(g, base, base + 5, base + 7);
  }

  /** The position is compared with the length. */
  lemma LengthClean(g: Listing, base: int, n: nat, exit: int, ms: seq<nat>)
    requires n >= 2 && Begins(g, base + 8, n, ms) && Begins(g, exit, n, ms)
    requires Piece(g, base, [OP_LVAR, n - 1], Ins(n, ms, false, 2)) && Piece(g, base + 2, [OP_LVAR, n - 2], Ins(n + 1, ms, false, 2))
    requires Piece(g, base + 4, [OP_ALEN], Ins(n + 2, ms, false, 1)) && Piece(g, base + 5, [OP_LT], Ins(n + 2, ms, false, 1))
    requires Piece(g, base + 6, [OP_JZ, exit], Ins(n + 1, ms, false, 2))
    ensures Clean(g, base, base + 8)
  {
    hide Piece, Clean, Begins;
    BeginsGoes(g, base + 8, n, ms);
    BeginsGoes(g, exit, n, ms);
    BranchClean(g, base + 6, exit, n, ms);
    BeginsGoes(g, base + 6, n + 1, ms);
    PlainClean(g, base + 5, OP_LT, n + 2, ms, false);
    BeginsGoes(g, base + 5, n + 2, ms);
    PlainClean(g, base + 4, OP_ALEN, n + 2, ms, false);
    LoadClean(g, base + 2, n - 2, n + 1, ms);
    LoadClean(g, base, n - 1, n, ms);
    CleanJoin(g, base, base + 2, base + 4);
    CleanJoin(g, base, base + 4, base + 5);
    CleanJoin(g, base, base + 5, base + 6);
    CleanJoin(g, base, base + 6, base + 8);
  }

  lemma LoadClean(g: Listing, base: int, x: int, h: nat, ms: seq<nat>)
    requires Piece(g, base, [OP_LVAR, x], Ins(h, ms, false, 2)) && 0 <= x < h && Begins(g, base + 2, h + 1, ms)
    ensures Clean(g, base, base + 2) && Begins(g, base, h, ms)
  {
    hide Piece;
    ArgClean(g, base, OP_LVAR, x, h, ms, false);
  }

  lemma StoreClean(g: Listing, base: int, x: int, h: nat, ms: seq<nat>, m: bool)
    requires Piece(g, base, [OP_SVAR, x], Ins(h + 1, ms, m, 2)) && 0 <= x < h && Begins(g, base + 2, h, ms)
    requires Sorted(ms) && (g.tame ==> m || !OutlivesTwo(x, ms))
    ensures Clean(g, base, base + 2) && Goes(g, base, h + 1, ms, m) && (!m ==> Begins(g, base, h + 1, ms))
  {
    hide Piece;
    ArgClean(g, base, OP_SVAR, x, h + 1, ms, m);
  }

  lemma PushClean(g: Listing, base: int, k: int, h: nat, ms: seq<nat>)
    requires Listed(g) && k in g.p.consts && Piece(g, base, PushConst(k, g.ln), Ins(h, ms, false, 2)) && Begins(g, base + 2, h + 1, ms)
    ensures Clean(g, base, base + 2) && Begins(g, base, h, ms)
  {
    hide Piece, ConstIndex;
    ArgClean(g, base, OP_PSH_NUM, ConstIndex(g.ln.consts, k), h, ms, false);
  }

  /** The position moves on by one. */
  lemma NextClean(g: Listing, base: int, n: nat, loop: int, ms: seq<nat>)
    requires Listed(g) && 1 in g.p.consts && n >= 2 && Sorted(ms) && Piece(g, base, ForNext(n, loop, g.ln), NoteForNext(n, ms))
    requires Begins(g, loop, n, ms)
    ensures Clean(g, base, base + FOR_NEXT_SIZE) && Begins(g, base, n, ms)
  {
    hide Piece, Clean, Begins, Ins, PushConst, Listed;
    FivePieces(g, base, [OP_LVAR, n - 1], PushConst(1, g.ln), [OP_ADD], [OP_SVAR, n - 1], [OP_JMP, loop],
      Ins(n, ms, false, 2), Ins(n + 1, ms, false, 2), Ins(n + 2, ms, false, 1), Ins(n + 1, ms, true, 2), Ins(n, ms, false, 2));
    BeginsGoes(g, loop, n, ms);
    JumpClean(g, base + 7, loop, n, ms);
    StoreClean(g, base + 5, n - 1, n, ms, true);
    PlainClean(g, base + 4, OP_ADD, n + 2, ms, false);
    PushClean(g, base + 2, 1, n + 1, ms);
    LoadClean(g, base, n - 1, n, ms);
    CleanJoin(g, base, base + 2, base + 4);
    CleanJoin(g, base, base + 4, base + 5);
    CleanJoin(g, base, base + 5, base + 7);
    CleanJoin(g, base, base + 7, base + 9);
  }

  /** The scope, the variables and the list. */
  lemma HeadClean(g: Listing, reuse: Option<nat>, e: L.Expr, cx: Ctx, bx: Ctx, base: int)
    requires Listed(g) && 0 in g.p.consts && Pooled(e, g.p.consts) && bx.locals == cx.locals && bx.marks == cx.marks
    requires Bound(e, cx.locals + (if reuse.None? then 1 else 0), g.fs)
    requires Piece(g, base, ForHead(reuse, e, g.ln, base), NoteForHead(reuse, e, bx))
    requires Begins(g, base + |ForHead(reuse, e, g.ln, base)|, cx.locals + (if reuse.None? then 3 else 2), cx.marks + [cx.locals])
    ensures Clean(g, base, base + |ForHead(reuse, e, g.ln, base)|) && Begins(g, base, cx.locals, cx.marks)
  {
    hide Piece, Clean, Begins, Ins, PushConst, Listed, Goes, GenExpr, NoteExpr, Bound, Pooled;
    var n, ms, v := cx.locals, cx.marks + [cx.locals], if reuse.None? then 1 else 0;
    var z := if reuse.None? then PushConst(0, g.ln) else [];
    var nz := if reuse.None? then Ins(n, ms, false, 2) else [];
    var at := base + 1 + |z|;
    var c := GenExpr(e, g.ln, at);
    ExprSize(e, n + v, ms, g.ln, at);
    PieceSplit(g, base, [OP_SCOPE_ENTER] + z + c, PushConst(0, g.ln), Ins(n, cx.marks, false, 1) + nz + NoteExpr(e, n + v, ms), Ins(n + v + 1, ms, false, 2));
    ThreePieces(g, base, [OP_SCOPE_ENTER], z, c, Ins(n, cx.marks, false, 1), nz, NoteExpr(e, n + v, ms));
    PushClean(g, at + |c|, 0, n + v + 1, ms);
    ExprCleanHere(g, e, at, n + v, n + v, ms);
    if reuse.None? {
      PushClean(g, base + 1, 0, n, ms);
    } else {
      CleanNone(g, base + 1);
    }
    EnterClean(g, base, n, cx.marks);
    CleanJoin(g, base, base + 1, at);
    CleanJoin(g, base, at, at + |c|);
    CleanJoin(g, base, at + |c|, at + |c| + 2);
  }

  // ---- for (c) ----

  lemma {:induction false} ForCondAgrees(g: Listing, c: L.Expr, b: L.Stmt, cx: Ctx, bx: Ctx, base: int)
    requires Laid(g, L.ForCond(c, b), cx, bx, base)
    ensures Agrees(g, L.ForCond(c, b), cx, base)
    decreases L.ForCond(c, b), 1
  {
    hide Piece, Clean, Begins, GenStmt, NoteStmt, SameShape, Listed, After, Goes, Times, PopNotes, CondCtx, GenExpr, NoteExpr, Ins;
    StmtCode(L.ForCond(c, b), cx, g.ln, base);
    NotesOf(L.ForCond(c, b), bx);
    ForCondParts(c, b, cx, bx, g.fs, g.p.consts, g.tame);
    hide Formed, StmtPooled, StmtBound;
    var n, cc := cx.locals, GenExpr(c, g.ln, base + 2);
    var m1, m2 := cx.marks + [n], cx.marks + [n, n];
    var k := base + 2 + |cc|;
    var pops := After(b, CondCtx(cx, 0, 0)).locals - n;
    var cont := k + 2 + |GenStmt(b, CondCtx(cx, 0, 0), g.ln, k + 2)| + pops + 1;
    CondFits(b, cx, bx, cont + 3, cont, g.fs, g.tame);
    var lx, lx' := CondCtx(cx, cont + 3, cont), CondCtx(bx, 0, 0);
    var body := GenStmt(b, lx, g.ln, k + 2);
    ExprSize(c, n, m2, g.ln, base + 2);
    StmtSize(b, lx, lx', g.ln, k + 2);
    StmtSize(b, CondCtx(cx, 0, 0), lx', g.ln, k + 2);
    var i1, i2 := Ins(n, m1, false, 1), Ins(n, m2, false, 1);
    var first := [OP_SCOPE_ENTER] + [OP_SCOPE_ENTER] + cc + [OP_JZ, cont + 2] + body + Times(OP_POP, pops);
    var notes := Ins(n, cx.marks, false, 1) + i1 + NoteExpr(c, n, m2) + Ins(n + 1, m2, false, 2) + NoteStmt(b, lx') + PopNotes(n + pops, m2, pops);
    FivePieces(g, base, first, [OP_SCOPE_EXIT], [OP_JMP, base + 1], [OP_SCOPE_EXIT], [OP_SCOPE_EXIT], notes, i2, Ins(n, m1, false, 2), i2, i1);
    FivePieces(g, base, [OP_SCOPE_ENTER] + [OP_SCOPE_ENTER], cc, [OP_JZ, cont + 2], body, Times(OP_POP, pops),
               Ins(n, cx.marks, false, 1) + i1, NoteExpr(c, n, m2), Ins(n + 1, m2, false, 2), NoteStmt(b, lx'), PopNotes(n + pops, m2, pops));
    PieceSplit(g, base, [OP_SCOPE_ENTER], [OP_SCOPE_ENTER], Ins(n, cx.marks, false, 1), i1);
    CondLoopClean(g, c, b, cx, bx, base, k, pops, cont);
  }

  lemma ForCondParts(c: L.Expr, b: L.Stmt, cx: Ctx, bx: Ctx, fs: seq<L.Func>, consts: seq<int>, tame: bool)
    requires var s := L.ForCond(c, b); SameShape(cx, bx) && Formed(s, cx) && StmtPooled(s, consts) && StmtBound(s, cx, fs, tame)
    ensures bx.locals == cx.locals && bx.marks == cx.marks && Bound(c, cx.locals, fs) && Pooled(c, consts)
    ensures Formed(b, CondCtx(cx, 0, 0)) && StmtPooled(b, consts) && StmtBound(b, CondCtx(cx, 0, 0), fs, tame)
    ensures After(L.ForCond(c, b), cx).locals == cx.locals
  {
    hide Bound, Pooled, CondCtx;
  }

  lemma CondFits(b: L.Stmt, cx: Ctx, bx: Ctx, brk: int, cont: int, fs: seq<L.Func>, tame: bool)
    requires SameShape(cx, bx) && Formed(b, CondCtx(cx, 0, 0)) && StmtBound(b, CondCtx(cx, 0, 0), fs, tame)
    ensures var lx := CondCtx(cx, brk, cont);
      && Formed(b, lx) && StmtBound(b, lx, fs, tame) && SameShape(lx, CondCtx(bx, 0, 0)) && SameShape(CondCtx(cx, 0, 0), CondCtx(bx, 0, 0))
      && After(b, lx).locals == After(b, CondCtx(cx, 0, 0)).locals == After(b, CondCtx(bx, 0, 0)).locals
      && lx.marks == cx.marks + [cx.locals, cx.locals] && lx.locals == cx.locals <= After(b, lx).locals
  {
    hide Formed, StmtBound;
    var l0, lx := CondCtx(cx, 0, 0), CondCtx(cx, brk, cont);
    FormedShape(b, l0, lx);
    BoundShape(b, l0, lx, fs, tame);
    AfterShape(b, l0, lx);
    AfterShape(b, l0, CondCtx(bx, 0, 0));
    hide After;
    assert cx.marks + [cx.locals] + [cx.locals] == cx.marks + [cx.locals, cx.locals];
  }

  /** The two scopes, the condition, the body, and the ways out; breaks and the failed condition
      leave by different exits. */
  lemma {:induction false} CondLoopClean(g: Listing, c: L.Expr, b: L.Stmt, cx: Ctx, bx: Ctx, base: int, k: int, pops: nat, cont: int)
    requires Listed(g) && Bound(c, cx.locals, g.fs) && Pooled(c, g.p.consts) && Ascending(cx)
    requires var n, m1, m2, lx := cx.locals, cx.marks + [cx.locals], cx.marks + [cx.locals, cx.locals], CondCtx(cx, cont + 3, cont);
      && k == base + 2 + |GenExpr(c, g.ln, base + 2)| && cont == k + 2 + |GenStmt(b, lx, g.ln, k + 2)| + pops + 1
      && Formed(b, lx) && StmtPooled(b, g.p.consts) && StmtBound(b, lx, g.fs, g.tame) && SameShape(lx, CondCtx(bx, 0, 0))
      && After(b, lx).locals == n + pops && lx.marks == m2 && lx.locals == n
      && Piece(g, base, [OP_SCOPE_ENTER], Ins(n, cx.marks, false, 1)) && Piece(g, base + 1, [OP_SCOPE_ENTER], Ins(n, m1, false, 1))
      && Piece(g, base + 2, GenExpr(c, g.ln, base + 2), NoteExpr(c, n, m2))
      && Piece(g, k, [OP_JZ, cont + 2], Ins(n + 1, m2, false, 2))
      && Piece(g, k + 2, GenStmt(b, lx, g.ln, k + 2), NoteStmt(b, CondCtx(bx, 0, 0)))
      && Piece(g, cont - 1 - pops, Times(OP_POP, pops), PopNotes(n + pops, m2, pops))
      && Piece(g, cont - 1, [OP_SCOPE_EXIT], Ins(n, m2, false, 1)) && Piece(g, cont, [OP_JMP, base + 1], Ins(n, m1, false, 2))
      && Piece(g, cont + 2, [OP_SCOPE_EXIT], Ins(n, m2, false, 1)) && Piece(g, cont + 3, [OP_SCOPE_EXIT], Ins(n, m1, false, 1))
      && Begins(g, cont + 4, n, cx.marks)
    ensures Clean(g, base, cont + 4) && Begins(g, base, cx.locals, cx.marks)
    decreases L.ForCond(c, b), 0
  {
    hide Piece, Clean, Begins, GenStmt, NoteStmt, SameShape, Listed, After, Times, PopNotes, GenExpr, NoteExpr, Ins, Formed,
      StmtPooled, StmtBound, Bound, Pooled, Goes;
    var n, m1, m2, lx := cx.locals, cx.marks + [cx.locals], cx.marks + [cx.locals, cx.locals], CondCtx(cx, cont + 3, cont);
    assert m1 + [n] == m2;
    ExitClean(g, cont + 3, n, cx.marks, n);
    ExitClean(g, cont + 2, n, m1, n);
    EnterBegins(g, base + 1, n, m1);
    BeginsGoes(g, base + 1, n, m1);
    JumpClean(g, cont, base + 1, n, m1);
    ExitClean(g, cont - 1, n, m1, n);
    PopsClean(g, cont - 1 - pops, pops, n + pops, m2);
    CondHere(g, cx, cont + 3, cont);
    AscendingOn(cx, lx);
    StmtAgrees(g, b, lx, CondCtx(bx, 0, 0), k + 2);
    BeginsGoes(g, k + 2, n, m2);
    BeginsGoes(g, cont + 2, n, m2);
    BranchClean(g, k, cont + 2, n, m2);
    ExprCleanHere(g, c, base + 2, n, n, m2);
    EnterClean(g, base + 1, n, m1);
    EnterClean(g, base, n, cx.marks);
    CleanJoin(g, base, base + 1, base + 2);
    CleanJoin(g, base, base + 2, k);
    CleanJoin(g, base, k, k + 2);
    CleanJoin(g, base, k + 2, cont - 1 - pops);
    CleanJoin(g, base, cont - 1 - pops, cont - 1);
    CleanJoin(g, base, cont - 1, cont);
    CleanJoin(g, base, cont, cont + 2);
    CleanJoin(g, base, cont + 2, cont + 3);
    CleanJoin(g, base, cont + 3, cont + 4);
  }

  lemma EnterBegins(g: Listing, base: int, h: nat, ms: seq<nat>)
    requires Piece(g, base, [OP_SCOPE_ENTER], Ins(h, ms, false, 1))
    ensures Begins(g, base, h, ms)
  {
    assert Ins(h, ms, false, 1)[0] == Spot(h, ms, false);
    assert g.notes[base - g.addr + 0] == Spot(h, ms, false);
  }

  lemma CondHere(g: Listing, cx: Ctx, brk: int, cont: int)
    requires Begins(g, brk, cx.locals, cx.marks + [cx.locals]) && Begins(g, cont, cx.locals, cx.marks + [cx.locals])
    ensures LoopGoes(g, CondCtx(cx, brk, cont))
  {
    hide Begins;
    LoopHere(g, Enter(cx), brk, cont);
    LoopGoesOn(g, InLoop(Enter(cx), brk, cont), CondCtx(cx, brk, cont));
  }

  // ---- Functions ----

  /** The functions `fs` linked in program `p`, and where the function called first returns to. */
  datatype Build = Build(p: Program, ln: Link, fs: seq<L.Func>, tame: bool, home: int)

  ghost function ListingOf(d: Build, f: nat): Listing
    requires f < |d.fs| && f < |d.ln.addrs|
  {
    Listing(d.p, d.ln, d.fs, d.tame, NoteFunc(d.fs[f]), d.ln.addrs[f])
  }

  /** In the code of a linked function all paths to an instruction agree on height and scopes, and
      every jump lands on an instruction. */
  lemma FuncAgrees(d: Build, f: nat)
    requires Linked(d.p, d.ln, d.fs) && f < |d.fs| == |d.ln.addrs| && StmtBound(d.fs[f].body, BodyCtx(d.fs[f].arity), d.fs, d.tame)
    ensures var g := ListingOf(d, f);
      && Clean(g, g.addr, g.addr + |g.notes|) && Begins(g, g.addr, d.fs[f].arity, [])
      && |g.notes| == |GenFunc(d.fs[f], d.ln, g.addr)|
  {
    hide Linked, Piece, Clean, Begins, GenStmt, NoteStmt, After, Formed, StmtPooled, StmtBound, PushConst, Ins, Has, NoteFunc,
      GenFunc, Laid;
    FuncPieces(d, f);
    LinkedConsts(d.p, d.ln, d.fs);
    var g, fn, cx := ListingOf(d, f), d.fs[f], BodyCtx(d.fs[f].arity);
    var c, n := GenStmt(fn.body, cx, d.ln, g.addr + 1), After(fn.body, cx).locals;
    var k := g.addr + 1 + |c|;
    PlainClean(g, k + 2, OP_RET, n + 1, cx.marks, false);
    PushClean(g, k, 0, n, cx.marks);
    assert Laid(g, fn.body, cx, cx, g.addr + 1) by { BodyLaid(d, f); }
    StmtAgrees(g, fn.body, cx, cx, g.addr + 1);
    assert [] + [fn.arity] == cx.marks;
    EnterClean(g, g.addr, fn.arity, []);
    CleanJoin(g, g.addr, g.addr + 1, k);
    CleanJoin(g, g.addr, k, k + 2);
    CleanJoin(g, g.addr, k + 2, k + 3);
  }

  lemma FuncPieces(d: Build, f: nat)
    requires Linked(d.p, d.ln, d.fs) && f < |d.fs| == |d.ln.addrs|
    ensures var g, fn, cx := ListingOf(d, f), d.fs[f], BodyCtx(d.fs[f].arity);
      var c, n := GenStmt(fn.body, cx, d.ln, g.addr + 1), After(fn.body, cx).locals;
      var k := g.addr + 1 + |c|;
      && Piece(g, g.addr, [OP_SCOPE_ENTER], Ins(fn.arity, [], false, 1)) && Piece(g, g.addr + 1, c, NoteStmt(fn.body, cx))
      && Piece(g, k, PushConst(0, d.ln), Ins(n, cx.marks, false, 2)) && Piece(g, k + 2, [OP_RET], Ins(n + 1, cx.marks, false, 1))
      && |g.notes| == |GenFunc(fn, d.ln, g.addr)| == |c| + 4
  {
    hide Linked, Piece, GenStmt, NoteStmt, After, Formed, StmtPooled, PushConst, Ins, Has;
    FuncLinked(d.p, d.ln, d.fs, f);
    var g, fn, cx := ListingOf(d, f), d.fs[f], BodyCtx(d.fs[f].arity);
    var c, n := GenStmt(fn.body, cx, d.ln, g.addr + 1), After(fn.body, cx).locals;
    SelfShape(cx);
    StmtSize(fn.body, cx, cx, d.ln, g.addr + 1);
    WholePiece(g, GenFunc(fn, d.ln, g.addr));
    PieceSplit(g, g.addr, [OP_SCOPE_ENTER] + c + PushConst(0, d.ln), [OP_RET],
      Ins(fn.arity, [], false, 1) + NoteStmt(fn.body, cx) + Ins(n, cx.marks, false, 2), Ins(n + 1, cx.marks, false, 1));
    ThreePieces(g, g.addr, [OP_SCOPE_ENTER], c, PushConst(0, d.ln), Ins(fn.arity, [], false, 1), NoteStmt(fn.body, cx), Ins(n, cx.marks, false, 2));
  }

  lemma BodyLaid(d: Build, f: nat)
    requires Linked(d.p, d.ln, d.fs) && f < |d.fs| == |d.ln.addrs| && StmtBound(d.fs[f].body, BodyCtx(d.fs[f].arity), d.fs, d.tame)
    requires var g, fn, cx := ListingOf(d, f), d.fs[f], BodyCtx(d.fs[f].arity);
      var c, n := GenStmt(fn.body, cx, d.ln, g.addr + 1), After(fn.body, cx).locals;
      Piece(g, g.addr + 1, c, NoteStmt(fn.body, cx)) && Begins(g, g.addr + 1 + |c|, n, cx.marks)
    ensures var g, cx := ListingOf(d, f), BodyCtx(d.fs[f].arity); Laid(g, d.fs[f].body, cx, cx, g.addr + 1)
  {
    hide Linked, Piece, Begins, GenStmt, NoteStmt, After, Formed, StmtPooled, StmtBound;
    FuncLinked(d.p, d.ln, d.fs, f);
    LinkedConsts(d.p, d.ln, d.fs);
    SelfShape(BodyCtx(d.fs[f].arity));
  }

  lemma WholePiece(g: Listing, code: seq<int>)
    requires Has(g.p, g.addr, code) && |code| == |g.notes|
    ensures Piece(g, g.addr, code, g.notes)
  {
    hide Has;
  }
}
