/** A compiled function that hands back less than its source returns: an alias stored from a nested
    block lifts the boundary of the function's own scope past the block's, and OP_RET then rewinds
    into the middle of the result (src/vm.c:1191-1217, 1246-1279). */
module Losing {
  import opened Defines
  import opened Arenas
  import opened Evacuation
  import opened Machine
  import opened Protection
  import L = Language
  import opened Codegen
  import opened Simulation
  import opened Frames

  /** fn g(x) { var a = [] if (1) { var t = [] x = a } ret [7] } */
  const LOSER := L.Func(1,
    L.Then(DECL, L.Then(COND, RET)))

  const LINK := Link([0], [0, 1, 7])

  const CODE := Machine.Program([
    OP_SCOPE_ENTER, OP_ARR, 0,
    OP_PSH_NUM, 1, OP_JZ, 16,
    OP_SCOPE_ENTER, OP_ARR, 0, OP_LVAR, 1, OP_SVAR, 0, OP_POP, OP_SCOPE_EXIT,
    OP_PSH_NUM, 2, OP_ARR, 1, OP_RET,
    OP_PSH_NUM, 0, OP_RET], [0, 1, 7])

  const DECL := L.Decl(L.List([]))
  const INNER := L.Then(DECL, L.Assign(0, L.Var(1)))
  const COND := L.If(L.Lit(1), L.Blk(INNER), L.Skip)
  const RET := L.Ret(L.List([L.Lit(7)]))

  lemma LoserConsts()
    ensures PushConst(0, LINK) == [OP_PSH_NUM, 0] && PushConst(1, LINK) == [OP_PSH_NUM, 1] && PushConst(7, LINK) == [OP_PSH_NUM, 2]
  {
    assert [0, 1, 7][1..] == [1, 7] && [1, 7][1..] == [7];
  }

  lemma LoserLists(base: int)
    ensures GenExpr(L.List([]), LINK, base) == [OP_ARR, 0]
    ensures GenExpr(L.List([L.Lit(7)]), LINK, base) == [OP_PSH_NUM, 2, OP_ARR, 1]
  {
    LoserConsts();
    assert GenExprs([], LINK, base) == [];
    assert GenExprs([L.Lit(7)], LINK, base) == GenExpr(L.Lit(7), LINK, base) + GenExprs([], LINK, base + 2);
  }

  lemma LoserBlock(cx: Ctx, base: int)
    requires cx.locals == 2
    ensures GenStmt(L.Blk(INNER), cx, LINK, base)
      == [OP_SCOPE_ENTER, OP_ARR, 0, OP_LVAR, 1, OP_SVAR, 0, OP_POP, OP_SCOPE_EXIT]
    ensures After(L.Blk(INNER), cx) == cx
  {
    hide GenExpr;
    var ex := Enter(cx);
    LoserLists(base + 1);
    StmtCode(L.Blk(INNER), cx, LINK, base);
    StmtCode(INNER, ex, LINK, base + 1);
    assert GenExpr(L.Var(1), LINK, base + 3) == [OP_LVAR, 1] by { VarCode(base + 3); }
    assert After(DECL, ex) == ex.(locals := 3) && After(INNER, ex) == ex.(locals := 3);
    assert GenStmt(L.Assign(0, L.Var(1)), After(DECL, ex), LINK, base + 3) == [OP_LVAR, 1, OP_SVAR, 0];
    assert GenStmt(INNER, ex, LINK, base + 1) == [OP_ARR, 0, OP_LVAR, 1, OP_SVAR, 0];
    assert Times(OP_POP, 0) == [] && Times(OP_POP, 1) == [OP_POP];
  }

  lemma VarCode(base: int)
    ensures GenExpr(L.Var(1), LINK, base) == [OP_LVAR, 1]
  {
  }

  lemma LoserCond(cx: Ctx)
    requires cx.locals == 2
    ensures GenStmt(COND, cx, LINK, 3)
      == [OP_PSH_NUM, 1, OP_JZ, 16] + [OP_SCOPE_ENTER, OP_ARR, 0, OP_LVAR, 1, OP_SVAR, 0, OP_POP, OP_SCOPE_EXIT]
    ensures After(COND, cx).locals == 2
  {
    hide GenExpr, GenStmt, After;
    LitCode(3);
    LoserBlock(cx, 7);
    StmtCode(COND, cx, LINK, 3);
    CondAfter(cx);
  }

  lemma CondAfter(cx: Ctx)
    ensures After(COND, cx).locals == cx.locals
  {
  }

  lemma RetCode(cx: Ctx)
    ensures GenStmt(RET, cx, LINK, 16) == [OP_PSH_NUM, 2, OP_ARR, 1, OP_RET]
  {
    hide GenExpr;
    LoserLists(16);
  }

  lemma DeclCode(cx: Ctx)
    ensures GenStmt(DECL, cx, LINK, 1) == [OP_ARR, 0] && After(DECL, cx) == cx.(locals := cx.locals + 1)
  {
    hide GenExpr;
    LoserLists(1);
  }

  lemma RestCode(cx: Ctx)
    requires cx.locals == 2
    ensures GenStmt(L.Then(COND, RET), cx, LINK, 3)
      == [OP_PSH_NUM, 1, OP_JZ, 16, OP_SCOPE_ENTER, OP_ARR, 0, OP_LVAR, 1, OP_SVAR, 0, OP_POP, OP_SCOPE_EXIT,
          OP_PSH_NUM, 2, OP_ARR, 1, OP_RET]
  {
    hide GenStmt, After;
    LoserCond(cx);
    RetCode(After(COND, cx));
    StmtCode(L.Then(COND, RET), cx, LINK, 3);
  }

  lemma LoserCode()
    ensures GenFunc(LOSER, LINK, 0) == CODE.code
  {
    hide GenStmt, After, PushConst;
    LoserConsts();
    var cx := BodyCtx(1);
    DeclCode(cx);
    RestCode(After(DECL, cx));
    StmtCode(LOSER.body, cx, LINK, 1);
  }

  lemma LitCode(base: int)
    ensures GenExpr(L.Lit(1), LINK, base) == [OP_PSH_NUM, 1]
  {
    LoserConsts();
  }

  /** The function is compiled as its source says, and its source returns [7]. */
  lemma LoserLinked(x: Value)
    ensures Linked(CODE, LINK, [LOSER])
    ensures L.Invoke(0, [LOSER], 0, [x]) == Some(L.Arr([L.NumV(7)]))
  {
    LoserCode();
    LoserFormed();
    hide GenFunc, Formed, StmtPooled, L.Invoke;
    LoserReturns(x);
    CodeHeld();
  }

  lemma CodeHeld()
    ensures Has(CODE, 0, CODE.code)
  {
  }

  lemma LoserFormed()
    ensures Formed(LOSER.body, BodyCtx(1)) && StmtPooled(LOSER.body, CODE.consts)
  {
    hide After;
    CondPooled();
    CondFormed(After(DECL, BodyCtx(1)));
    hide Formed, StmtPooled;
    LoserParts();
  }

  lemma LoserParts()
    ensures StmtPooled(LOSER.body, CODE.consts) == StmtPooled(COND, CODE.consts)
    ensures Formed(LOSER.body, BodyCtx(1)) == Formed(COND, After(DECL, BodyCtx(1)))
  {
    hide After;
    assert StmtPooled(DECL, CODE.consts) && StmtPooled(RET, CODE.consts);
  }

  lemma CondPooled()
    ensures StmtPooled(COND, CODE.consts)
  {
    assert StmtPooled(INNER, CODE.consts);
  }

  lemma CondFormed(cx: Ctx)
    ensures Formed(COND, cx)
  {
    hide After;
    assert Formed(INNER, Enter(cx));
  }

  lemma Declares(vs: seq<Value>)
    ensures L.Run(0, [LOSER], DECL, vs) == L.Norm(vs + [L.Arr([])])
  {
    assert L.EvalAll(0, [LOSER], [], vs) == Some([]);
  }

  lemma Aliases(x: Value)
    ensures L.Run(0, [LOSER], COND, [x, L.Arr([])]) == L.Norm([L.Arr([]), L.Arr([])])
  {
    var fs, none := [LOSER], L.Arr([]);
    Declares([x, none]);
    assert L.Eval(0, fs, L.Var(1), [x, none, none]) == Some(none);
    assert [x, none, none][0 := none] == [none, none, none];
    assert L.Run(0, fs, L.Assign(0, L.Var(1)), [x, none, none]) == L.Norm([none, none, none]);
    assert L.Run(0, fs, INNER, [x, none]) == L.Norm([none, none, none]);
    assert L.Run(0, fs, L.Blk(INNER), [x, none]) == L.Norm([none, none]);
    assert L.Eval(0, fs, L.Lit(1), [x, none]) == Some(L.NumV(1));
  }

  lemma LoserReturns(x: Value)
    ensures L.Invoke(0, [LOSER], 0, [x]) == Some(L.Arr([L.NumV(7)]))
  {
    var fs, none := [LOSER], L.Arr([]);
    Declares([x]);
    Aliases(x);
    assert L.EvalAll(0, fs, [L.Lit(7)], [none, none]) == Some([L.NumV(7)]) by {
      assert [L.Lit(7)][1..] == [] && L.EvalAll(0, fs, [], [none, none]) == Some([]);
      assert L.Eval(0, fs, L.Lit(7), [none, none]) == Some(L.NumV(7));
      assert [L.NumV(7)] + [] == [L.NumV(7)];
    }
    assert L.Run(0, fs, RET, [none, none]) == L.Return(L.Arr([L.NumV(7)]));
    assert L.Run(0, fs, L.Then(COND, RET), [x, none]) == L.Return(L.Arr([L.NumV(7)]));
  }

  // ---- Its run ----

  /** A machine about to run the function on one argument, with enough room. */
  ghost predicate Poised(s: State) {
    && ValidState(s) && s.ip == 0 && 2 <= s.fp == |s.stack| - 1 && |s.stack| + 4 <= STACK_SIZE
    && |s.scopes| + 2 <= MAX_SCOPES && (forall k :: 0 <= k < |s.scopes| ==> s.scopes[k].fp < s.fp)
    && Room(s.heap, s.cur, 5)
  }

  lemma StepTo(p: Program, s: State, u: State, t: State)
    requires Reach(p, s, u) && ValidState(u) && Step(p, u) == Next(t)
    ensures Reach(p, s, t) && ValidState(t)
  {
    hide ValidState, Step;
    var ok, w := Stepped(p, u);
    ReachOn(p, s, u, t);
  }

  /** OP_ARR in an open region with room. */
  lemma ArrTo(s: State, u: State, n: nat) returns (t: State)
    requires Reach(CODE, s, u) && ValidState(u) && 0 <= u.ip && u.ip + 1 < |CODE.code|
    requires CODE.code[u.ip] == OP_ARR && CODE.code[u.ip + 1] == n && n <= |u.stack| && |u.stack| < STACK_SIZE + n
    requires Room(u.heap, u.cur, 2 + n)
    ensures Reach(CODE, s, t) && ValidState(t)
    ensures var h := u.heap;
      && t.heap == Append(h, u.cur, ArrayBlock(h, u.cur, u.stack[|u.stack| - n..]))
      && t == u.(ip := u.ip + 2, heap := t.heap,
                 stack := u.stack[..|u.stack| - n] + [Cell(Pack(h[u.cur].gen, u.cur, h[u.cur].head), T_OBJ)])
  {
    hide Append, ArrayBlock, Pack, Step, PushArray, ValidState;
    ArrStep(u, n);
    t := ArrPushed(u, n);
    StepTo(CODE, s, u, t);
  }

  lemma ArrStep(u: State, n: nat)
    requires ValidState(u) && 0 <= u.ip && u.ip + 1 < |CODE.code|
    requires CODE.code[u.ip] == OP_ARR && CODE.code[u.ip + 1] == n && n <= |u.stack|
    ensures ValidState(Drop(u.(ip := u.ip + 2), n))
    ensures Step(CODE, u) == PushArray(Drop(u.(ip := u.ip + 2), n), u.stack[|u.stack| - n..])
  {
    hide PushArray, ValidHeap;
  }

  lemma ArrPushed(u: State, n: nat) returns (t: State)
    requires ValidState(u) && n <= |u.stack| && |u.stack| < STACK_SIZE + n && Room(u.heap, u.cur, 2 + n)
    requires ValidState(Drop(u.(ip := u.ip + 2), n))
    ensures PushArray(Drop(u.(ip := u.ip + 2), n), u.stack[|u.stack| - n..]) == Next(t)
    ensures var h := u.heap;
      && t.heap == Append(h, u.cur, ArrayBlock(h, u.cur, u.stack[|u.stack| - n..]))
      && t == u.(ip := u.ip + 2, heap := t.heap,
                 stack := u.stack[..|u.stack| - n] + [Cell(Pack(h[u.cur].gen, u.cur, h[u.cur].head), T_OBJ)])
  {
    hide Append, ArrayBlock, Pack;
    t := PushArray(Drop(u.(ip := u.ip + 2), n), u.stack[|u.stack| - n..]).s;
  }

  lemma EnterTo(s: State, u: State) returns (t: State)
    requires Reach(CODE, s, u) && ValidState(u) && 0 <= u.ip < |CODE.code| && CODE.code[u.ip] == OP_SCOPE_ENTER && |u.scopes| < MAX_SCOPES
    ensures Reach(CODE, s, t) && ValidState(t)
    ensures t == u.(ip := u.ip + 1, scopes := u.scopes + [Scope(u.cur, u.heap[u.cur].head, u.fp, |u.stack| - 1)])
  {
    t := u.(ip := u.ip + 1, scopes := u.scopes + [Scope(u.cur, u.heap[u.cur].head, u.fp, |u.stack| - 1)]);
    assert Step(CODE, u) == Next(t);
    StepTo(CODE, s, u, t);
  }

  lemma PushTo(s: State, u: State) returns (t: State)
    requires Reach(CODE, s, u) && ValidState(u) && 0 <= u.ip && u.ip + 1 < |CODE.code| && CODE.code[u.ip] == OP_PSH_NUM
    requires 0 <= CODE.code[u.ip + 1] < 3 && |u.stack| < STACK_SIZE
    ensures Reach(CODE, s, t) && ValidState(t)
    ensures t == u.(ip := u.ip + 2, stack := u.stack + [Num(CODE.consts[CODE.code[u.ip + 1]])])
  {
    t := u.(ip := u.ip + 2, stack := u.stack + [Num(CODE.consts[CODE.code[u.ip + 1]])]);
    assert Step(CODE, u) == Next(t);
    StepTo(CODE, s, u, t);
  }

  /** Up to the assignment: both scopes are open, with one empty array in each. */
  lemma LoserOpens(s: State) returns (t: State)
    requires Poised(s)
    ensures Reach(CODE, s, t) && ValidState(t) && t.ip == 10 && t.fp == s.fp && t.cur == s.cur
    ensures var a, h := s.cur, s.heap[s.cur].head;
      && t.scopes == s.scopes + [Scope(a, h, s.fp, s.fp)] + [Scope(a, h + 2, s.fp, s.fp + 1)]
      && |t.stack| == |s.stack| + 2 && t.stack[..s.fp] == s.stack[..s.fp]
      && t.stack[s.fp + 1] == Cell(Pack(s.heap[a].gen, a, h), T_OBJ)
      && t.heap[a].active && t.heap[a].gen == s.heap[a].gen && t.heap[a].head == h + 4
  {
    hide Pack, Append, ArrayBlock, Step;
    Stay(CODE, s);
    var u := EnterTo(s, s);
    u := ArrTo(s, u, 0);
    var w := TestPassed(s, u);
    u := EnterTo(s, w);
    hide Reach, ValidState;
    t := ArrTo(s, u, 0);
  }

  lemma TestPassed(s: State, u: State) returns (t: State)
    requires Reach(CODE, s, u) && ValidState(u) && u.ip == 3 && |u.stack| < STACK_SIZE
    ensures Reach(CODE, s, t) && ValidState(t) && t == u.(ip := 7)
  {
    hide Step;
    var w := PushTo(s, u);
    BranchNot(w);
    t := w.(ip := 7, stack := w.stack[..|w.stack| - 1]);
    StepTo(CODE, s, w, t);
  }

  lemma BranchNot(u: State)
    requires ValidState(u) && u.ip == 5 && |u.stack| > 0 && Top(u, 0).val != 0
    ensures Step(CODE, u) == Next(u.(ip := 7, stack := u.stack[..|u.stack| - 1]))
  {
  }

  /** The assignment `x = a`: the outer boundary moves up to the head, the inner one stays below it. */
  lemma LoserStores(s: State, u: State) returns (t: State)
    requires Reach(CODE, s, u) && ValidState(u) && u.ip == 10 && 2 <= u.fp && |u.stack| == u.fp + 3 && |u.stack| < STACK_SIZE
    requires |u.scopes| >= 2 && u.heap[u.cur].active && u.heap[u.cur].head + 1 < MAX_HEAP
    requires var n, h := |u.scopes|, u.heap[u.cur].head - 4;
      && u.scopes[n - 2] == Scope(u.cur, h, u.fp, u.fp) && u.scopes[n - 1] == Scope(u.cur, h + 2, u.fp, u.fp + 1)
      && (forall k :: 0 <= k < n - 2 ==> u.scopes[k].fp < u.fp)
      && u.stack[u.fp + 1].tag == T_OBJ && Off(u.stack[u.fp + 1].val) == h
    ensures Reach(CODE, s, t) && ValidState(t) && t.ip == 14 && t.fp == u.fp && t.cur == u.cur && t.heap == u.heap
    ensures !Orderly(CODE, s)
    ensures var n, h := |u.scopes|, u.heap[u.cur].head - 4;
      && t.scopes == u.scopes[..n - 2] + [Scope(u.cur, h + 4, u.fp, u.fp)] + [Scope(u.cur, h + 2, u.fp, u.fp + 1)]
      && |t.stack| == |u.stack| && t.stack[..u.fp] == u.stack[..u.fp]
  {
    hide Off, Step, Reach, StoreOk;
    var n, c := |u.scopes|, u.stack[u.fp + 1];
    var w := u.(ip := 12, stack := u.stack + [c]);
    LoadOne(u);
    StepTo(CODE, s, u, w);
    CrossingStore(w);
    t := StoreZero(w);
    StepTo(CODE, s, w, t);
    TwoBumped(w);
  }

  lemma TwoBumped(w: State)
    requires ValidState(w) && |w.scopes| >= 2
    requires var n, h := |w.scopes|, w.heap[w.cur].head - 4;
      && w.scopes[n - 2] == Scope(w.cur, h, w.fp, w.fp) && w.scopes[n - 1] == Scope(w.cur, h + 2, w.fp, w.fp + 1)
      && forall k :: 0 <= k < n - 2 ==> w.scopes[k].fp < w.fp
    ensures var n, h := |w.scopes|, w.heap[w.cur].head - 4;
      BumpAll(w.scopes, w.fp, w.fp, w.cur, h, h + 4)
        == w.scopes[..n - 2] + [Scope(w.cur, h + 4, w.fp, w.fp)] + [Scope(w.cur, h + 2, w.fp, w.fp + 1)]
  {
  }

  lemma CrossingStore(w: State)
    requires ValidState(w) && w.ip == 12 && |w.stack| > 0 && Top(w, 0).tag == T_OBJ && |w.scopes| >= 2 && w.heap[w.cur].head >= 4
    requires var n, h := |w.scopes|, w.heap[w.cur].head - 4;
      && w.scopes[n - 2] == Scope(w.cur, h, w.fp, w.fp) && w.scopes[n - 1] == Scope(w.cur, h + 2, w.fp, w.fp + 1)
      && Off(Top(w, 0).val) == h
    ensures !StoreOk(CODE, w)
  {
    hide Off;
    var n := |w.scopes|;
    assert Outlived(w.scopes[n - 2], w.fp, w.fp, w.cur) && Outlived(w.scopes[n - 1], w.fp, w.fp, w.cur);
  }

  lemma LoadOne(u: State)
    requires ValidState(u) && u.ip == 10 && 0 <= u.fp && u.fp + 1 < |u.stack| < STACK_SIZE
    ensures Step(CODE, u) == Next(u.(ip := 12, stack := u.stack + [u.stack[u.fp + 1]]))
  {
  }

  lemma StoreZero(w: State) returns (t: State)
    requires ValidState(w) && w.ip == 12 && 0 <= w.fp < |w.stack| - 1 && Top(w, 0).tag == T_OBJ
    ensures t == w.(ip := 14, stack := w.stack[w.fp := Top(w, 0)][..|w.stack| - 1],
      scopes := BumpAll(w.scopes, w.fp, w.fp, w.cur, Off(Top(w, 0).val), w.heap[w.cur].head))
    ensures Step(CODE, w) == Next(t)
  {
    hide Off;
    t := w.(ip := 14, stack := w.stack[w.fp := Top(w, 0)][..|w.stack| - 1],
      scopes := BumpAll(w.scopes, w.fp, w.fp, w.cur, Off(Top(w, 0).val), w.heap[w.cur].head));
  }

  /** The block is left, and the result allocated across the outer boundary. */
  lemma LoserAllocates(s: State, u: State) returns (t: State)
    requires Reach(CODE, s, u) && ValidState(u) && u.ip == 14 && 2 <= u.fp && |u.stack| == u.fp + 3 && |u.stack| < STACK_SIZE
    requires |u.scopes| >= 2 && u.heap[u.cur].active && u.heap[u.cur].head + 1 < MAX_HEAP
    requires var n, h := |u.scopes|, u.heap[u.cur].head - 4;
      h >= 0 && u.scopes[n - 1] == Scope(u.cur, h + 2, u.fp, u.fp + 1)
    ensures Reach(CODE, s, t) && ValidState(t) && t.ip == 20 && t.fp == u.fp && t.cur == u.cur
    ensures t.scopes == u.scopes[..|u.scopes| - 1] && |t.stack| == u.fp + 3 && t.stack[..u.fp] == u.stack[..u.fp]
    ensures var a, h := u.cur, u.heap[u.cur].head - 4;
      t.heap[a].active && t.heap[a].gen == u.heap[a].gen && t.heap[a].head == h + 5
      && Top(t, 0) == Cell(Pack(u.heap[a].gen, a, h + 2), T_OBJ)
  {
    hide Pack, Append, ArrayBlock, Step;
    var w := LeaveBlock(s, u);
    w := PushTo(s, w);
    t := ArrTo(s, w, 1);
  }

  lemma LeaveBlock(s: State, u: State) returns (t: State)
    requires Reach(CODE, s, u) && ValidState(u) && u.ip == 14 && |u.stack| > 0 && |u.scopes| > 0
    requires u.scopes[|u.scopes| - 1].arena == u.cur
    ensures Reach(CODE, s, t) && ValidState(t)
    ensures var j := |u.scopes| - 1;
      t == u.(ip := 16, stack := u.stack[..|u.stack| - 1], scopes := u.scopes[..j], heap := WithHead(u.heap, u.cur, u.scopes[j].head))
  {
    var j := |u.scopes| - 1;
    var w := u.(ip := 15, stack := u.stack[..|u.stack| - 1]);
    assert Step(CODE, u) == Next(w);
    StepTo(CODE, s, u, w);
    t := w.(ip := 16, scopes := u.scopes[..j], heap := WithHead(u.heap, u.cur, u.scopes[j].head));
    assert Step(CODE, w) == Next(t);
    StepTo(CODE, s, w, t);
  }

  /** OP_RET finds the result below the boundary, so neither copies it nor keeps all of it. */
  lemma LoserCuts(s: State, u: State, h: int) returns (t: State)
    requires Reach(CODE, s, u) && ValidState(u) && u.ip == 20 && 2 <= u.fp < |u.stack| && |u.scopes| >= 1 && 0 <= h
    requires u.heap[u.cur].active && u.heap[u.cur].head == h + 5
    requires Top(u, 0) == Cell(Pack(u.heap[u.cur].gen, u.cur, h + 2), T_OBJ)
    requires u.scopes[|u.scopes| - 1] == Scope(u.cur, h + 4, u.fp, u.fp)
    requires forall k :: 0 <= k < |u.scopes| - 1 ==> u.scopes[k].fp < u.fp
    ensures Reach(CODE, s, t) && ValidState(t) && t.scopes == u.scopes[..|u.scopes| - 1] && t.cur == u.cur
    ensures t.heap[u.cur].head == h + 4 && t.heap[u.cur].active && t.heap[u.cur].gen == u.heap[u.cur].gen
    ensures t.ip == u.stack[u.fp - 2].val && t.fp == u.stack[u.fp - 1].val && t.stack == u.stack[..u.fp - 2] + [Top(u, 0)]
  {
    hide Pack, Off, Region, Gen, PopScopes, Step, Reach, Exec;
    LoserPops(u, h);
    t := LoserRets(u, Unwound(u.scopes[..|u.scopes| - 1], WithHead(u.heap, u.cur, h + 4), Top(u, 0)));
    StepTo(CODE, s, u, t);
  }

  /** OP_RET in a state whose scopes unwind to `w`. */
  lemma LoserRets(u: State, w: Unwound) returns (t: State)
    requires ValidState(u) && u.ip == 20 && 2 <= u.fp <= |u.stack|
    requires PopScopes(u.scopes, u.fp, u.cur, u.heap, Top(u, 0)) == Some(w)
    ensures t == State(u.stack[u.fp - 2].val, u.stack[u.fp - 1].val, u.stack[..u.fp - 2] + [w.rv], w.scopes, w.heap, u.cur)
    ensures Step(CODE, u) == Next(t) && ValidState(t)
  {
    hide ValidState, PopScopes;
    assert Has(CODE, u.ip, [OP_RET]);
    FetchOne(CODE, u, OP_RET);
    t := State(u.stack[u.fp - 2].val, u.stack[u.fp - 1].val, u.stack[..u.fp - 2] + [w.rv], w.scopes, w.heap, u.cur);
    AnyIp(u, 21);
    assert Exec(CODE, u.(ip := 21), OP_RET) == ExecRet(u.(ip := 21));
  }

  lemma AnyIp(u: State, ip: int)
    requires ValidState(u)
    ensures ValidState(u.(ip := ip))
  {
  }

  lemma LoserPops(u: State, h: int)
    requires ValidState(u) && 2 <= u.fp < |u.stack| && |u.scopes| >= 1 && 0 <= h
    requires u.heap[u.cur].active && u.heap[u.cur].head == h + 5
    requires Top(u, 0) == Cell(Pack(u.heap[u.cur].gen, u.cur, h + 2), T_OBJ)
    requires u.scopes[|u.scopes| - 1] == Scope(u.cur, h + 4, u.fp, u.fp)
    requires forall k :: 0 <= k < |u.scopes| - 1 ==> u.scopes[k].fp < u.fp
    ensures PopScopes(u.scopes, u.fp, u.cur, u.heap, Top(u, 0))
      == Some(Unwound(u.scopes[..|u.scopes| - 1], WithHead(u.heap, u.cur, h + 4), Top(u, 0)))
  {
    hide Pack, Off, Region, Gen;
    var sc, rv := u.scopes[|u.scopes| - 1], Top(u, 0);
    PackRoundTrip(u.heap[u.cur].gen, u.cur, h + 2);
    assert ValidScope(sc);
    assert Evac(u.heap, rv.val, sc.head) == Some((u.heap, rv.val));
    var rest, h1 := u.scopes[..|u.scopes| - 1], WithHead(u.heap, u.cur, h + 4);
    assert PopScopes(rest, u.fp, u.cur, h1, rv) == Some(Unwound(rest, h1, rv));
  }

  lemma CutAtHead(h: Heap, p: int, x: Value)
    requires ValidHeap(h) && h[Region(p)].head < Off(p) + 3
    ensures !Rep(h, NoGap(), Cell(p, T_OBJ), L.Arr([x]))
  {
    hide Off, Region, Gen;
  }

  /** The next array is written over the lost element. */
  lemma LoserOverwritten(t: State, cells: seq<Cell>, w: State)
    requires ValidState(t) && |t.stack| > 0 && PushArray(t, cells) == Next(w) && Live(t.heap, Top(t, 0).val)
    requires t.heap[t.cur].active && Region(Top(t, 0).val) == t.cur && Off(Top(t, 0).val) + 2 == t.heap[t.cur].head
    ensures Live(w.heap, Top(t, 0).val) && At(w.heap, Top(t, 0).val, 2).val == TYPE_ARRAY
  {
    hide Off, Region, Gen, Pack;
  }

  /** Whatever machine calls it, the function hands back a pointer to [7] whose last cell lies above
      the head, where the next allocation goes. */
  lemma LoserLoses(s: State) returns (t: State)
    requires Poised(s)
    ensures !Orderly(CODE, s) && Reach(CODE, s, t) && ValidState(t) && t.ip == s.stack[s.fp - 2].val && |t.stack| == s.fp - 1
    ensures t.cur == s.cur && t.heap[t.cur].active && Live(t.heap, Top(t, 0).val)
    ensures Region(Top(t, 0).val) == t.cur && Off(Top(t, 0).val) + 2 == t.heap[t.cur].head
    ensures !Rep(t.heap, NoGap(), Top(t, 0), L.Arr([L.NumV(7)]))
  {
    hide Pack, Off, Region, Gen, Step, Reach;
    var a, h := s.cur, s.heap[s.cur].head;
    var u := LoserOpens(s);
    PackRoundTrip(s.heap[a].gen, a, h);
    u := LoserStores(s, u);
    u := LoserAllocates(s, u);
    t := LoserCuts(s, u, h);
    PackRoundTrip(s.heap[a].gen, a, h + 2);
    CutAtHead(t.heap, Top(t, 0).val, L.NumV(7));
  }
}
