/** The statement grammar as a function from tokens to trees (src/compiler.c:1259-1273, 1665-1690,
    1833-1920, 1979-2120, 2282-2391). Locals are numbered as alloc_var numbers them; names resolve to the
    oldest local that has them. */
module Statements {
  import opened Defines
  import opened Language
  import opened Parsing
  import opened Codegen
  import opened Drift

  /** A statement, the position after it, and the locals in scope there. */
  datatype Parsed = Parsed(s: Stmt, end: nat, locals: seq<string>)

  function Digits(n: nat): string {
    if n < 10 then [['0', '1', '2', '3', '4', '5', '6', '7', '8', '9'][n]] else Digits(n / 10) + Digits(n % 10)
  }

  /** The hidden locals of an iteration at loop depth `d`: the collection and the position. */
  function Hidden(d: nat): (names: seq<string>)
    ensures |names| == 2
  {
    ["_arr_" + Digits(d), "_idx_" + Digits(d)]
  }

  predicate Moves(r: Option<Parsed>, i: nat, ts: seq<Token>, env: Env) {
    r.Some? ==> i < r.value.end <= |ts| && env.locals <= r.value.locals
  }

  /** statement() inside a function, under `d` loops. A token that starts no statement is skipped. */
  function ParseStmt(ts: seq<Token>, i: nat, env: Env, d: nat): (r: Option<Parsed>)
    requires i <= |ts|
    ensures Moves(r, i, ts, env)
    decreases |ts| - i, 2
  {
    var t := Peek(ts, i);
    if t == TVar then ParseDecl(ts, i + 1, env)
    else if t == TFor then ParseFor(ts, i + 1, env, d)
    else if t.TId? then ParseIdent(ts, i, env)
    else if t == TIf then ParseIf(ts, i + 1, env, d)
    else if t == TForever then ParseForever(ts, i + 1, env, d)
    else if t == TRet then ParseRet(ts, i + 1, env)
    else ParseOther(ts, i, env, d)
  }

  function ParseOther(ts: seq<Token>, i: nat, env: Env, d: nat): (r: Option<Parsed>)
    requires i <= |ts|
    ensures Moves(r, i, ts, env)
  {
    var t := Peek(ts, i);
    if t == TEof then None
    else if t == TBreak then (if d == 0 then None else Some(Parsed(Break, i + 1, env.locals)))
    else if t == TContinue then (if d == 0 then None else Some(Parsed(Continue, i + 1, env.locals)))
    else Some(Parsed(Skip, i + 1, env.locals))
  }

  function ParseForever(ts: seq<Token>, i: nat, env: Env, d: nat): (r: Option<Parsed>)
    requires i <= |ts|
    ensures Moves(r, i, ts, env)
    ensures r.Some? ==> r.value.locals == env.locals
    decreases |ts| - i, 5
  {
    match ParseBlock(ts, i, env, d + 1)
    case None => None
    case Some(b) => Some(Parsed(Forever(b.s), b.end, env.locals))
  }

  /** `var x = e`, without a type or a region. */
  function ParseDecl(ts: seq<Token>, i: nat, env: Env): (r: Option<Parsed>)
    requires i <= |ts|
    ensures Moves(r, i, ts, env)
  {
    if !Peek(ts, i).TId? || Peek(ts, i + 1) != TAssign then None
    else
      match ParseAt(0, ts, i + 2, env)
      case None => None
      case Some((e, j)) => Some(Parsed(Decl(e), j, env.locals + [ts[i].name]))
  }

  /** An assignment to a local, a call, or a name by itself, which does nothing. */
  function ParseIdent(ts: seq<Token>, i: nat, env: Env): (r: Option<Parsed>)
    requires i < |ts| && ts[i].TId?
    ensures Moves(r, i, ts, env)
  {
    if Peek(ts, i + 1) == TAssign then
      match ParseAt(0, ts, i + 2, env)
      case None => None
      case Some((e, j)) =>
        match Find(env.locals, ts[i].name)
        case None => None
        case Some(x) => Some(Parsed(Assign(x, e), j, env.locals))
    else if Peek(ts, i + 1) == TLParen then
      match ParseItems(ts, i + 2, env, TRParen)
      case None => None
      case Some((es, j)) =>
        match Find(env.funcs, ts[i].name)
        case None => None
        case Some(f) => Some(Parsed(Do(f, es), j, env.locals))
    else if Peek(ts, i + 1) == TLBracket then None
    else Some(Parsed(Skip, i + 1, env.locals))
  }

  function ParseRet(ts: seq<Token>, i: nat, env: Env): (r: Option<Parsed>)
    requires i <= |ts|
    ensures r.Some? ==> i <= r.value.end <= |ts| && env.locals <= r.value.locals
    ensures r.Some? ==> r.value.locals == env.locals
  {
    if Peek(ts, i) == TRBrace then Some(Parsed(Ret(Lit(0)), i, env.locals))
    else
      match ParseAt(0, ts, i, env)
      case None => None
      case Some((e, j)) => Some(Parsed(Ret(e), j, env.locals))
  }

  /** Statements up to a closing brace or the end of the tokens. */
  function ParseBody(ts: seq<Token>, i: nat, env: Env, d: nat, done: Stmt): (r: Option<Parsed>)
    requires i <= |ts|
    ensures r.Some? ==> i <= r.value.end <= |ts| && env.locals <= r.value.locals
    decreases |ts| - i, 3
  {
    if Peek(ts, i) == TRBrace || Peek(ts, i) == TEof then Some(Parsed(done, i, env.locals))
    else
      match ParseStmt(ts, i, env, d)
      case None => None
      case Some(p) => ParseBody(ts, p.end, env.(locals := p.locals), d, Then(done, p.s))
  }

  /** A braced body; its locals end with it. */
  function ParseBlock(ts: seq<Token>, i: nat, env: Env, d: nat): (r: Option<Parsed>)
    requires i <= |ts|
    ensures Moves(r, i, ts, env)
    ensures r.Some? ==> r.value.s.Blk?
    ensures r.Some? ==> r.value.locals == env.locals
    decreases |ts| - i, 4
  {
    if Peek(ts, i) != TLBrace then None
    else
      match ParseBody(ts, i + 1, env, d, Skip)
      case None => None
      case Some(b) =>
        if Peek(ts, b.end) == TRBrace then Some(Parsed(Blk(b.s), b.end + 1, env.locals)) else None
  }

  /** Condition, block, and the rest of the chain; `i` is after `if` or `elif`. */
  function ParseIf(ts: seq<Token>, i: nat, env: Env, d: nat): (r: Option<Parsed>)
    requires i <= |ts|
    ensures Moves(r, i, ts, env)
    ensures r.Some? ==> r.value.s.If?
    ensures r.Some? ==> r.value.locals == env.locals
    decreases |ts| - i, 5
  {
    match ParseAt(0, ts, i, env)
    case None => None
    case Some((c, j)) =>
      match ParseBlock(ts, j, env, d)
      case None => None
      case Some(t) =>
        match ParseChain(ts, t.end, env, d)
        case None => None
        case Some(e) => Some(Parsed(If(c, t.s, e.s), e.end, env.locals))
  }

  function ParseChain(ts: seq<Token>, i: nat, env: Env, d: nat): (r: Option<Parsed>)
    requires i <= |ts|
    ensures r.Some? ==> i <= r.value.end <= |ts| && env.locals <= r.value.locals
    ensures r.Some? ==> r.value.s.Skip? || r.value.s.Blk? || r.value.s.If?
    ensures r.Some? ==> r.value.locals == env.locals
    decreases |ts| - i, 6
  {
    if Peek(ts, i) == TElif then ParseIf(ts, i + 1, env, d)
    else if Peek(ts, i) == TElse then ParseBlock(ts, i + 1, env, d)
    else Some(Parsed(Skip, i, env.locals))
  }

  /** `for (x in e) {..}`, `for (var x in e) {..}` or `for (c) {..}`, from the parenthesis on. */
  function ParseFor(ts: seq<Token>, i: nat, env: Env, d: nat): (r: Option<Parsed>)
    requires i <= |ts|
    ensures Moves(r, i, ts, env)
    ensures r.Some? ==> r.value.locals == env.locals
    decreases |ts| - i, 5
  {
    if Peek(ts, i) != TLParen then None
    else if Peek(ts, i + 1) == TVar then
      if Peek(ts, i + 2).TId? then ParseIter(ts, i + 2, env, d) else None
    else if Peek(ts, i + 1).TId? && Peek(ts, i + 2) == TIn then ParseIter(ts, i + 1, env, d)
    else if Peek(ts, i + 1).TId? && Peek(ts, i + 2) in {TComma, TColon} then None
    else ParseCondFor(ts, i + 1, env, d)
  }

  /** The locals once the loop variable, reused or new, has its slot. */
  function WithLoopVar(locals: seq<string>, name: string): seq<string> {
    if Find(locals, name).Some? then locals else locals + [name]
  }

  function ParseIter(ts: seq<Token>, i: nat, env: Env, d: nat): (r: Option<Parsed>)
    requires i < |ts| && ts[i].TId?
    ensures Moves(r, i, ts, env)
    ensures r.Some? ==> r.value.locals == env.locals
    decreases |ts| - i, 5
  {
    var locals := WithLoopVar(env.locals, ts[i].name);
    if Peek(ts, i + 1) != TIn then None
    else
      match ParseAt(0, ts, i + 2, env.(locals := locals))
      case None => None
      case Some((e, j)) =>
        if Peek(ts, j) != TRParen then None
        else
          match ParseBlock(ts, j + 1, env.(locals := locals + Hidden(d)), d + 1)
          case None => None
          case Some(b) => Some(Parsed(ForIn(Find(env.locals, ts[i].name), e, b.s), b.end, env.locals))
  }

  /** The condition-form loop has no scope of its own around its body. */
  function ParseCondFor(ts: seq<Token>, i: nat, env: Env, d: nat): (r: Option<Parsed>)
    requires i <= |ts|
    ensures Moves(r, i, ts, env)
    ensures r.Some? ==> r.value.locals == env.locals
    decreases |ts| - i, 5
  {
    match ParseAt(0, ts, i, env)
    case None => None
    case Some((c, j)) =>
      if Peek(ts, j) != TRParen then None
      else
        match ParseBlock(ts, j + 1, env, d + 1)
        case None => None
        case Some(b) => Some(Parsed(ForCond(c, b.s.body), b.end, env.locals))
  }

  // ---- Functions and programs ----

  /** Parameter names up to the closing parenthesis; the commas between them are optional. */
  function ParseParams(ts: seq<Token>, i: nat, names: seq<string>): (r: Parse<seq<string>>)
    requires i <= |ts|
    ensures Advances(r, i, ts)
    decreases |ts| - i
  {
    if Peek(ts, i) == TRParen then Some((names, i + 1))
    else if !Peek(ts, i).TId? then None
    else
      var j := if Peek(ts, i + 1) == TComma then i + 2 else i + 1;
      ParseParams(ts, j, names + [ts[i].name])
  }

  /** A function from `fn` on; its name is known in its own body. */
  function ParseFunc(ts: seq<Token>, i: nat, funcs: seq<string>): (r: Option<(string, Func, nat)>)
    requires i <= |ts|
    ensures r.Some? ==> i < r.value.2 <= |ts|
  {
    if Peek(ts, i) != TFn || !Peek(ts, i + 1).TId? || Peek(ts, i + 2) != TLParen then None
    else
      var name := ts[i + 1].name;
      match ParseParams(ts, i + 3, [])
      case None => None
      case Some((params, j)) =>
        if Peek(ts, j) != TLBrace then None
        else
          match ParseBody(ts, j + 1, Env(params, funcs + [name]), 0, Skip)
          case None => None
          case Some(b) =>
            if Peek(ts, b.end) != TRBrace then None else Some((name, Func(|params|, b.s), b.end + 1))
  }

  /** A program of functions only: the names known so far, and the functions they belong to. */
  function ParseProgram(ts: seq<Token>, i: nat, funcs: seq<string>, fs: seq<Func>): (r: Option<seq<Func>>)
    requires i <= |ts|
    decreases |ts| - i
  {
    if Peek(ts, i) == TEof then Some(fs)
    else
      match ParseFunc(ts, i, funcs)
      case None => None
      case Some((name, fn, j)) => ParseProgram(ts, j, funcs + [name], fs + [fn])
  }

  // ---- What the grammar guarantees ----

  /** Every parsed statement has the shape that Drift assumes, and declares the locals it should. */
  lemma {:induction false} StmtShaped(ts: seq<Token>, i: nat, env: Env, d: nat, cx: Ctx)
    requires i <= |ts| && ParseStmt(ts, i, env, d).Some? && cx.locals == |env.locals|
    ensures var p := ParseStmt(ts, i, env, d).value;
      Shaped(p.s, cx) && |p.locals| == After(p.s, cx).locals
    decreases |ts| - i, 2
  {
    hide ParseAt, ParseBlock, ParseIf, ParseFor, After;
    var t := Peek(ts, i);
    if t == TFor {
      ForShaped(ts, i + 1, env, d, cx);
    } else if t == TIf {
      IfShaped(ts, i + 1, env, d, cx);
    } else if t == TForever {
      BlockShaped(ts, i + 1, env, d + 1, InLoop(cx, 0, 0));
      LoopLocals(ParseStmt(ts, i, env, d).value.s, cx);
    } else {
      SimpleShaped(ts, i, env, d, cx);
    }
  }

  lemma LoopLocals(s: Stmt, cx: Ctx)
    ensures s.Forever? || s.ForIn? || s.ForCond? || s.Blk? ==> After(s, cx).locals == cx.locals
    ensures s.Decl? ==> After(s, cx).locals == cx.locals + 1
    ensures s.Skip? || s.Assign? || s.Do? || s.Break? || s.Continue? || s.Ret? ==> After(s, cx) == cx
  {
  }

  lemma SimpleShaped(ts: seq<Token>, i: nat, env: Env, d: nat, cx: Ctx)
    requires i <= |ts| && ParseStmt(ts, i, env, d).Some? && cx.locals == |env.locals|
    requires Peek(ts, i) !in {TFor, TIf, TForever}
    ensures var p := ParseStmt(ts, i, env, d).value;
      Shaped(p.s, cx) && |p.locals| == After(p.s, cx).locals
  {
    hide ParseAt, ParseItems, After;
    LoopLocals(ParseStmt(ts, i, env, d).value.s, cx);
  }

  lemma {:induction false} BodyShaped(ts: seq<Token>, i: nat, env: Env, d: nat, done: Stmt, cx: Ctx)
    requires i <= |ts| && ParseBody(ts, i, env, d, done).Some?
    requires Shaped(done, cx) && |env.locals| == After(done, cx).locals
    ensures var p := ParseBody(ts, i, env, d, done).value;
      Shaped(p.s, cx) && |p.locals| == After(p.s, cx).locals
    decreases |ts| - i, 3
  {
    hide ParseStmt, After;
    if Peek(ts, i) != TRBrace && Peek(ts, i) != TEof {
      var p := ParseStmt(ts, i, env, d).value;
      StmtShaped(ts, i, env, d, After(done, cx));
      ThenAfter(done, p.s, cx);
      BodyShaped(ts, p.end, env.(locals := p.locals), d, Then(done, p.s), cx);
    }
  }

  lemma ThenAfter(a: Stmt, b: Stmt, cx: Ctx)
    ensures After(Then(a, b), cx) == After(b, After(a, cx))
    ensures After(Skip, cx) == cx
  {
  }

  lemma {:induction false} BlockShaped(ts: seq<Token>, i: nat, env: Env, d: nat, cx: Ctx)
    requires i <= |ts| && ParseBlock(ts, i, env, d).Some? && cx.locals == |env.locals|
    ensures var p := ParseBlock(ts, i, env, d).value;
      p.s.Blk? && Shaped(p.s, cx) && Shaped(p.s.body, Enter(cx)) && After(p.s, cx).locals == cx.locals
    decreases |ts| - i, 4
  {
    hide ParseBody, After;
    var b := ParseBody(ts, i + 1, env, d, Skip).value;
    ThenAfter(Skip, Skip, Enter(cx));
    BodyShaped(ts, i + 1, env, d, Skip, Enter(cx));
    LoopLocals(Blk(b.s), cx);
  }

  lemma {:induction false} IfShaped(ts: seq<Token>, i: nat, env: Env, d: nat, cx: Ctx)
    requires i <= |ts| && ParseIf(ts, i, env, d).Some? && cx.locals == |env.locals|
    ensures var p := ParseIf(ts, i, env, d).value;
      Shaped(p.s, cx) && |p.locals| == After(p.s, cx).locals
    decreases |ts| - i, 5
  {
    hide ParseAt, ParseBlock, ParseChain, After;
    var j := ParseAt(0, ts, i, env).value.1;
    var t := ParseBlock(ts, j, env, d).value;
    BlockShaped(ts, j, env, d, cx);
    ChainShaped(ts, t.end, env, d, cx.(depth := After(t.s, cx).depth));
    IfAfter(ParseIf(ts, i, env, d).value.s, cx);
  }

  lemma IfAfter(s: Stmt, cx: Ctx)
    requires s.If?
    ensures After(s, cx) == After(s.els, cx.(depth := After(s.thn, cx).depth))
  {
  }

  lemma {:induction false} ChainShaped(ts: seq<Token>, i: nat, env: Env, d: nat, cx: Ctx)
    requires i <= |ts| && ParseChain(ts, i, env, d).Some? && cx.locals == |env.locals|
    ensures var p := ParseChain(ts, i, env, d).value;
      Shaped(p.s, cx) && |p.locals| == After(p.s, cx).locals
    decreases |ts| - i, 6
  {
    hide ParseIf, ParseBlock, After;
    if Peek(ts, i) == TElif {
      IfShaped(ts, i + 1, env, d, cx);
    } else if Peek(ts, i) == TElse {
      BlockShaped(ts, i + 1, env, d, cx);
    } else {
      ThenAfter(Skip, Skip, cx);
    }
  }

  lemma {:induction false} ForShaped(ts: seq<Token>, i: nat, env: Env, d: nat, cx: Ctx)
    requires i <= |ts| && ParseFor(ts, i, env, d).Some? && cx.locals == |env.locals|
    ensures var p := ParseFor(ts, i, env, d).value;
      Shaped(p.s, cx) && |p.locals| == After(p.s, cx).locals
    decreases |ts| - i, 6
  {
    hide ParseAt, ParseIter, ParseCondFor, After;
    LoopLocals(ParseFor(ts, i, env, d).value.s, cx);
    if Peek(ts, i + 1) == TVar {
      IterShaped(ts, i + 2, env, d, cx);
    } else if Peek(ts, i + 1).TId? && Peek(ts, i + 2) == TIn {
      IterShaped(ts, i + 1, env, d, cx);
    } else {
      CondForShaped(ts, i + 1, env, d, cx);
    }
  }

  lemma {:induction false} IterShaped(ts: seq<Token>, i: nat, env: Env, d: nat, cx: Ctx)
    requires i < |ts| && ts[i].TId? && ParseIter(ts, i, env, d).Some? && cx.locals == |env.locals|
    ensures ParseIter(ts, i, env, d).value.s.ForIn? && Shaped(ParseIter(ts, i, env, d).value.s, cx)
    decreases |ts| - i, 5
  {
    hide ParseAt, ParseBlock, After, Hidden;
    var locals, reuse := WithLoopVar(env.locals, ts[i].name), Find(env.locals, ts[i].name);
    var j := ParseAt(0, ts, i + 2, env.(locals := locals)).value.1;
    BlockShaped(ts, j + 1, env.(locals := locals + Hidden(d)), d + 1, InLoop(ForCtx(cx, reuse), 0, 0));
  }

  lemma {:induction false} CondForShaped(ts: seq<Token>, i: nat, env: Env, d: nat, cx: Ctx)
    requires i <= |ts| && ParseCondFor(ts, i, env, d).Some? && cx.locals == |env.locals|
    ensures ParseCondFor(ts, i, env, d).value.s.ForCond? && Shaped(ParseCondFor(ts, i, env, d).value.s, cx)
    decreases |ts| - i, 5
  {
    hide ParseAt, ParseBlock, After;
    var j := ParseAt(0, ts, i, env).value.1;
    BlockShaped(ts, j + 1, env, d + 1, InLoop(Enter(cx), 0, 0));
  }

  /** A parsed function is compiled to aligned code exactly when its body is straight. */
  lemma FuncFormed(ts: seq<Token>, i: nat, funcs: seq<string>)
    requires i <= |ts| && ParseFunc(ts, i, funcs).Some?
    ensures var fn := ParseFunc(ts, i, funcs).value.1;
      Formed(fn.body, BodyCtx(fn.arity)) <==> Straight(fn.body, -1)
  {
    hide ParseBody, ParseParams, Formed, Straight, After;
    var (params, j) := ParseParams(ts, i + 3, []).value;
    ThenAfter(Skip, Skip, BodyCtx(|params|));
    BodyShaped(ts, j + 1, Env(params, funcs + [ts[i + 1].name]), 0, Skip, BodyCtx(|params|));
    BodyFormedIff(ParseFunc(ts, i, funcs).value.1);
  }
}
