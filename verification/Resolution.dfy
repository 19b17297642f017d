/** Name resolution: every slot and function in a tree that the parser finds exists, so a program is
    sound for every run as soon as its calls have the right number of arguments, which the compiler
    does not check (src/compiler.c:264-291, 1087-1140, 1259-1273, 1665-1690, 2404-2478). */
module Resolution {
  import opened Defines
  import opened Language
  import opened Parsing
  import opened Codegen
  import opened Drift
  import opened Statements
  import M = Machine
  import Depths
  import Agreement
  import Activations
  import Simulation

  // ---- Expressions ----

  /** Slots below `n` and functions below `m` only. */
  ghost predicate Known(e: Expr, n: nat, m: nat)
    decreases e
  {
    match e
    case Var(x) => x < n
    case Neg(e1) => Known(e1, n, m)
    case Bin(_, l, r) => Known(l, n, m) && Known(r, n, m)
    case Cond(c, t, f) => Known(c, n, m) && Known(t, n, m) && Known(f, n, m)
    case List(es) => forall i :: 0 <= i < |es| ==> Known(es[i], n, m)
    case Index(a, i) => Known(a, n, m) && Known(i, n, m)
    case Span(a, lo, hi) => Known(a, n, m) && Known(lo, n, m) && Known(hi, n, m)
    case Call(f, args) => f < m && forall i :: 0 <= i < |args| ==> Known(args[i], n, m)
    case _ => true
  }

  ghost predicate AllKnown(es: seq<Expr>, n: nat, m: nat) {
    forall i :: 0 <= i < |es| ==> Known(es[i], n, m)
  }

  /** Every call passes as many arguments as the function has parameters. */
  ghost predicate Matched(e: Expr, fs: seq<Func>)
    decreases e
  {
    match e
    case Neg(e1) => Matched(e1, fs)
    case Bin(_, l, r) => Matched(l, fs) && Matched(r, fs)
    case Cond(c, t, f) => Matched(c, fs) && Matched(t, fs) && Matched(f, fs)
    case List(es) => forall i :: 0 <= i < |es| ==> Matched(es[i], fs)
    case Index(a, i) => Matched(a, fs) && Matched(i, fs)
    case Span(a, lo, hi) => Matched(a, fs) && Matched(lo, fs) && Matched(hi, fs)
    case Call(f, args) => (f < |fs| ==> |args| == fs[f].arity) && forall i :: 0 <= i < |args| ==> Matched(args[i], fs)
    case _ => true
  }

  lemma {:induction false} BoundIff(e: Expr, n: nat, fs: seq<Func>)
    ensures Depths.Bound(e, n, fs) <==> Known(e, n, |fs|) && Matched(e, fs)
    decreases e
  {
    match e
    case Neg(e1) => BoundIff(e1, n, fs);
    case Bin(_, l, r) => BoundIff(l, n, fs); BoundIff(r, n, fs);
    case Cond(c, t, f) => BoundIff(c, n, fs); BoundIff(t, n, fs); BoundIff(f, n, fs);
    case List(es) => forall i | 0 <= i < |es| ensures Depths.Bound(es[i], n, fs) <==> Known(es[i], n, |fs|) && Matched(es[i], fs) {
      BoundIff(es[i], n, fs);
    }
    case Index(a, i) => BoundIff(a, n, fs); BoundIff(i, n, fs);
    case Span(a, lo, hi) => BoundIff(a, n, fs); BoundIff(lo, n, fs); BoundIff(hi, n, fs);
    case Call(f, args) =>
      forall i | 0 <= i < |args| ensures Depths.Bound(args[i], n, fs) <==> Known(args[i], n, |fs|) && Matched(args[i], fs) {
        BoundIff(args[i], n, fs);
      }
    case _ =>
  }

  lemma {:induction false} KnownMore(e: Expr, n: nat, m: nat, m': nat)
    requires Known(e, n, m) && m <= m'
    ensures Known(e, n, m')
    decreases e
  {
    match e
    case Neg(e1) => KnownMore(e1, n, m, m');
    case Bin(_, l, r) => KnownMore(l, n, m, m'); KnownMore(r, n, m, m');
    case Cond(c, t, f) => KnownMore(c, n, m, m'); KnownMore(t, n, m, m'); KnownMore(f, n, m, m');
    case List(es) => AllKnownMore(es, n, m, m');
    case Index(a, i) => KnownMore(a, n, m, m'); KnownMore(i, n, m, m');
    case Span(a, lo, hi) => KnownMore(a, n, m, m'); KnownMore(lo, n, m, m'); KnownMore(hi, n, m, m');
    case Call(f, args) => AllKnownMore(args, n, m, m');
    case _ =>
  }

  lemma {:induction false} AllKnownMore(es: seq<Expr>, n: nat, m: nat, m': nat)
    requires AllKnown(es, n, m) && m <= m'
    ensures AllKnown(es, n, m')
    decreases es, 0
  {
    forall i | 0 <= i < |es| ensures Known(es[i], n, m') {
      KnownMore(es[i], n, m, m');
    }
  }

  // ---- Parsed expressions ----

  ghost predicate Fits(r: Parse<Expr>, env: Env) {
    r.Some? ==> Known(r.value.0, |env.locals|, |env.funcs|)
  }

  ghost predicate AllFit(r: Parse<seq<Expr>>, env: Env) {
    r.Some? ==> AllKnown(r.value.0, |env.locals|, |env.funcs|)
  }

  /** What an expression is parsed to names only locals and functions in scope. */
  lemma {:induction false} AtKnown(lvl: nat, ts: seq<Token>, i: nat, env: Env)
    requires i <= |ts| && lvl <= FACTOR
    ensures Fits(ParseAt(lvl, ts, i, env), env)
    decreases |ts| - i, 20 - lvl, 0
  {
    hide ParseTail, ParseCond, ParseFactor;
    if lvl == EXPRESSION {
      CondKnown(ts, i, env);
    } else if lvl == FACTOR {
      FactorKnown(ts, i, env);
    } else {
      AtKnown(lvl + 1, ts, i, env);
      match ParseAt(lvl + 1, ts, i, env)
      case None =>
      case Some((l, j)) => TailKnown(lvl, l, ts, j, env);
    }
  }

  lemma {:induction false} TailKnown(lvl: nat, l: Expr, ts: seq<Token>, j: nat, env: Env)
    requires j <= |ts| && 1 <= lvl < FACTOR && Known(l, |env.locals|, |env.funcs|)
    ensures Fits(ParseTail(lvl, l, ts, j, env), env)
    decreases |ts| - j, 20, 0
  {
    hide ParseAt;
    var op := OpAt(lvl, Peek(ts, j));
    if op.Some? {
      AtKnown(lvl + 1, ts, j + 1, env);
      match ParseAt(lvl + 1, ts, j + 1, env)
      case None =>
      case Some((r, k)) =>
        if lvl != RANGE {
          TailKnown(lvl, Bin(op.value, l, r), ts, k, env);
        }
    }
  }

  lemma {:induction false} CondKnown(ts: seq<Token>, i: nat, env: Env)
    requires i <= |ts|
    ensures Fits(ParseCond(ts, i, env), env)
    decreases |ts| - i, 19, 1
  {
    hide ParseAt, ParseArms;
    AtKnown(1, ts, i, env);
    match ParseAt(1, ts, i, env)
    case None =>
    case Some((c, j)) =>
      if Peek(ts, j) == TQuestion {
        ArmsKnown(c, ts, j + 1, env);
      }
  }

  lemma {:induction false} ArmsKnown(c: Expr, ts: seq<Token>, j: nat, env: Env)
    requires j <= |ts| && Known(c, |env.locals|, |env.funcs|)
    ensures Fits(ParseArms(c, ts, j, env), env)
    decreases |ts| - j, 20, 1
  {
    hide ParseAt;
    AtKnown(0, ts, j, env);
    match ParseAt(0, ts, j, env)
    case None =>
    case Some((t, k)) =>
      if Peek(ts, k) == TElse {
        AtKnown(0, ts, k + 1, env);
      }
  }

  lemma NegatedKnown(e: Expr, n: nat, m: nat)
    requires Known(e, n, m)
    ensures Known(Negated(e), n, m)
  {
    assert Known(Lit(0), n, m);
  }

  lemma {:induction false} FactorKnown(ts: seq<Token>, i: nat, env: Env)
    requires i <= |ts|
    ensures Fits(ParseFactor(ts, i, env), env)
    decreases |ts| - i, 10, 0
  {
    hide ParseAt, ParseItems, ParseName;
    var t := Peek(ts, i);
    if t == TMinus {
      if Peek(ts, i + 1).TNum? {
        assert Known(Lit(ts[i + 1].n), |env.locals|, |env.funcs|);
      } else {
        FactorKnown(ts, i + 1, env);
        match ParseFactor(ts, i + 1, env)
        case None =>
        case Some((e, j)) => NegatedKnown(e, |env.locals|, |env.funcs|);
      }
    } else if t == TLBracket {
      ItemsKnown(ts, i + 1, env, TRBracket);
    } else if t.TId? {
      NameKnown(ts, i, env);
    } else if t == TLParen {
      AtKnown(0, ts, i + 1, env);
    }
  }

  lemma {:induction false} NameKnown(ts: seq<Token>, i: nat, env: Env)
    requires i < |ts| && ts[i].TId?
    ensures Fits(ParseName(ts, i, env), env)
    decreases |ts| - i, 9, 0
  {
    hide ParseItems, ParseSubs;
    if Peek(ts, i + 1) == TLParen {
      ItemsKnown(ts, i + 2, env, TRParen);
    } else {
      match Find(env.locals, ts[i].name)
      case None =>
      case Some(x) => SubsKnown(Var(x), ts, i + 1, env);
    }
  }

  lemma {:induction false} SubsKnown(a: Expr, ts: seq<Token>, j: nat, env: Env)
    requires j <= |ts| && Known(a, |env.locals|, |env.funcs|)
    ensures Fits(ParseSubs(a, ts, j, env), env)
    decreases |ts| - j, 20, 0
  {
    hide ParseAt;
    if Peek(ts, j) == TLBracket {
      AtKnown(0, ts, j + 1, env);
      match ParseAt(0, ts, j + 1, env)
      case None =>
      case Some((x, k)) =>
        if Peek(ts, k) == TColon {
          AtKnown(0, ts, k + 1, env);
          match ParseAt(0, ts, k + 1, env)
          case None =>
          case Some((y, m)) =>
            if Peek(ts, m) == TRBracket {
              SubsKnown(Span(a, x, y), ts, m + 1, env);
            }
        } else if Peek(ts, k) == TRBracket {
          SubsKnown(Index(a, x), ts, k + 1, env);
        }
    }
  }

  lemma {:induction false} ItemsKnown(ts: seq<Token>, i: nat, env: Env, close: Token)
    requires i <= |ts| && close != TEof
    ensures AllFit(ParseItems(ts, i, env, close), env)
    decreases |ts| - i, 20, 1
  {
    hide ParseAt, ParseMore;
    if Peek(ts, i) != close {
      AtKnown(0, ts, i, env);
      match ParseAt(0, ts, i, env)
      case None =>
      case Some((e, j)) => MoreKnown([e], ts, j, env, close);
    }
  }

  lemma {:induction false} MoreKnown(es: seq<Expr>, ts: seq<Token>, j: nat, env: Env, close: Token)
    requires j <= |ts| && close != TEof && AllKnown(es, |env.locals|, |env.funcs|)
    ensures AllFit(ParseMore(es, ts, j, env, close), env)
    decreases |ts| - j, 20, 0
  {
    hide ParseAt;
    if Peek(ts, j) == TComma {
      AtKnown(0, ts, j + 1, env);
      match ParseAt(0, ts, j + 1, env)
      case None =>
      case Some((e, k)) => MoreKnown(es + [e], ts, k, env, close);
    }
  }

  // ---- Statements ----

  ghost predicate StmtKnown(s: Stmt, cx: Ctx, m: nat)
    decreases s
  {
    match s
    case Then(a, b) => StmtKnown(a, cx, m) && StmtKnown(b, After(a, cx), m)
    case Decl(e) => Known(e, cx.locals, m)
    case Assign(x, e) => x < cx.locals && Known(e, cx.locals, m)
    case Do(f, args) => f < m && AllKnown(args, cx.locals, m)
    case Blk(b) => StmtKnown(b, Enter(cx), m)
    case If(c, t, e) => Known(c, cx.locals, m) && StmtKnown(t, cx, m) && StmtKnown(e, cx.(depth := After(t, cx).depth), m)
    case Forever(b) => StmtKnown(b, InLoop(cx, 0, 0), m)
    case ForIn(reuse, e, b) =>
      && (reuse.Some? ==> reuse.value < cx.locals) && Known(e, cx.locals + (if reuse.None? then 1 else 0), m)
      && StmtKnown(b, InLoop(ForCtx(cx, reuse), 0, 0), m)
    case ForCond(c, b) => Known(c, cx.locals, m) && StmtKnown(b, CondCtx(cx, 0, 0), m)
    case Ret(e) => Known(e, cx.locals, m)
    case _ => true
  }

  ghost predicate StmtMatched(s: Stmt, fs: seq<Func>)
    decreases s
  {
    match s
    case Then(a, b) => StmtMatched(a, fs) && StmtMatched(b, fs)
    case Decl(e) => Matched(e, fs)
    case Assign(_, e) => Matched(e, fs)
    case Do(f, args) => (f < |fs| ==> |args| == fs[f].arity) && forall i :: 0 <= i < |args| ==> Matched(args[i], fs)
    case Blk(b) => StmtMatched(b, fs)
    case If(c, t, e) => Matched(c, fs) && StmtMatched(t, fs) && StmtMatched(e, fs)
    case Forever(b) => StmtMatched(b, fs)
    case ForIn(_, e, b) => Matched(e, fs) && StmtMatched(b, fs)
    case ForCond(c, b) => Matched(c, fs) && StmtMatched(b, fs)
    case Ret(e) => Matched(e, fs)
    case _ => true
  }

  lemma {:induction false} StmtBoundIff(s: Stmt, cx: Ctx, fs: seq<Func>)
    ensures Agreement.StmtBound(s, cx, fs, false) <==> StmtKnown(s, cx, |fs|) && StmtMatched(s, fs)
    decreases s
  {
    hide After, Known, Matched, Depths.Bound;
    match s
    case Then(a, b) => StmtBoundIff(a, cx, fs); StmtBoundIff(b, After(a, cx), fs);
    case Decl(e) => BoundIff(e, cx.locals, fs);
    case Assign(_, e) => BoundIff(e, cx.locals, fs);
    case Do(f, args) =>
      forall i | 0 <= i < |args| ensures Depths.Bound(args[i], cx.locals, fs) <==> Known(args[i], cx.locals, |fs|) && Matched(args[i], fs) {
        BoundIff(args[i], cx.locals, fs);
      }
    case Blk(b) => StmtBoundIff(b, Enter(cx), fs);
    case If(c, t, e) => BoundIff(c, cx.locals, fs); StmtBoundIff(t, cx, fs); StmtBoundIff(e, cx.(depth := After(t, cx).depth), fs);
    case Forever(b) => StmtBoundIff(b, InLoop(cx, 0, 0), fs);
    case ForIn(reuse, e, b) =>
      BoundIff(e, cx.locals + (if reuse.None? then 1 else 0), fs);
      StmtBoundIff(b, InLoop(ForCtx(cx, reuse), 0, 0), fs);
    case ForCond(c, b) => BoundIff(c, cx.locals, fs); StmtBoundIff(b, CondCtx(cx, 0, 0), fs);
    case Ret(e) => BoundIff(e, cx.locals, fs);
    case _ =>
  }

  lemma {:induction false} StmtKnownMore(s: Stmt, cx: Ctx, m: nat, m': nat)
    requires StmtKnown(s, cx, m) && m <= m'
    ensures StmtKnown(s, cx, m')
    decreases s
  {
    hide After, Known;
    match s
    case Then(a, b) => StmtKnownMore(a, cx, m, m'); StmtKnownMore(b, After(a, cx), m, m');
    case Decl(e) => KnownMore(e, cx.locals, m, m');
    case Assign(_, e) => KnownMore(e, cx.locals, m, m');
    case Do(f, args) => AllKnownMore(args, cx.locals, m, m');
    case Blk(b) => StmtKnownMore(b, Enter(cx), m, m');
    case If(c, t, e) =>
      KnownMore(c, cx.locals, m, m');
      StmtKnownMore(t, cx, m, m');
      StmtKnownMore(e, cx.(depth := After(t, cx).depth), m, m');
    case Forever(b) => StmtKnownMore(b, InLoop(cx, 0, 0), m, m');
    case ForIn(reuse, e, b) =>
      KnownMore(e, cx.locals + (if reuse.None? then 1 else 0), m, m');
      StmtKnownMore(b, InLoop(ForCtx(cx, reuse), 0, 0), m, m');
    case ForCond(c, b) => KnownMore(c, cx.locals, m, m'); StmtKnownMore(b, CondCtx(cx, 0, 0), m, m');
    case Ret(e) => KnownMore(e, cx.locals, m, m');
    case _ =>
  }

  // ---- Parsed statements ----

  /** As for expressions: only locals and functions in scope. */
  lemma {:induction false} ParsedKnown(ts: seq<Token>, i: nat, env: Env, d: nat, cx: Ctx)
    requires i <= |ts| && ParseStmt(ts, i, env, d).Some? && cx.locals == |env.locals|
    ensures StmtKnown(ParseStmt(ts, i, env, d).value.s, cx, |env.funcs|)
    decreases |ts| - i, 2
  {
    hide ParseAt, ParseBlock, ParseIf, ParseFor, After;
    var t := Peek(ts, i);
    if t == TFor {
      ForKnown(ts, i + 1, env, d, cx);
    } else if t == TIf {
      IfKnown(ts, i + 1, env, d, cx);
    } else if t == TForever {
      BlockKnown(ts, i + 1, env, d + 1, InLoop(cx, 0, 0));
    } else {
      SimpleKnown(ts, i, env, d, cx);
    }
  }

  lemma SimpleKnown(ts: seq<Token>, i: nat, env: Env, d: nat, cx: Ctx)
    requires i <= |ts| && ParseStmt(ts, i, env, d).Some? && cx.locals == |env.locals|
    requires Peek(ts, i) !in {TFor, TIf, TForever}
    ensures StmtKnown(ParseStmt(ts, i, env, d).value.s, cx, |env.funcs|)
  {
    hide ParseAt, ParseItems, After;
    var t := Peek(ts, i);
    if t == TVar {
      if i + 3 <= |ts| { AtKnown(0, ts, i + 3, env); }
    } else if t.TId? {
      if Peek(ts, i + 1) == TAssign {
        AtKnown(0, ts, i + 2, env);
      } else if Peek(ts, i + 1) == TLParen {
        ItemsKnown(ts, i + 2, env, TRParen);
      }
    } else if t == TRet {
      AtKnown(0, ts, i + 1, env);
    }
  }

  lemma {:induction false} BodyKnown(ts: seq<Token>, i: nat, env: Env, d: nat, done: Stmt, cx: Ctx)
    requires i <= |ts| && ParseBody(ts, i, env, d, done).Some?
    requires Shaped(done, cx) && StmtKnown(done, cx, |env.funcs|) && |env.locals| == After(done, cx).locals
    ensures StmtKnown(ParseBody(ts, i, env, d, done).value.s, cx, |env.funcs|)
    decreases |ts| - i, 3
  {
    hide ParseStmt, After;
    if Peek(ts, i) != TRBrace && Peek(ts, i) != TEof {
      var p := ParseStmt(ts, i, env, d).value;
      StmtShaped(ts, i, env, d, After(done, cx));
      ParsedKnown(ts, i, env, d, After(done, cx));
      ThenAfter(done, p.s, cx);
      BodyKnown(ts, p.end, env.(locals := p.locals), d, Then(done, p.s), cx);
    }
  }

  lemma {:induction false} BlockKnown(ts: seq<Token>, i: nat, env: Env, d: nat, cx: Ctx)
    requires i <= |ts| && ParseBlock(ts, i, env, d).Some? && cx.locals == |env.locals|
    ensures var p := ParseBlock(ts, i, env, d).value;
      p.s.Blk? && StmtKnown(p.s, cx, |env.funcs|) && StmtKnown(p.s.body, Enter(cx), |env.funcs|)
    decreases |ts| - i, 4
  {
    hide ParseBody, After;
    ThenAfter(Skip, Skip, Enter(cx));
    BodyKnown(ts, i + 1, env, d, Skip, Enter(cx));
  }

  lemma {:induction false} IfKnown(ts: seq<Token>, i: nat, env: Env, d: nat, cx: Ctx)
    requires i <= |ts| && ParseIf(ts, i, env, d).Some? && cx.locals == |env.locals|
    ensures StmtKnown(ParseIf(ts, i, env, d).value.s, cx, |env.funcs|)
    decreases |ts| - i, 5
  {
    hide ParseAt, ParseBlock, ParseChain, After, Known;
    var j := ParseAt(0, ts, i, env).value.1;
    var t := ParseBlock(ts, j, env, d).value;
    AtKnown(0, ts, i, env);
    BlockKnown(ts, j, env, d, cx);
    ChainKnown(ts, t.end, env, d, cx.(depth := After(t.s, cx).depth));
  }

  lemma {:induction false} ChainKnown(ts: seq<Token>, i: nat, env: Env, d: nat, cx: Ctx)
    requires i <= |ts| && ParseChain(ts, i, env, d).Some? && cx.locals == |env.locals|
    ensures StmtKnown(ParseChain(ts, i, env, d).value.s, cx, |env.funcs|)
    decreases |ts| - i, 6
  {
    hide ParseIf, ParseBlock, After;
    if Peek(ts, i) == TElif {
      IfKnown(ts, i + 1, env, d, cx);
    } else if Peek(ts, i) == TElse {
      BlockKnown(ts, i + 1, env, d, cx);
    }
  }

  lemma {:induction false} ForKnown(ts: seq<Token>, i: nat, env: Env, d: nat, cx: Ctx)
    requires i <= |ts| && ParseFor(ts, i, env, d).Some? && cx.locals == |env.locals|
    ensures StmtKnown(ParseFor(ts, i, env, d).value.s, cx, |env.funcs|)
    decreases |ts| - i, 6
  {
    hide ParseAt, ParseIter, ParseCondFor, After, StmtKnown;
    if Peek(ts, i + 1) == TVar {
      IterKnown(ts, i + 2, env, d, cx);
    } else if Peek(ts, i + 1).TId? && Peek(ts, i + 2) == TIn {
      IterKnown(ts, i + 1, env, d, cx);
    } else {
      CondForKnown(ts, i + 1, env, d, cx);
    }
  }

  lemma {:induction false} IterKnown(ts: seq<Token>, i: nat, env: Env, d: nat, cx: Ctx)
    requires i < |ts| && ts[i].TId? && ParseIter(ts, i, env, d).Some? && cx.locals == |env.locals|
    ensures StmtKnown(ParseIter(ts, i, env, d).value.s, cx, |env.funcs|)
    decreases |ts| - i, 5
  {
    hide ParseAt, ParseBlock, After, Hidden, Known;
    var locals, reuse := WithLoopVar(env.locals, ts[i].name), Find(env.locals, ts[i].name);
    var j := ParseAt(0, ts, i + 2, env.(locals := locals)).value.1;
    AtKnown(0, ts, i + 2, env.(locals := locals));
    BlockKnown(ts, j + 1, env.(locals := locals + Hidden(d)), d + 1, InLoop(ForCtx(cx, reuse), 0, 0));
  }

  lemma {:induction false} CondForKnown(ts: seq<Token>, i: nat, env: Env, d: nat, cx: Ctx)
    requires i <= |ts| && ParseCondFor(ts, i, env, d).Some? && cx.locals == |env.locals|
    ensures StmtKnown(ParseCondFor(ts, i, env, d).value.s, cx, |env.funcs|)
    decreases |ts| - i, 5
  {
    hide ParseAt, ParseBlock, After, Known;
    var j := ParseAt(0, ts, i, env).value.1;
    AtKnown(0, ts, i, env);
    BlockKnown(ts, j + 1, env, d + 1, InLoop(Enter(cx), 0, 0));
  }

  // ---- Programs ----

  ghost predicate FuncKnown(fn: Func, m: nat) {
    StmtKnown(fn.body, BodyCtx(fn.arity), m)
  }

  lemma FunctionKnown(ts: seq<Token>, i: nat, funcs: seq<string>)
    requires i <= |ts| && ParseFunc(ts, i, funcs).Some?
    ensures FuncKnown(ParseFunc(ts, i, funcs).value.1, |funcs| + 1)
  {
    hide ParseBody, ParseParams, After;
    var (params, j) := ParseParams(ts, i + 3, []).value;
    ThenAfter(Skip, Skip, BodyCtx(|params|));
    BodyKnown(ts, j + 1, Env(params, funcs + [ts[i + 1].name]), 0, Skip, BodyCtx(|params|));
  }

  lemma {:induction false} ProgramKnown(ts: seq<Token>, i: nat, funcs: seq<string>, fs: seq<Func>)
    requires i <= |ts| && |funcs| == |fs| && ParseProgram(ts, i, funcs, fs).Some?
    requires forall f :: 0 <= f < |fs| ==> FuncKnown(fs[f], |fs|)
    ensures var all := ParseProgram(ts, i, funcs, fs).value;
      forall f :: 0 <= f < |all| ==> FuncKnown(all[f], |all|)
    decreases |ts| - i
  {
    hide ParseFunc;
    if Peek(ts, i) != TEof {
      var (name, fn, j) := ParseFunc(ts, i, funcs).value;
      FunctionKnown(ts, i, funcs);
      forall f | 0 <= f < |fs| ensures FuncKnown(fs[f], |fs| + 1) {
        StmtKnownMore(fs[f].body, BodyCtx(fs[f].arity), |fs|, |fs| + 1);
      }
      ProgramKnown(ts, j, funcs + [name], fs + [fn]);
    }
  }

  /** A compiled program is sound, so that all its runs are consistent, exactly when every call in it
      passes the number of arguments that the function takes. */
  lemma ProgramSoundIff(ts: seq<Token>, p: M.Program, ln: Link, fs: seq<Func>, home: int)
    requires ParseProgram(ts, 0, [], []) == Some(fs) && Simulation.Linked(p, ln, fs) && |ln.addrs| == |fs|
    ensures Activations.Sound(Agreement.Build(p, ln, fs, false, home)) <==> forall f :: 0 <= f < |fs| ==> StmtMatched(fs[f].body, fs)
  {
    hide Simulation.Linked, Agreement.StmtBound, StmtKnown, StmtMatched, ParseProgram;
    ProgramKnown(ts, 0, [], []);
    forall f | 0 <= f < |fs|
      ensures Agreement.StmtBound(fs[f].body, BodyCtx(fs[f].arity), fs, false) <==> StmtMatched(fs[f].body, fs)
    {
      StmtBoundIff(fs[f].body, BodyCtx(fs[f].arity), fs);
    }
  }
}
