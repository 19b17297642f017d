/** The expression grammar as a function from tokens to trees, and the printer it inverts. One level
    per parsing function: expression, logic_or_expr, logic_and_expr, relation_expr, range_expr,
    additive_expr, term and factor (src/compiler.c:873-896, 1087-1254). */
module Parsing {
  import opened Defines
  import opened Language

  datatype Token = TNum(n: nat) | TId(name: string) | Mark(kind: int)

  const TTrue := Mark(0)
  const TFalse := Mark(1)
  const TMinus := Mark(2)
  const TPlus := Mark(3)
  const TMul := Mark(4)
  const TDiv := Mark(5)
  const TMod := Mark(6)
  const TLt := Mark(7)
  const TGt := Mark(8)
  const TLe := Mark(9)
  const TGe := Mark(10)
  const TEq := Mark(11)
  const TNeq := Mark(12)
  const TAnd := Mark(13)
  const TOr := Mark(14)
  const TRange := Mark(15)
  const TQuestion := Mark(16)
  const TElse := Mark(17)
  const TLBracket := Mark(18)
  const TRBracket := Mark(19)
  const TLParen := Mark(20)
  const TRParen := Mark(21)
  const TComma := Mark(22)
  const TColon := Mark(23)
  const TAssign := Mark(24)
  const TLBrace := Mark(25)
  const TRBrace := Mark(26)
  const TVar := Mark(27)
  const TFor := Mark(28)
  const TIn := Mark(29)
  const TIf := Mark(30)
  const TElif := Mark(31)
  const TForever := Mark(32)
  const TBreak := Mark(33)
  const TContinue := Mark(34)
  const TRet := Mark(35)
  const TFn := Mark(36)
  const TEof := Mark(37)

  /** The names of the locals, slot by slot, and of the functions declared so far. */
  datatype Env = Env(locals: seq<string>, funcs: seq<string>)

  /** find_local and find_func: the oldest entry of that name. */
  function Find(names: seq<string>, x: string): (r: Option<nat>)
    ensures r.Some? ==> r.value < |names| && names[r.value] == x && x !in names[..r.value]
    ensures r.None? ==> x !in names
  {
    if names == [] then None
    else if names[0] == x then Some(0)
    else
      match Find(names[1..], x)
      case None => None
      case Some(i) => assert names[..i + 1] == [names[0]] + names[1..][..i]; Some(i + 1)
  }

  function Peek(ts: seq<Token>, i: nat): Token {
    if i < |ts| then ts[i] else TEof
  }

  const EXPRESSION := 0
  const RANGE := 4
  const FACTOR := 7

  /** The binary operator that token `t` stands for at grammar level `lvl`. */
  function OpAt(lvl: nat, t: Token): Option<BinOp> {
    if lvl == 1 then
      if t == TOr then Some(Or) else None
    else if lvl == 2 then
      if t == TAnd then Some(And) else None
    else if lvl == 3 then
      if t == TLt then Some(Lt)
      else if t == TGt then Some(Gt)
      else if t == TLe then Some(Le)
      else if t == TGe then Some(Ge)
      else if t == TEq then Some(Eq)
      else if t == TNeq then Some(Neq) else None
    else if lvl == 4 then
      if t == TRange then Some(To) else None
    else if lvl == 5 then
      if t == TPlus then Some(Add)
      else if t == TMinus then Some(Sub) else None
    else if lvl == 6 then
      if t == TMul then Some(Mul)
      else if t == TDiv then Some(Div)
      else if t == TMod then Some(Mod) else None
    else None
  }

  type Parse<T> = Option<(T, nat)>

  predicate Advances<T>(r: Parse<T>, i: nat, ts: seq<Token>) {
    r.Some? ==> i < r.value.1 <= |ts|
  }

  /** From token `i` on, at one grammar level. */
  function ParseAt(lvl: nat, ts: seq<Token>, i: nat, env: Env): (r: Parse<Expr>)
    requires i <= |ts| && lvl <= FACTOR
    ensures Advances(r, i, ts)
    decreases |ts| - i, 20 - lvl, 0
  {
    if lvl == EXPRESSION then ParseCond(ts, i, env)
    else if lvl == FACTOR then ParseFactor(ts, i, env)
    else
      match ParseAt(lvl + 1, ts, i, env)
      case None => None
      case Some((l, j)) => ParseTail(lvl, l, ts, j, env)
  }

  /** The loop over the operators of one level; a range takes at most one. */
  function ParseTail(lvl: nat, l: Expr, ts: seq<Token>, j: nat, env: Env): (r: Parse<Expr>)
    requires j <= |ts| && 1 <= lvl < FACTOR
    ensures r.Some? ==> j <= r.value.1 <= |ts|
    decreases |ts| - j, 20, 0
  {
    var op := OpAt(lvl, Peek(ts, j));
    if op.None? then Some((l, j))
    else
      match ParseAt(lvl + 1, ts, j + 1, env)
      case None => None
      case Some((r, k)) =>
        if lvl == RANGE then Some((Bin(To, l, r), k)) else ParseTail(lvl, Bin(op.value, l, r), ts, k, env)
  }

  function ParseCond(ts: seq<Token>, i: nat, env: Env): (r: Parse<Expr>)
    requires i <= |ts|
    ensures Advances(r, i, ts)
    decreases |ts| - i, 19, 1
  {
    match ParseAt(1, ts, i, env)
    case None => None
    case Some((c, j)) =>
      if Peek(ts, j) != TQuestion then Some((c, j)) else ParseArms(c, ts, j + 1, env)
  }

  /** What follows the question mark. */
  function ParseArms(c: Expr, ts: seq<Token>, j: nat, env: Env): (r: Parse<Expr>)
    requires j <= |ts|
    ensures Advances(r, j, ts)
    decreases |ts| - j, 20, 1
  {
    match ParseAt(0, ts, j, env)
    case None => None
    case Some((t, k)) =>
      if Peek(ts, k) != TElse then None
      else
        match ParseAt(0, ts, k + 1, env)
        case None => None
        case Some((f, m)) => Some((Cond(c, t, f), m))
  }

  /** The operand of a minus sign: a number folds into the constant. */
  function Negated(e: Expr): Expr {
    if e.Lit? then Bin(Sub, Lit(0), e) else Neg(e)
  }

  function ParseFactor(ts: seq<Token>, i: nat, env: Env): (r: Parse<Expr>)
    requires i <= |ts|
    ensures Advances(r, i, ts)
    decreases |ts| - i, 10, 0
  {
    var t := Peek(ts, i);
    if t.TNum? then Some((Lit(t.n), i + 1))
    else if t == TTrue then Some((Bool(true), i + 1))
    else if t == TFalse then Some((Bool(false), i + 1))
    else if t == TMinus then
      if Peek(ts, i + 1).TNum? then Some((Neg(Lit(ts[i + 1].n)), i + 2))
      else
        match ParseFactor(ts, i + 1, env)
        case None => None
        case Some((e, j)) => Some((Negated(e), j))
    else if t == TLBracket then
      match ParseItems(ts, i + 1, env, TRBracket)
      case None => None
      case Some((es, j)) => Some((List(es), j))
    else if t.TId? then ParseName(ts, i, env)
    else if t == TLParen then
      match ParseAt(0, ts, i + 1, env)
      case None => None
      case Some((e, j)) => if Peek(ts, j) == TRParen then Some((e, j + 1)) else None
    else None
  }

  /** A call, or a variable followed by any number of subscripts. */
  function ParseName(ts: seq<Token>, i: nat, env: Env): (r: Parse<Expr>)
    requires i < |ts| && ts[i].TId?
    ensures Advances(r, i, ts)
    decreases |ts| - i, 9, 0
  {
    if Peek(ts, i + 1) == TLParen then
      match ParseItems(ts, i + 2, env, TRParen)
      case None => None
      case Some((es, j)) =>
        match Find(env.funcs, ts[i].name)
        case None => None
        case Some(f) => Some((Call(f, es), j))
    else
      match Find(env.locals, ts[i].name)
      case None => None
      case Some(x) => ParseSubs(Var(x), ts, i + 1, env)
  }

  /** `a` followed by subscripts. */
  function ParseSubs(a: Expr, ts: seq<Token>, j: nat, env: Env): (r: Parse<Expr>)
    requires j <= |ts|
    ensures r.Some? ==> j <= r.value.1 <= |ts|
    decreases |ts| - j, 20, 0
  {
    if Peek(ts, j) != TLBracket then Some((a, j))
    else
      match ParseAt(0, ts, j + 1, env)
      case None => None
      case Some((x, k)) =>
        if Peek(ts, k) == TColon then
          match ParseAt(0, ts, k + 1, env)
          case None => None
          case Some((y, m)) => if Peek(ts, m) == TRBracket then ParseSubs(Span(a, x, y), ts, m + 1, env) else None
        else if Peek(ts, k) == TRBracket then ParseSubs(Index(a, x), ts, k + 1, env)
        else None
  }

  /** Expressions separated by commas, up to and including `close`. */
  function ParseItems(ts: seq<Token>, i: nat, env: Env, close: Token): (r: Parse<seq<Expr>>)
    requires i <= |ts| && close != TEof
    ensures Advances(r, i, ts)
    decreases |ts| - i, 20, 1
  {
    if Peek(ts, i) == close then Some(([], i + 1))
    else
      match ParseAt(0, ts, i, env)
      case None => None
      case Some((e, j)) => ParseMore([e], ts, j, env, close)
  }

  function ParseMore(es: seq<Expr>, ts: seq<Token>, j: nat, env: Env, close: Token): (r: Parse<seq<Expr>>)
    requires j <= |ts| && close != TEof
    ensures Advances(r, j, ts)
    decreases |ts| - j, 20, 0
  {
    if Peek(ts, j) == TComma then
      match ParseAt(0, ts, j + 1, env)
      case None => None
      case Some((e, k)) => ParseMore(es + [e], ts, k, env, close)
    else if Peek(ts, j) == close then Some((es, j + 1))
    else None
  }

  // ---- Printing with as few parentheses as the levels allow ----

  function OpLevel(op: BinOp): (lvl: nat)
    ensures 1 <= lvl < FACTOR
  {
    match op
    case Or => 1
    case And => 2
    case To => 4
    case Add => 5
    case Sub => 5
    case Mul => 6
    case Div => 6
    case Mod => 6
    case _ => 3
  }

  function OpToken(op: BinOp): (t: Token)
    ensures OpAt(OpLevel(op), t) == Some(op)
    ensures forall lvl :: lvl != OpLevel(op) ==> OpAt(lvl, t) == None
  {
    match op
    case Or => TOr
    case And => TAnd
    case To => TRange
    case Add => TPlus
    case Sub => TMinus
    case Mul => TMul
    case Div => TDiv
    case Mod => TMod
    case Lt => TLt
    case Gt => TGt
    case Le => TLe
    case Ge => TGe
    case Eq => TEq
    case Neq => TNeq
  }

  function Level(e: Expr): (lvl: nat)
    ensures lvl <= FACTOR
  {
    if e.Cond? then EXPRESSION else if e.Bin? then OpLevel(e.op) else FACTOR
  }

  predicate Chain(e: Expr) {
    e.Var? || e.Index? || e.Span?
  }

  /** The expressions the grammar can spell: names resolve to their own slots, and only variables and
      their elements take subscripts. */
  predicate Spelled(e: Expr, env: Env)
    decreases e
  {
    match e
    case Lit(_) => true
    case Bool(_) => true
    case Var(x) => x < |env.locals| && Find(env.locals, env.locals[x]) == Some(x)
    case Neg(e1) => Spelled(e1, env)
    case Bin(_, l, r) => Spelled(l, env) && Spelled(r, env)
    case Cond(c, t, f) => Spelled(c, env) && Spelled(t, env) && Spelled(f, env)
    case List(es) => forall k :: 0 <= k < |es| ==> Spelled(es[k], env)
    case Index(a, i) => Chain(a) && Spelled(a, env) && Spelled(i, env)
    case Span(a, lo, hi) => Chain(a) && Spelled(a, env) && Spelled(lo, env) && Spelled(hi, env)
    case Call(f, args) =>
      && f < |env.funcs| && Find(env.funcs, env.funcs[f]) == Some(f)
      && forall k :: 0 <= k < |args| ==> Spelled(args[k], env)
  }

  function NameOf(names: seq<string>, k: nat): string {
    if k < |names| then names[k] else ""
  }

  function Show(e: Expr, lvl: nat, env: Env): seq<Token>
    decreases e, 1
  {
    if Level(e) < lvl then [TLParen] + Bare(e, env) + [TRParen] else Bare(e, env)
  }

  function Bare(e: Expr, env: Env): (s: seq<Token>)
    decreases e, 0
  {
    match e
    case Lit(n) => [TNum(n)]
    case Bool(b) => [if b then TTrue else TFalse]
    case Var(x) => [TId(NameOf(env.locals, x))]
    case Neg(e1) => [TMinus] + Show(e1, FACTOR, env)
    case Bin(op, l, r) =>
      var p := OpLevel(op);
      Show(l, if p == RANGE then p + 1 else p, env) + [OpToken(op)] + Show(r, p + 1, env)
    case Cond(c, t, f) => Show(c, 1, env) + [TQuestion] + Show(t, 0, env) + [TElse] + Show(f, 0, env)
    case List(es) => [TLBracket] + Items(es, env) + [TRBracket]
    case Index(a, i) => Bare(a, env) + [TLBracket] + Show(i, 0, env) + [TRBracket]
    case Span(a, lo, hi) => Bare(a, env) + [TLBracket] + Show(lo, 0, env) + [TColon] + Show(hi, 0, env) + [TRBracket]
    case Call(f, args) => [TId(NameOf(env.funcs, f)), TLParen] + Items(args, env) + [TRParen]
  }

  function Items(es: seq<Expr>, env: Env): seq<Token>
    decreases es, 0
  {
    if es == [] then [] else Show(es[0], 0, env) + MoreItems(es[1..], env)
  }

  function MoreItems(es: seq<Expr>, env: Env): seq<Token>
    decreases es, 0
  {
    if es == [] then [] else [TComma] + Show(es[0], 0, env) + MoreItems(es[1..], env)
  }

  // ---- The parser inverts the printer ----

  ghost predicate Here(ts: seq<Token>, i: nat, s: seq<Token>) {
    i + |s| <= |ts| && ts[i..i + |s|] == s
  }

  lemma HereSplit(ts: seq<Token>, i: nat, a: seq<Token>, b: seq<Token>)
    requires Here(ts, i, a + b)
    ensures Here(ts, i, a) && Here(ts, i + |a|, b)
  {
    assert ts[i..i + |a + b|][..|a|] == a && ts[i..i + |a + b|][|a|..] == b;
  }

  lemma HereToken(ts: seq<Token>, i: nat, t: Token, b: seq<Token>)
    requires Here(ts, i, [t] + b)
    ensures i < |ts| && ts[i] == t && Here(ts, i + 1, b)
  {
    HereSplit(ts, i, [t], b);
    assert ts[i..i + 1][0] == t;
  }

  lemma HereOne(ts: seq<Token>, i: nat, t: Token)
    requires Here(ts, i, [t])
    ensures i < |ts| && ts[i] == t
  {
    assert ts[i..i + 1][0] == t;
  }

  lemma HereAround(ts: seq<Token>, i: nat, a: Token, s: seq<Token>, b: Token)
    requires Here(ts, i, [a] + s + [b])
    ensures i < |ts| && ts[i] == a && Here(ts, i + 1, s) && i + 1 + |s| < |ts| && ts[i + 1 + |s|] == b
  {
    assert [a] + s + [b] == [a] + (s + [b]);
    HereToken(ts, i, a, s + [b]);
    HereSplit(ts, i + 1, s, [b]);
    assert [b] == [b] + [];
    HereToken(ts, i + 1 + |s|, b, []);
  }

  /** A token after which an expression of level `lvl` or deeper cannot go on. */
  ghost predicate Stops(lvl: nat, t: Token) {
    && t != TLBracket && t != TLParen
    && (forall k: nat {:trigger OpAt(k, t)} :: k > lvl ==> OpAt(k, t).None?)
    && (lvl == RANGE ==> OpAt(RANGE, t).None?)
    && (lvl == EXPRESSION ==> t != TQuestion)
  }

  /** What parsing at level `lvl` makes of a printed expression: the expression itself, with any
      further operators of that level still to be read. */
  ghost function Reading(lvl: nat, e: Expr, ts: seq<Token>, j: nat, env: Env): Parse<Expr>
    requires j <= |ts| && lvl <= FACTOR
  {
    if lvl == EXPRESSION || lvl == FACTOR then Some((e, j)) else ParseTail(lvl, e, ts, j, env)
  }

  lemma {:induction false} Reads(e: Expr, lvl: nat, ts: seq<Token>, i: nat, env: Env)
    requires lvl <= FACTOR && Spelled(e, env)
    requires Here(ts, i, Show(e, lvl, env)) && Stops(lvl, Peek(ts, i + |Show(e, lvl, env)|))
    ensures ParseAt(lvl, ts, i, env) == Reading(lvl, e, ts, i + |Show(e, lvl, env)|, env)
    decreases |Show(e, lvl, env)|, e, 2 + FACTOR - lvl
  {
    hide Bare, Show, Stops, OpAt, ParseAt, ParseFactor, ParseCond, ParseTail, Here;
    var s := Show(e, lvl, env);
    var j := i + |s|;
    HereBounds(ts, i, s);
    ShowCases(e, lvl, env);
    if lvl == FACTOR {
      if Level(e) < FACTOR {
        HereAround(ts, i, TLParen, Bare(e, env), TRParen);
        ShowCases(e, 0, env);
        StopsAt(TRParen, EXPRESSION);
        Reads(e, 0, ts, i + 1, env);
        FactorCases(ts, i, env);
      } else {
        ReadsFactor(e, ts, i, env);
      }
    } else if e.Cond? && lvl == EXPRESSION {
      ReadsCond(e, ts, i, env);
    } else if Level(e) == lvl {
      ReadsBin(e, ts, i, env);
    } else {
      StopsDeeper(lvl, Peek(ts, j));
      Reads(e, lvl + 1, ts, i, env);
      if lvl + 1 < FACTOR { TailStops(lvl + 1, e, ts, j, env); }
      if lvl == EXPRESSION {
        CondCases(ts, i, env);
        NoQuestion(Peek(ts, j));
      } else {
        Descend(lvl, e, ts, i, j, env);
      }
    }
  }

  lemma ShowCases(e: Expr, lvl: nat, env: Env)
    ensures Level(e) < lvl ==> Show(e, lvl, env) == [TLParen] + Bare(e, env) + [TRParen]
    ensures Level(e) >= lvl ==> Show(e, lvl, env) == Bare(e, env)
    ensures Level(e) != lvl ==> Show(e, lvl, env) == Show(e, lvl + 1, env)
  {
    hide Bare;
  }

  lemma NoQuestion(t: Token)
    requires Stops(EXPRESSION, t)
    ensures t != TQuestion
  {
  }

  lemma Descend(lvl: nat, e: Expr, ts: seq<Token>, i: nat, j: nat, env: Env)
    requires 1 <= lvl < FACTOR && i <= |ts| && j <= |ts| && ParseAt(lvl + 1, ts, i, env) == Some((e, j))
    ensures ParseAt(lvl, ts, i, env) == ParseTail(lvl, e, ts, j, env)
  {
    hide ParseTail, ParseCond, ParseFactor;
  }

  lemma HereBounds(ts: seq<Token>, i: nat, s: seq<Token>)
    requires Here(ts, i, s)
    ensures i + |s| <= |ts|
  {
  }

  lemma StopsAt(t: Token, lvl: nat)
    requires t in {TRParen, TRBracket, TColon, TComma, TElse} || (t == TQuestion && lvl > 0)
    ensures Stops(lvl, t) && OpAt(lvl, t).None?
  {
  }

  lemma StopsDeeper(lvl: nat, t: Token)
    requires Stops(lvl, t)
    ensures Stops(lvl + 1, t) && OpAt(lvl + 1, t).None?
  {
  }

  lemma TailStops(lvl: nat, e: Expr, ts: seq<Token>, j: nat, env: Env)
    requires 1 <= lvl < FACTOR && j <= |ts| && OpAt(lvl, Peek(ts, j)).None?
    ensures ParseTail(lvl, e, ts, j, env) == Some((e, j))
  {
    hide ParseAt;
  }

  /** Unfoldings of the parser, one step at a time. */
  lemma CondCases(ts: seq<Token>, i: nat, env: Env)
    requires i <= |ts|
    ensures ParseAt(0, ts, i, env) == ParseCond(ts, i, env)
    ensures var c := ParseAt(1, ts, i, env);
      c.Some? ==>
        if Peek(ts, c.value.1) != TQuestion then ParseCond(ts, i, env) == c
        else
          var t := ParseAt(0, ts, c.value.1 + 1, env);
          t.Some? && Peek(ts, t.value.1) == TElse ==>
            var f := ParseAt(0, ts, t.value.1 + 1, env);
            f.Some? ==> ParseCond(ts, i, env) == Some((Cond(c.value.0, t.value.0, f.value.0), f.value.1))
  {
    hide ParseFactor, ParseTail;
  }

  lemma FactorCases(ts: seq<Token>, i: nat, env: Env)
    requires i < |ts|
    ensures ParseAt(FACTOR, ts, i, env) == ParseFactor(ts, i, env)
    ensures ts[i].TId? ==> ParseFactor(ts, i, env) == ParseName(ts, i, env)
    ensures ts[i] == TLParen ==>
      var e := ParseAt(0, ts, i + 1, env);
      e.Some? && Peek(ts, e.value.1) == TRParen ==> ParseFactor(ts, i, env) == Some((e.value.0, e.value.1 + 1))
    ensures ts[i] == TLBracket ==>
      var es := ParseItems(ts, i + 1, env, TRBracket);
      es.Some? ==> ParseFactor(ts, i, env) == Some((List(es.value.0), es.value.1))
    ensures ts[i] == TMinus && !Peek(ts, i + 1).TNum? ==>
      var e := ParseFactor(ts, i + 1, env);
      e.Some? ==> ParseFactor(ts, i, env) == Some((Negated(e.value.0), e.value.1))
  {
    hide ParseName, ParseItems, ParseCond;
  }

  lemma {:induction false} ReadsCond(e: Expr, ts: seq<Token>, i: nat, env: Env)
    requires e.Cond? && Spelled(e, env)
    requires Here(ts, i, Bare(e, env)) && Stops(EXPRESSION, Peek(ts, i + |Bare(e, env)|))
    ensures ParseAt(0, ts, i, env) == Some((e, i + |Bare(e, env)|))
    decreases |Bare(e, env)|, e, 1
  {
    hide Show, Bare, Here, Stops, OpAt, ParseAt, ParseCond, ParseTail;
    CondParts(e, ts, i, env);
    var j := i + |Show(e.c, 1, env)|;
    var k := j + 1 + |Show(e.t, 0, env)|;
    StopsAt(TQuestion, 1);
    StopsAt(TElse, EXPRESSION);
    Reads(e.c, 1, ts, i, env);
    TailStops(1, e.c, ts, j, env);
    Reads(e.t, 0, ts, j + 1, env);
    Reads(e.e2, 0, ts, k + 1, env);
    CondCases(ts, i, env);
  }

  lemma CondParts(e: Expr, ts: seq<Token>, i: nat, env: Env)
    requires e.Cond? && Here(ts, i, Bare(e, env))
    ensures var sc, st, sf := Show(e.c, 1, env), Show(e.t, 0, env), Show(e.e2, 0, env);
      var j := i + |sc|;
      var k := j + 1 + |st|;
      && Here(ts, i, sc) && Peek(ts, j) == TQuestion && Here(ts, j + 1, st) && Peek(ts, k) == TElse
      && Here(ts, k + 1, sf) && |Bare(e, env)| == |sc| + |st| + |sf| + 2 && j < k < |ts|
  {
    hide Show, Here;
    var sc, st, sf := Show(e.c, 1, env), Show(e.t, 0, env), Show(e.e2, 0, env);
    assert Bare(e, env) == sc + ([TQuestion] + (st + ([TElse] + sf)));
    HereSplit(ts, i, sc, [TQuestion] + (st + ([TElse] + sf)));
    HereToken(ts, i + |sc|, TQuestion, st + ([TElse] + sf));
    HereSplit(ts, i + |sc| + 1, st, [TElse] + sf);
    HereToken(ts, i + |sc| + 1 + |st|, TElse, sf);
  }

  lemma {:induction false} ReadsBin(e: Expr, ts: seq<Token>, i: nat, env: Env)
    requires e.Bin? && Spelled(e, env)
    requires var p := OpLevel(e.op);
      Here(ts, i, Bare(e, env)) && Stops(p, Peek(ts, i + |Bare(e, env)|))
    ensures var p := OpLevel(e.op);
      i + |Bare(e, env)| <= |ts| && ParseAt(p, ts, i, env) == ParseTail(p, e, ts, i + |Bare(e, env)|, env)
    decreases |Bare(e, env)|, e, 1
  {
    hide Show, Here, ParseFactor, ParseCond, Stops;
    var p, t := OpLevel(e.op), OpToken(e.op);
    var q := if p == RANGE then p + 1 else p;
    var sl, sr := Show(e.l, q, env), Show(e.r, p + 1, env);
    assert Bare(e, env) == sl + ([t] + sr);
    HereSplit(ts, i, sl, [t] + sr);
    var k := i + |sl|;
    HereToken(ts, k, t, sr);
    var j := k + 1 + |sr|;
    HereBounds(ts, k + 1, sr);
    OpStops(e.op, q);
    Reads(e.l, q, ts, i, env);
    StopsDeeper(p, Peek(ts, j));
    Reads(e.r, p + 1, ts, k + 1, env);
    if p + 1 < FACTOR { TailStops(p + 1, e.r, ts, j, env); }
    if p == RANGE {
      TailStops(q, e.l, ts, k, env);
      RangeStops(Peek(ts, j));
      TailStops(p, e, ts, j, env);
    }
    TailStep(p, e, ts, k, j, env);
  }

  lemma OpStops(op: BinOp, q: nat)
    requires q == (if OpLevel(op) == RANGE then RANGE + 1 else OpLevel(op))
    ensures Stops(q, OpToken(op))
  {
  }

  lemma RangeStops(t: Token)
    requires Stops(RANGE, t)
    ensures OpAt(RANGE, t).None?
  {
  }

  lemma TailStep(p: nat, e: Expr, ts: seq<Token>, k: nat, j: nat, env: Env)
    requires e.Bin? && p == OpLevel(e.op) && k < |ts| && ts[k] == OpToken(e.op) && k < j <= |ts|
    requires ParseAt(p + 1, ts, k + 1, env) == Some((e.r, j))
    ensures ParseTail(p, e.l, ts, k, env) == if p == RANGE then Some((e, j)) else ParseTail(p, e, ts, j, env)
  {
    hide ParseAt;
  }

  lemma {:induction false} ReadsFactor(e: Expr, ts: seq<Token>, i: nat, env: Env)
    requires Level(e) == FACTOR && Spelled(e, env)
    requires Here(ts, i, Bare(e, env)) && Stops(FACTOR, Peek(ts, i + |Bare(e, env)|))
    ensures ParseAt(FACTOR, ts, i, env) == Some((e, i + |Bare(e, env)|))
    decreases |Bare(e, env)|, e, 1
  {
    hide Show, Here, ParseItems, ParseSubs, Stops, Items, OpAt, ParseCond, ParseTail;
    match e
    case Lit(n) => HereOne(ts, i, TNum(n));
    case Bool(b) => HereOne(ts, i, if b then TTrue else TFalse);
    case Neg(e1) =>
      var s1 := Show(e1, FACTOR, env);
      HereToken(ts, i, TMinus, s1);
      ReadsNeg(e1, ts, i, env);
    case List(es) =>
      HereAround(ts, i, TLBracket, Items(es, env), TRBracket);
      ReadsItems(es, ts, i + 1, env, TRBracket);
      FactorCases(ts, i, env);
    case Call(f, args) =>
      var name, rest := TId(NameOf(env.funcs, f)), [TLParen] + Items(args, env) + [TRParen];
      assert Bare(e, env) == [name] + rest;
      HereToken(ts, i, name, rest);
      HereAround(ts, i + 1, TLParen, Items(args, env), TRParen);
      ReadsItems(args, ts, i + 2, env, TRParen);
      FactorCases(ts, i, env);
    case Var(_) => ReadsName(e, ts, i, env);
    case Index(_, _) => ReadsName(e, ts, i, env);
    case Span(_, _, _) => ReadsName(e, ts, i, env);
    case _ =>
  }

  lemma {:induction false} ReadsName(e: Expr, ts: seq<Token>, i: nat, env: Env)
    requires Chain(e) && Spelled(e, env)
    requires Here(ts, i, Bare(e, env)) && Stops(FACTOR, Peek(ts, i + |Bare(e, env)|))
    ensures ParseAt(FACTOR, ts, i, env) == Some((e, i + |Bare(e, env)|))
    decreases |Bare(e, env)|, e, 0, 1
  {
    hide Bare, Spelled, Here, Stops, OpAt, ParseName, ParseSubs, ParseFactor, ParseAt;
    var j := i + |Bare(e, env)|;
    NoParen(Peek(ts, j));
    ReadsChain(e, ts, i, env);
    FactorCases(ts, i, env);
    SubsStop(e, ts, j, env);
  }

  lemma NoParen(t: Token)
    requires Stops(FACTOR, t)
    ensures t != TLParen && t != TLBracket
  {
  }

  lemma SubsStop(e: Expr, ts: seq<Token>, j: nat, env: Env)
    requires j <= |ts| && Peek(ts, j) != TLBracket
    ensures ParseSubs(e, ts, j, env) == Some((e, j))
  {
    hide ParseAt;
  }

  lemma {:induction false} ReadsNeg(e1: Expr, ts: seq<Token>, i: nat, env: Env)
    requires Spelled(e1, env) && i < |ts| && ts[i] == TMinus
    requires Here(ts, i + 1, Show(e1, FACTOR, env)) && Stops(FACTOR, Peek(ts, i + 1 + |Show(e1, FACTOR, env)|))
    ensures ParseAt(FACTOR, ts, i, env) == Some((Neg(e1), i + 1 + |Show(e1, FACTOR, env)|))
    decreases |Show(e1, FACTOR, env)|, e1, FACTOR + 3
  {
    hide Here, Stops, ParseAt, ParseFactor;
    var s1 := Show(e1, FACTOR, env);
    if e1.Lit? {
      HereOne(ts, i + 1, TNum(e1.n));
      MinusNumber(ts, i, env);
    } else {
      FirstToken(e1, env);
      HereToken(ts, i + 1, s1[0], s1[1..]) by { assert s1 == [s1[0]] + s1[1..]; }
      Reads(e1, FACTOR, ts, i + 1, env);
      FactorCases(ts, i + 1, env);
      FactorCases(ts, i, env);
    }
  }

  lemma MinusNumber(ts: seq<Token>, i: nat, env: Env)
    requires i + 1 < |ts| && ts[i] == TMinus && ts[i + 1].TNum?
    ensures ParseAt(FACTOR, ts, i, env) == Some((Neg(Lit(ts[i + 1].n)), i + 2))
  {
  }

  /** Only a number starts with a number token at this level. */
  lemma FirstToken(e: Expr, env: Env)
    requires !e.Lit? && Spelled(e, env)
    ensures |Show(e, FACTOR, env)| > 0 && !Show(e, FACTOR, env)[0].TNum?
    decreases e
  {
    hide Items;
    if Chain(e) { FirstOfChain(e, env); }
  }

  lemma {:induction false} FirstOfChain(e: Expr, env: Env)
    requires Chain(e) && Spelled(e, env)
    ensures |Bare(e, env)| > 0 && Bare(e, env)[0].TId?
    decreases e
  {
    hide Show;
    if e.Index? || e.Span? { FirstOfChain(e.arr, env); }
  }

  /** A variable and its subscripts, from the first to the last. */
  lemma {:induction false} ReadsChain(e: Expr, ts: seq<Token>, i: nat, env: Env)
    requires Chain(e) && Spelled(e, env)
    requires Here(ts, i, Bare(e, env)) && Peek(ts, i + |Bare(e, env)|) != TLParen
    ensures i < |ts| && ts[i].TId? && i + |Bare(e, env)| <= |ts|
    ensures ParseName(ts, i, env) == ParseSubs(e, ts, i + |Bare(e, env)|, env)
    decreases |Bare(e, env)|, e, 0, 0
  {
    hide Show, Bare, Here, ParseAt, ParseItems, ParseSubs, ParseName, Stops, OpAt;
    HereBounds(ts, i, Bare(e, env));
    match e
    case Var(x) => VarName(x, ts, i, env);
    case Index(a, x) =>
      SubParts(e, [TLBracket] + Show(x, 0, env) + [TRBracket], ts, i, env);
      ReadsChain(a, ts, i, env);
      ReadsIndex(a, x, ts, i + |Bare(a, env)|, env);
    case Span(a, x, y) =>
      SubParts(e, [TLBracket] + (Show(x, 0, env) + [TColon] + Show(y, 0, env)) + [TRBracket], ts, i, env);
      ReadsChain(a, ts, i, env);
      ReadsSpan(a, x, y, ts, i + |Bare(a, env)|, env);
    case _ =>
  }

  lemma SubParts(e: Expr, sub: seq<Token>, ts: seq<Token>, i: nat, env: Env)
    requires (e.Index? || e.Span?) && Here(ts, i, Bare(e, env))
    requires e.Index? ==> sub == [TLBracket] + Show(e.i, 0, env) + [TRBracket]
    requires e.Span? ==> sub == [TLBracket] + (Show(e.lo, 0, env) + [TColon] + Show(e.hi, 0, env)) + [TRBracket]
    ensures var j := i + |Bare(e.arr, env)|;
      && Here(ts, i, Bare(e.arr, env)) && Here(ts, j, sub) && |Bare(e, env)| == |Bare(e.arr, env)| + |sub|
      && j < |ts| && ts[j] == TLBracket
  {
    hide Show, Here;
    assert Bare(e, env) == Bare(e.arr, env) + sub;
    HereSplit(ts, i, Bare(e.arr, env), sub);
    assert sub == [TLBracket] + sub[1..];
    HereToken(ts, i + |Bare(e.arr, env)|, TLBracket, sub[1..]);
  }

  lemma VarName(x: nat, ts: seq<Token>, i: nat, env: Env)
    requires Spelled(Var(x), env) && Here(ts, i, Bare(Var(x), env)) && Peek(ts, i + |Bare(Var(x), env)|) != TLParen
    ensures i < |ts| && ts[i].TId? && |Bare(Var(x), env)| == 1
    ensures ParseName(ts, i, env) == ParseSubs(Var(x), ts, i + 1, env)
  {
    hide ParseItems, ParseSubs, Here;
    HereOne(ts, i, TId(NameOf(env.locals, x)));
  }

  lemma {:induction false} ReadsIndex(a: Expr, x: Expr, ts: seq<Token>, j: nat, env: Env)
    requires Spelled(x, env) && Here(ts, j, [TLBracket] + Show(x, 0, env) + [TRBracket])
    ensures j + |Show(x, 0, env)| + 2 <= |ts|
    ensures ParseSubs(a, ts, j, env) == ParseSubs(Index(a, x), ts, j + |Show(x, 0, env)| + 2, env)
    decreases |Show(x, 0, env)|, x, FACTOR + 3
  {
    hide Show, Here, ParseAt, ParseSubs, Stops, OpAt;
    HereAround(ts, j, TLBracket, Show(x, 0, env), TRBracket);
    StopsAt(TRBracket, EXPRESSION);
    Reads(x, 0, ts, j + 1, env);
    SubsSteps(a, ts, j, env);
  }

  lemma {:induction false} ReadsSpan(a: Expr, x: Expr, y: Expr, ts: seq<Token>, j: nat, env: Env)
    requires Spelled(x, env) && Spelled(y, env)
    requires Here(ts, j, [TLBracket] + (Show(x, 0, env) + [TColon] + Show(y, 0, env)) + [TRBracket])
    ensures j + |Show(x, 0, env)| + |Show(y, 0, env)| + 3 <= |ts|
    ensures ParseSubs(a, ts, j, env) == ParseSubs(Span(a, x, y), ts, j + |Show(x, 0, env)| + |Show(y, 0, env)| + 3, env)
    decreases |Show(x, 0, env)| + |Show(y, 0, env)| + 1, Span(a, x, y), FACTOR + 3
  {
    hide Show, Here, ParseAt, ParseSubs, Stops, OpAt;
    var sx, sy := Show(x, 0, env), Show(y, 0, env);
    HereAround(ts, j, TLBracket, sx + [TColon] + sy, TRBracket);
    assert sx + [TColon] + sy == sx + ([TColon] + sy);
    HereSplit(ts, j + 1, sx, [TColon] + sy);
    HereToken(ts, j + 1 + |sx|, TColon, sy);
    StopsAt(TColon, EXPRESSION);
    StopsAt(TRBracket, EXPRESSION);
    Reads(x, 0, ts, j + 1, env);
    Reads(y, 0, ts, j + 1 + |sx| + 1, env);
    SubsSteps(a, ts, j, env);
  }

  lemma SubsSteps(a: Expr, ts: seq<Token>, j: nat, env: Env)
    requires j < |ts| && ts[j] == TLBracket
    ensures var p, r := ParseAt(0, ts, j + 1, env), ParseSubs(a, ts, j, env);
      if p.None? then r.None?
      else
        var (x, k) := p.value;
        if Peek(ts, k) == TColon then
          var q := ParseAt(0, ts, k + 1, env);
          if q.None? || Peek(ts, q.value.1) != TRBracket then r.None?
          else r == ParseSubs(Span(a, x, q.value.0), ts, q.value.1 + 1, env)
        else if Peek(ts, k) == TRBracket then r == ParseSubs(Index(a, x), ts, k + 1, env)
        else r.None?
  {
    hide ParseAt;
  }

  lemma {:induction false} ReadsItems(es: seq<Expr>, ts: seq<Token>, i: nat, env: Env, close: Token)
    requires forall k :: 0 <= k < |es| ==> Spelled(es[k], env)
    requires close in {TRParen, TRBracket}
    requires Here(ts, i, Items(es, env)) && Peek(ts, i + |Items(es, env)|) == close
    ensures i <= |ts| && ParseItems(ts, i, env, close) == Some((es, i + |Items(es, env)| + 1))
    decreases |Items(es, env)|, es, 0
  {
    hide Show, Here, ParseAt, ParseMore, Stops;
    HereBounds(ts, i, Items(es, env));
    if es != [] {
      var s, m := Show(es[0], 0, env), MoreItems(es[1..], env);
      HereSplit(ts, i, s, m);
      HereBounds(ts, i, s);
      AfterItem(es[1..], ts, i + |s|, env, close);
      Reads(es[0], 0, ts, i, env);
      if Peek(ts, i) == close { NotClosing(ts, i, env); }
      ReadsMore([es[0]], es[1..], ts, i + |s|, env, close);
      assert [es[0]] + es[1..] == es;
    }
  }

  /** No expression starts with a closing bracket. */
  lemma NotClosing(ts: seq<Token>, i: nat, env: Env)
    requires i <= |ts| && Peek(ts, i) in {TRParen, TRBracket}
    ensures ParseAt(0, ts, i, env).None?
  {
    hide ParseTail;
    assert ParseFactor(ts, i, env).None?;
    assert ParseAt(7, ts, i, env).None?;
    assert ParseAt(6, ts, i, env).None?;
    assert ParseAt(5, ts, i, env).None?;
    assert ParseAt(4, ts, i, env).None?;
    assert ParseAt(3, ts, i, env).None?;
    assert ParseAt(2, ts, i, env).None?;
    assert ParseAt(1, ts, i, env).None?;
  }

  lemma AfterItem(es: seq<Expr>, ts: seq<Token>, j: nat, env: Env, close: Token)
    requires Here(ts, j, MoreItems(es, env)) && Peek(ts, j + |MoreItems(es, env)|) == close
    requires close in {TRParen, TRBracket}
    ensures Peek(ts, j) == (if es == [] then close else TComma) && Stops(EXPRESSION, Peek(ts, j))
  {
    hide Show, Here;
    if es != [] {
      var rest := Show(es[0], 0, env) + MoreItems(es[1..], env);
      assert MoreItems(es, env) == [TComma] + rest;
      HereToken(ts, j, TComma, rest);
    }
  }

  lemma {:induction false} ReadsMore(acc: seq<Expr>, es: seq<Expr>, ts: seq<Token>, j: nat, env: Env, close: Token)
    requires forall k :: 0 <= k < |es| ==> Spelled(es[k], env)
    requires close in {TRParen, TRBracket}
    requires Here(ts, j, MoreItems(es, env)) && Peek(ts, j + |MoreItems(es, env)|) == close
    ensures j <= |ts| && ParseMore(acc, ts, j, env, close) == Some((acc + es, j + |MoreItems(es, env)| + 1))
    decreases |MoreItems(es, env)|, es, 0
  {
    hide Show, Here, ParseAt, Stops;
    HereBounds(ts, j, MoreItems(es, env));
    AfterItem(es, ts, j, env, close);
    if es == [] {
      assert acc + es == acc;
    } else {
      var s, m := Show(es[0], 0, env), MoreItems(es[1..], env);
      assert MoreItems(es, env) == [TComma] + (s + m);
      HereToken(ts, j, TComma, s + m);
      HereSplit(ts, j + 1, s, m);
      AfterItem(es[1..], ts, j + 1 + |s|, env, close);
      Reads(es[0], 0, ts, j + 1, env);
      ReadsMore(acc + [es[0]], es[1..], ts, j + 1 + |s|, env, close);
      assert acc + [es[0]] + es[1..] == acc + es;
    }
  }

  /** Every spelled expression, printed with parentheses only where the levels need them and followed
      by anything that cannot continue it, is read back whole, with exactly its own tokens. */
  lemma ParseInvertsShow(e: Expr, rest: seq<Token>, env: Env)
    requires Spelled(e, env) && Stops(EXPRESSION, Peek(rest, 0))
    ensures ParseAt(0, Show(e, 0, env) + rest, 0, env) == Some((e, |Show(e, 0, env)|))
  {
    hide Show, Stops, ParseAt;
    var s := Show(e, 0, env);
    assert Here(s + rest, 0, s);
    assert Peek(s + rest, |s|) == Peek(rest, 0);
    Reads(e, 0, s + rest, 0, env);
  }
}
