/** Statements, functions and programs as tokens, and the parser as the inverse of that printer: each
    statement is read back from its own keyword (src/compiler.c:1259-1273, 1553-1567, 1665-1690, 1833-1935,
    1979-2120, 2282-2402, 2404-2478, 2481-2492). */
module Rendering {
  import opened Defines
  import opened Language
  import opened Parsing
  import opened Statements

  /** What the tree leaves open: the names of the locals by slot, whether loops over a collection say
      `var`, and whether parameters are separated by commas. */
  datatype Style = Style(names: nat -> string, vars: bool, commas: bool)

  // ---- Printing ----

  function SlotName(reuse: Option<nat>, env: Env, y: Style): string {
    if reuse.None? then y.names(|env.locals|) else NameOf(env.locals, reuse.value)
  }

  /** The names in scope in the head of a loop over a collection. */
  function HeadEnv(reuse: Option<nat>, env: Env, y: Style): Env {
    if reuse.None? then env.(locals := env.locals + [y.names(|env.locals|)]) else env
  }

  function BodyEnv(reuse: Option<nat>, env: Env, d: nat, y: Style): Env {
    HeadEnv(reuse, env, y).(locals := HeadEnv(reuse, env, y).locals + Hidden(d))
  }

  /** The names in scope after a statement. */
  function EnvAfter(s: Stmt, env: Env, y: Style): Env {
    match s
    case Then(a, b) => EnvAfter(b, EnvAfter(a, env, y), y)
    case Decl(_) => env.(locals := env.locals + [y.names(|env.locals|)])
    case _ => env
  }

  /** A statement under `d` loops. Skip is any token that starts no statement, here a comma. */
  function Spell(s: Stmt, env: Env, d: nat, y: Style): seq<Token>
    decreases s, 1
  {
    match s
    case Skip => [TComma]
    case Then(a, b) => SpellBody(a, env, d, y) + Spell(b, EnvAfter(a, env, y), d, y)
    case Decl(e) => [TVar, TId(y.names(|env.locals|)), TAssign] + Show(e, 0, env)
    case Assign(x, e) => [TId(NameOf(env.locals, x)), TAssign] + Show(e, 0, env)
    case Do(f, args) => [TId(NameOf(env.funcs, f)), TLParen] + Items(args, env) + [TRParen]
    case Blk(b) => [TLBrace] + SpellBody(b, env, d, y) + [TRBrace]
    case If(c, t, e) => [TIf] + SpellIf(c, t, e, env, d, y)
    case Forever(b) => [TForever] + Spell(b, env, d + 1, y)
    case ForIn(reuse, e, b) =>
      [TFor, TLParen] + (if y.vars then [TVar] else []) + [TId(SlotName(reuse, env, y)), TIn]
      + Show(e, 0, HeadEnv(reuse, env, y)) + [TRParen] + Spell(b, BodyEnv(reuse, env, d, y), d + 1, y)
    case ForCond(c, b) => [TFor, TLParen] + Show(c, 0, env) + [TRParen] + ([TLBrace] + SpellBody(b, env, d + 1, y) + [TRBrace])
    case Break => [TBreak]
    case Continue => [TContinue]
    case Ret(e) => [TRet] + Show(e, 0, env)
  }

  function SpellBody(s: Stmt, env: Env, d: nat, y: Style): seq<Token>
    decreases s, 2
  {
    if s.Skip? then [] else Spell(s, env, d, y)
  }

  function SpellElse(s: Stmt, env: Env, d: nat, y: Style): seq<Token>
    decreases s, 2
  {
    match s
    case Skip => []
    case If(c, t, e) => [TElif] + SpellIf(c, t, e, env, d, y)
    case _ => [TElse] + Spell(s, env, d, y)
  }

  /** Condition, block and the rest of the chain, after `if` or `elif`. */
  function SpellIf(c: Expr, t: Stmt, e: Stmt, env: Env, d: nat, y: Style): seq<Token>
    decreases If(c, t, e), 0
  {
    Show(c, 0, env) + (Spell(t, env, d, y) + SpellElse(e, env, d, y))
  }

  // ---- The statements the grammar can spell ----

  predicate OwnName(names: seq<string>, x: nat) {
    x < |names| && Find(names, names[x]) == Some(x)
  }

  /** Names resolve to their own slots, break and continue are inside a loop, blocks hold sequences. */
  predicate Sayable(s: Stmt, env: Env, d: nat, y: Style)
    decreases s, 0
  {
    match s
    case Skip => true
    case Then(a, b) => SayableBody(a, env, d, y) && !b.Then? && !b.Blk? && Sayable(b, EnvAfter(a, env, y), d, y)
    case Decl(e) => Spelled(e, env)
    case Assign(x, e) => OwnName(env.locals, x) && Spelled(e, env)
    case Do(f, args) => OwnName(env.funcs, f) && forall k :: 0 <= k < |args| ==> Spelled(args[k], env)
    case Blk(b) => SayableBody(b, env, d, y)
    case If(c, t, e) =>
      && Spelled(c, env) && t.Blk? && Sayable(t, env, d, y)
      && (e.Skip? || e.Blk? || e.If?) && Sayable(e, env, d, y)
    case Forever(b) => b.Blk? && Sayable(b, env, d + 1, y)
    case ForIn(reuse, e, b) =>
      && (if reuse.None? then Find(env.locals, y.names(|env.locals|)).None? else OwnName(env.locals, reuse.value))
      && Spelled(e, HeadEnv(reuse, env, y)) && b.Blk? && Sayable(b, BodyEnv(reuse, env, d, y), d + 1, y)
    case ForCond(c, b) => Spelled(c, env) && SayableBody(b, env, d + 1, y)
    case Break => d > 0
    case Continue => d > 0
    case Ret(e) => Spelled(e, env)
  }

  predicate SayableBody(s: Stmt, env: Env, d: nat, y: Style)
    decreases s, 1
  {
    s.Skip? || (s.Then? && Sayable(s, env, d, y))
  }

  // ---- Where expressions begin and end ----

  /** The first tokens of an expression: never a keyword, and after a name nothing that a loop head, an
      assignment or a list would put there. */
  predicate Heads(s: seq<Token>) {
    && |s| > 0 && (s[0].TNum? || s[0].TId? || s[0] in {TTrue, TFalse, TMinus, TLBracket, TLParen})
    && (s[0].TId? && |s| > 1 ==> s[1] !in {TIn, TComma, TColon, TAssign})
  }

  lemma {:induction false} ShowHeads(e: Expr, lvl: nat, env: Env)
    ensures Heads(Show(e, lvl, env))
    decreases e, 1
  {
    BareHeads(e, env);
  }

  lemma {:induction false} BareHeads(e: Expr, env: Env)
    ensures Heads(Bare(e, env))
    decreases e, 0
  {
    hide Show, Items, OpLevel;
    match e
    case Bin(op, l, r) => ShowHeads(l, if OpLevel(op) == RANGE then OpLevel(op) + 1 else OpLevel(op), env); OperatorToken(op);
    case Cond(c, t, f) => ShowHeads(c, 1, env);
    case Index(a, i) => BareHeads(a, env);
    case Span(a, lo, hi) => BareHeads(a, env);
    case _ =>
  }

  lemma OperatorToken(op: BinOp)
    ensures OpToken(op) !in {TIn, TComma, TColon, TAssign}
  {
  }

  /** A token that can follow a statement: it continues neither an expression nor a chain of branches. */
  ghost predicate Ends(t: Token) {
    Stops(EXPRESSION, t) && t != TElif && t != TElse
  }

  lemma KeywordsEnd(t: Token)
    requires t.TId? || t in {TComma, TVar, TFor, TIf, TForever, TBreak, TContinue, TRet, TRBrace, TFn, TEof}
    ensures Ends(t)
  {
  }

  lemma BracesStop(t: Token)
    requires t in {TLBrace, TRBrace, TRParen}
    ensures Stops(EXPRESSION, t)
  {
  }

  /** Every statement begins with a token that ends the one before it. */
  lemma SpellBegins(s: Stmt, env: Env, d: nat, y: Style)
    requires !s.Then? && !s.Blk?
    ensures |Spell(s, env, d, y)| > 0
    ensures var t := Spell(s, env, d, y)[0]; Ends(t) && t != TRBrace && t != TEof
  {
    hide Show, Items, SpellIf, SpellBody, Hidden, Stops;
    KeywordsEnd(Spell(s, env, d, y)[0]);
  }

  lemma Parts(ts: seq<Token>, i: nat, a: seq<Token>, b: seq<Token>)
    requires Here(ts, i, a + b)
    ensures Here(ts, i, a) && Here(ts, i + |a|, b) && i + |a| + |b| <= |ts|
  {
    HereSplit(ts, i, a, b);
  }

  /** A head, a piece, a token and a last piece, one after the other. */
  lemma FourParts(ts: seq<Token>, i: nat, head: seq<Token>, x: seq<Token>, t: Token, last: seq<Token>)
    requires Here(ts, i, head + (x + ([t] + last)))
    ensures var j := i + |head| + |x|;
      && Here(ts, i, head) && Here(ts, i + |head|, x) && j < |ts| && ts[j] == t && Here(ts, j + 1, last) && j + 1 + |last| <= |ts|
    ensures |head + (x + ([t] + last))| == |head| + |x| + 1 + |last|
  {
    hide Here;
    Parts(ts, i, head, x + ([t] + last));
    Parts(ts, i + |head|, x, [t] + last);
    Parts(ts, i + |head| + |x|, [t], last);
    HereOne(ts, i + |head| + |x|, t);
  }

  // ---- The parser inverts the printer ----

  /** What a printed statement is parsed to: itself, with exactly its own tokens. */
  ghost predicate Reread(s: Stmt, ts: seq<Token>, i: nat, env: Env, d: nat, y: Style)
    requires i <= |ts|
  {
    ParseStmt(ts, i, env, d) == Some(Parsed(s, i + |Spell(s, env, d, y)|, EnvAfter(s, env, y).locals))
  }

  lemma {:induction false} StmtReads(s: Stmt, ts: seq<Token>, i: nat, env: Env, d: nat, y: Style)
    requires !s.Then? && !s.Blk? && Sayable(s, env, d, y)
    requires Here(ts, i, Spell(s, env, d, y)) && Ends(Peek(ts, i + |Spell(s, env, d, y)|))
    ensures i <= |ts| && Reread(s, ts, i, env, d, y)
    decreases s, 2
  {
    hide Ends, Here, Spell, Sayable, ParseStmt;
    match s
    case Skip => PlainReads(s, ts, i, env, d, y);
    case Break => PlainReads(s, ts, i, env, d, y);
    case Continue => PlainReads(s, ts, i, env, d, y);
    case Decl(e) => DeclReads(e, ts, i, env, d, y);
    case Assign(x, e) => AssignReads(x, e, ts, i, env, d, y);
    case Do(f, args) => DoReads(f, args, ts, i, env, d, y);
    case Ret(e) => RetReads(e, ts, i, env, d, y);
    case If(c, t, e) => IfStmtReads(c, t, e, ts, i, env, d, y);
    case Forever(b) => ForeverReads(b, ts, i, env, d, y);
    case ForIn(reuse, e, b) => ForInReads(reuse, e, b, ts, i, env, d, y);
    case ForCond(c, b) => ForCondReads(c, b, ts, i, env, d, y);
  }

  lemma PlainReads(s: Stmt, ts: seq<Token>, i: nat, env: Env, d: nat, y: Style)
    requires (s.Skip? || s.Break? || s.Continue?) && Sayable(s, env, d, y) && Here(ts, i, Spell(s, env, d, y))
    ensures i <= |ts| && Reread(s, ts, i, env, d, y)
  {
    HereOne(ts, i, Spell(s, env, d, y)[0]);
  }

  /** An expression up to a token that cannot continue it. */
  lemma ExprReads(e: Expr, ts: seq<Token>, i: nat, env: Env)
    requires Spelled(e, env) && Here(ts, i, Show(e, 0, env)) && Stops(EXPRESSION, Peek(ts, i + |Show(e, 0, env)|))
    ensures i <= |ts| && ParseAt(0, ts, i, env) == Some((e, i + |Show(e, 0, env)|))
  {
    hide Show, ParseAt, Stops;
    Reads(e, 0, ts, i, env);
  }

  lemma DeclReads(e: Expr, ts: seq<Token>, i: nat, env: Env, d: nat, y: Style)
    requires Sayable(Decl(e), env, d, y) && Here(ts, i, Spell(Decl(e), env, d, y)) && Ends(Peek(ts, i + |Spell(Decl(e), env, d, y)|))
    ensures i <= |ts| && Reread(Decl(e), ts, i, env, d, y)
  {
    hide Show, ParseAt, Stops, Spelled;
    var x := y.names(|env.locals|);
    Parts(ts, i, [TVar, TId(x), TAssign], Show(e, 0, env));
    assert ts[i..i + 3] == [TVar, TId(x), TAssign];
    assert ts[i..i + 3][0] == ts[i] && ts[i..i + 3][1] == ts[i + 1] && ts[i..i + 3][2] == ts[i + 2];
    ExprReads(e, ts, i + 3, env);
  }

  lemma AssignReads(x: nat, e: Expr, ts: seq<Token>, i: nat, env: Env, d: nat, y: Style)
    requires Sayable(Assign(x, e), env, d, y) && Here(ts, i, Spell(Assign(x, e), env, d, y))
    requires Ends(Peek(ts, i + |Spell(Assign(x, e), env, d, y)|))
    ensures i <= |ts| && Reread(Assign(x, e), ts, i, env, d, y)
  {
    hide Show, ParseAt, Stops, Spelled;
    var head := [TId(NameOf(env.locals, x)), TAssign];
    Parts(ts, i, head, Show(e, 0, env));
    assert ts[i..i + 2][0] == ts[i] && ts[i..i + 2][1] == ts[i + 1];
    ExprReads(e, ts, i + 2, env);
  }

  lemma DoReads(f: nat, args: seq<Expr>, ts: seq<Token>, i: nat, env: Env, d: nat, y: Style)
    requires Sayable(Do(f, args), env, d, y) && Here(ts, i, Spell(Do(f, args), env, d, y))
    ensures i <= |ts| && Reread(Do(f, args), ts, i, env, d, y)
  {
    hide Items, ParseItems, Spelled;
    var head := [TId(NameOf(env.funcs, f)), TLParen];
    assert Spell(Do(f, args), env, d, y) == head + (Items(args, env) + [TRParen]);
    Parts(ts, i, head, Items(args, env) + [TRParen]);
    assert ts[i..i + 2][0] == ts[i] && ts[i..i + 2][1] == ts[i + 1];
    Parts(ts, i + 2, Items(args, env), [TRParen]);
    HereOne(ts, i + 2 + |Items(args, env)|, TRParen);
    ReadsItems(args, ts, i + 2, env, TRParen);
  }

  lemma RetReads(e: Expr, ts: seq<Token>, i: nat, env: Env, d: nat, y: Style)
    requires Sayable(Ret(e), env, d, y) && Here(ts, i, Spell(Ret(e), env, d, y)) && Ends(Peek(ts, i + |Spell(Ret(e), env, d, y)|))
    ensures i <= |ts| && Reread(Ret(e), ts, i, env, d, y)
  {
    hide Show, ParseAt, Stops, Spelled;
    Parts(ts, i, [TRet], Show(e, 0, env));
    HereOne(ts, i, TRet);
    ShowHeads(e, 0, env);
    assert ts[i + 1..i + 1 + |Show(e, 0, env)|][0] == ts[i + 1];
    ExprReads(e, ts, i + 1, env);
  }

  /** A braced body, whatever follows it. */
  lemma {:induction false} BlockReads(b: Stmt, ts: seq<Token>, i: nat, env: Env, d: nat, y: Style)
    requires SayableBody(b, env, d, y) && Here(ts, i, [TLBrace] + SpellBody(b, env, d, y) + [TRBrace])
    ensures i <= |ts| && ParseBlock(ts, i, env, d) == Some(Parsed(Blk(b), i + |SpellBody(b, env, d, y)| + 2, env.locals))
    decreases b, 4
  {
    hide SpellBody, ParseBody, Ends, Here;
    var body := SpellBody(b, env, d, y);
    HereAround(ts, i, TLBrace, body, TRBrace);
    KeywordsEnd(TRBrace);
    BodyReads(b, ts, i + 1, env, d, y);
    BodyStops(ts, i + 1 + |body|, EnvAfter(b, env, y), d, b);
  }

  lemma BodyStops(ts: seq<Token>, i: nat, env: Env, d: nat, done: Stmt)
    requires i <= |ts| && (Peek(ts, i) == TRBrace || Peek(ts, i) == TEof)
    ensures ParseBody(ts, i, env, d, done) == Some(Parsed(done, i, env.locals))
  {
  }

  /** The statements of a body in turn; what follows is parsed with them done. */
  lemma {:induction false} BodyReads(b: Stmt, ts: seq<Token>, i: nat, env: Env, d: nat, y: Style)
    requires SayableBody(b, env, d, y) && Here(ts, i, SpellBody(b, env, d, y)) && Ends(Peek(ts, i + |SpellBody(b, env, d, y)|))
    ensures i + |SpellBody(b, env, d, y)| <= |ts|
    ensures ParseBody(ts, i, env, d, Skip) == ParseBody(ts, i + |SpellBody(b, env, d, y)|, EnvAfter(b, env, y), d, b)
    decreases b, 3
  {
    hide *;
    BodyCases(b, env, d, y);
    if b.Skip? {
      HereBounds(ts, i, []);
    } else {
      var a, s := b.first, b.second;
      var env1 := EnvAfter(a, env, y);
      var j := i + |SpellBody(a, env, d, y)|;
      ThenParts(a, s, ts, i, env, d, y);
      SpellBegins(s, env1, d, y);
      BodyReads(a, ts, i, env, d, y);
      StmtReads(s, ts, j, env1, d, y);
      BodyGoesOn(s, ts, j, env1, d, a, y);
    }
  }

  lemma BodyCases(b: Stmt, env: Env, d: nat, y: Style)
    requires SayableBody(b, env, d, y)
    ensures b.Skip? ==> SpellBody(b, env, d, y) == [] && EnvAfter(b, env, y) == env
    ensures !b.Skip? ==> b.Then? && Sayable(b, env, d, y) && SpellBody(b, env, d, y) == Spell(b, env, d, y)
    ensures b.Then? ==> EnvAfter(b, env, y) == EnvAfter(b.second, EnvAfter(b.first, env, y), y)
  {
    hide Spell, Sayable;
  }

  lemma SameFuncs(s: Stmt, env: Env, y: Style)
    ensures EnvAfter(s, env, y).funcs == env.funcs
  {
  }

  lemma ThenParts(a: Stmt, s: Stmt, ts: seq<Token>, i: nat, env: Env, d: nat, y: Style)
    requires Sayable(Then(a, s), env, d, y) && Here(ts, i, Spell(Then(a, s), env, d, y))
    ensures SpellBody(Then(a, s), env, d, y) == Spell(Then(a, s), env, d, y)
    ensures var env1, j := EnvAfter(a, env, y), i + |SpellBody(a, env, d, y)|;
      && SayableBody(a, env, d, y) && !s.Then? && !s.Blk? && Sayable(s, env1, d, y)
      && Here(ts, i, SpellBody(a, env, d, y)) && Here(ts, j, Spell(s, env1, d, y))
      && j + |Spell(s, env1, d, y)| == i + |Spell(Then(a, s), env, d, y)| <= |ts|
      && (|Spell(s, env1, d, y)| > 0 ==> Peek(ts, j) == Spell(s, env1, d, y)[0])
  {
    var env1, body := EnvAfter(a, env, y), SpellBody(a, env, d, y);
    var last := Spell(s, env1, d, y);
    ThenSpelled(a, s, env, d, y);
    hide Spell, SpellBody, Sayable, SayableBody, EnvAfter;
    Parts(ts, i, body, last);
    if |last| > 0 {
      var j := i + |body|;
      assert ts[j..j + |last|][0] == ts[j];
    }
  }

  lemma ThenSpelled(a: Stmt, s: Stmt, env: Env, d: nat, y: Style)
    ensures SpellBody(Then(a, s), env, d, y) == Spell(Then(a, s), env, d, y)
    ensures Spell(Then(a, s), env, d, y) == SpellBody(a, env, d, y) + Spell(s, EnvAfter(a, env, y), d, y)
    ensures Sayable(Then(a, s), env, d, y)
      <==> SayableBody(a, env, d, y) && !s.Then? && !s.Blk? && Sayable(s, EnvAfter(a, env, y), d, y)
  {
    hide EnvAfter;
  }

  lemma BodyGoesOn(s: Stmt, ts: seq<Token>, i: nat, env: Env, d: nat, done: Stmt, y: Style)
    requires i <= |ts| && Reread(s, ts, i, env, d, y) && Peek(ts, i) != TRBrace && Peek(ts, i) != TEof
    ensures i + |Spell(s, env, d, y)| <= |ts|
    ensures ParseBody(ts, i, env, d, done) == ParseBody(ts, i + |Spell(s, env, d, y)|, EnvAfter(s, env, y), d, Then(done, s))
  {
    hide ParseStmt, Spell, EnvAfter;
    SameFuncs(s, env, y);
  }

  lemma {:induction false} IfStmtReads(c: Expr, t: Stmt, e: Stmt, ts: seq<Token>, i: nat, env: Env, d: nat, y: Style)
    requires Sayable(If(c, t, e), env, d, y) && Here(ts, i, Spell(If(c, t, e), env, d, y))
    requires Ends(Peek(ts, i + |Spell(If(c, t, e), env, d, y)|))
    ensures i <= |ts| && Reread(If(c, t, e), ts, i, env, d, y)
    decreases If(c, t, e), 1
  {
    hide SpellIf, ParseIf, Sayable, Ends;
    Parts(ts, i, [TIf], SpellIf(c, t, e, env, d, y));
    HereOne(ts, i, TIf);
    IfReads(c, t, e, ts, i + 1, env, d, y);
  }

  lemma {:induction false} IfReads(c: Expr, t: Stmt, e: Stmt, ts: seq<Token>, i: nat, env: Env, d: nat, y: Style)
    requires Sayable(If(c, t, e), env, d, y) && Here(ts, i, SpellIf(c, t, e, env, d, y))
    requires Ends(Peek(ts, i + |SpellIf(c, t, e, env, d, y)|))
    ensures i <= |ts| && ParseIf(ts, i, env, d) == Some(Parsed(If(c, t, e), i + |SpellIf(c, t, e, env, d, y)|, env.locals))
    decreases If(c, t, e), 0
  {
    hide Show, Spell, SpellBody, SpellElse, ParseAt, ParseBlock, ParseChain, Spelled, Ends, Here;
    var b := t.body;
    var block, rest := [TLBrace] + SpellBody(b, env, d, y) + [TRBrace], SpellElse(e, env, d, y);
    BlockSpelled(b, env, d, y);
    Parts(ts, i, Show(c, 0, env), block + rest);
    var j := i + |Show(c, 0, env)|;
    Parts(ts, j, block, rest);
    HereAround(ts, j, TLBrace, SpellBody(b, env, d, y), TRBrace);
    BracesStop(TLBrace);
    ExprReads(c, ts, i, env);
    BlockReads(b, ts, j, env, d, y);
    ElseReads(e, ts, j + |block|, env, d, y);
  }

  lemma BlockSpelled(b: Stmt, env: Env, d: nat, y: Style)
    ensures Spell(Blk(b), env, d, y) == [TLBrace] + SpellBody(b, env, d, y) + [TRBrace]
    ensures Sayable(Blk(b), env, d, y) == SayableBody(b, env, d, y)
  {
    hide SpellBody;
  }

  lemma {:induction false} ElseReads(e: Stmt, ts: seq<Token>, i: nat, env: Env, d: nat, y: Style)
    requires (e.Skip? || e.Blk? || e.If?) && Sayable(e, env, d, y) && Here(ts, i, SpellElse(e, env, d, y))
    requires Ends(Peek(ts, i + |SpellElse(e, env, d, y)|))
    ensures i <= |ts| && ParseChain(ts, i, env, d) == Some(Parsed(e, i + |SpellElse(e, env, d, y)|, env.locals))
    decreases e, 5
  {
    hide ParseIf, ParseBlock, SpellIf, Spell, SpellBody, Sayable, Here, Stops;
    HereBounds(ts, i, SpellElse(e, env, d, y));
    match e
    case Skip =>
    case Blk(b) =>
      BlockSpelled(b, env, d, y);
      Parts(ts, i, [TElse], Spell(e, env, d, y));
      HereOne(ts, i, TElse);
      BlockReads(b, ts, i + 1, env, d, y);
    case If(c, t, e1) =>
      Parts(ts, i, [TElif], SpellIf(c, t, e1, env, d, y));
      HereOne(ts, i, TElif);
      IfReads(c, t, e1, ts, i + 1, env, d, y);
  }

  lemma {:induction false} ForeverReads(b: Stmt, ts: seq<Token>, i: nat, env: Env, d: nat, y: Style)
    requires Sayable(Forever(b), env, d, y) && Here(ts, i, Spell(Forever(b), env, d, y))
    ensures i <= |ts| && Reread(Forever(b), ts, i, env, d, y)
    decreases b, 5
  {
    hide ParseBlock, SpellBody, Here, ParseStmt;
    assert Sayable(b, env, d + 1, y) && b == Blk(b.body);
    assert Spell(Forever(b), env, d, y) == [TForever] + Spell(b, env, d + 1, y);
    hide Spell, Sayable;
    BlockSpelled(b.body, env, d + 1, y);
    Parts(ts, i, [TForever], Spell(b, env, d + 1, y));
    HereOne(ts, i, TForever);
    BlockReads(b.body, ts, i + 1, env, d + 1, y);
    ForeverDispatch(ts, i, env, d);
  }

  lemma ForeverDispatch(ts: seq<Token>, i: nat, env: Env, d: nat)
    requires i < |ts| && ts[i] == TForever && ParseBlock(ts, i + 1, env, d + 1).Some?
    ensures var p := ParseBlock(ts, i + 1, env, d + 1).value;
      ParseStmt(ts, i, env, d) == Some(Parsed(Forever(p.s), p.end, env.locals))
  {
    hide ParseBlock;
  }

  lemma {:induction false} ForInReads(reuse: Option<nat>, e: Expr, b: Stmt, ts: seq<Token>, i: nat, env: Env, d: nat, y: Style)
    requires Sayable(ForIn(reuse, e, b), env, d, y) && Here(ts, i, Spell(ForIn(reuse, e, b), env, d, y))
    ensures i <= |ts| && Reread(ForIn(reuse, e, b), ts, i, env, d, y)
    decreases b, 5
  {
    hide Show, ParseBlock, ParseAt, ParseIter, SpellBody, Spell, Spelled, Here, Hidden;
    var k, name := ForInParts(reuse, e, b, ts, i, env, d, y);
    var env1, env2 := HeadEnv(reuse, env, y), BodyEnv(reuse, env, d, y);
    SlotFound(reuse, e, b, env, d, y);
    BracesStop(TRParen);
    ExprReads(e, ts, k + 2, env1);
    var j := k + 2 + |Show(e, 0, env1)|;
    BlockSpelled(b.body, env2, d + 1, y);
    BlockReads(b.body, ts, j + 1, env2, d + 1, y);
    IterReads(reuse, e, b, ts, k, env, d, y);
    ForDispatch(ts, i, k, env, d, y);
  }

  /** The loop variable resolves to the slot in the tree. */
  lemma SlotFound(reuse: Option<nat>, e: Expr, b: Stmt, env: Env, d: nat, y: Style)
    requires Sayable(ForIn(reuse, e, b), env, d, y)
    ensures Find(env.locals, SlotName(reuse, env, y)) == reuse
    ensures HeadEnv(reuse, env, y) == env.(locals := WithLoopVar(env.locals, SlotName(reuse, env, y)))
    ensures Spelled(e, HeadEnv(reuse, env, y)) && b.Blk? && Sayable(b, BodyEnv(reuse, env, d, y), d + 1, y)
  {
    hide Spelled, Hidden;
  }

  /** Where the pieces of a loop over a collection are; the name is at `k`. */
  lemma ForInParts(reuse: Option<nat>, e: Expr, b: Stmt, ts: seq<Token>, i: nat, env: Env, d: nat, y: Style) returns (k: nat, name: string)
    requires b.Blk? && Here(ts, i, Spell(ForIn(reuse, e, b), env, d, y))
    ensures k == i + (if y.vars then 3 else 2) && name == SlotName(reuse, env, y)
    ensures var env1, env2 := HeadEnv(reuse, env, y), BodyEnv(reuse, env, d, y);
      var j := k + 2 + |Show(e, 0, env1)|;
      && j + 1 + |Spell(b, env2, d + 1, y)| == i + |Spell(ForIn(reuse, e, b), env, d, y)| <= |ts|
      && ts[i] == TFor && ts[i + 1] == TLParen && (y.vars ==> ts[i + 2] == TVar) && ts[k] == TId(name) && ts[k + 1] == TIn
      && Here(ts, k + 2, Show(e, 0, env1)) && ts[j] == TRParen && Here(ts, j + 1, Spell(b, env2, d + 1, y))
  {
    hide *;
    k, name := i + (if y.vars then 3 else 2), SlotName(reuse, env, y);
    ForInSpelled(reuse, e, b, env, d, y);
    FourParts(ts, i, [TFor, TLParen] + (if y.vars then [TVar] else []) + [TId(name), TIn],
              Show(e, 0, HeadEnv(reuse, env, y)), TRParen, Spell(b, BodyEnv(reuse, env, d, y), d + 1, y));
    ForInHead(ts, i, name, y.vars);
  }

  lemma ForInHead(ts: seq<Token>, i: nat, name: string, vars: bool)
    requires Here(ts, i, [TFor, TLParen] + (if vars then [TVar] else []) + [TId(name), TIn])
    ensures var k := i + if vars then 3 else 2;
      && k + 1 < |ts| && ts[i] == TFor && ts[i + 1] == TLParen && (vars ==> ts[i + 2] == TVar) && ts[k] == TId(name) && ts[k + 1] == TIn
  {
    var head := [TFor, TLParen] + (if vars then [TVar] else []) + [TId(name), TIn];
    var part := ts[i..i + |head|];
    assert part[0] == ts[i] && part[1] == ts[i + 1] && part[2] == ts[i + 2] && part[3] == ts[i + 3];
    if vars { assert part[4] == ts[i + 4]; }
  }

  lemma ForInSpelled(reuse: Option<nat>, e: Expr, b: Stmt, env: Env, d: nat, y: Style)
    ensures Spell(ForIn(reuse, e, b), env, d, y)
      == [TFor, TLParen] + (if y.vars then [TVar] else []) + [TId(SlotName(reuse, env, y)), TIn]
         + (Show(e, 0, HeadEnv(reuse, env, y)) + ([TRParen] + Spell(b, BodyEnv(reuse, env, d, y), d + 1, y)))
  {
    hide Show, Hidden, SpellBody, BodyEnv, HeadEnv, SlotName;
  }

  lemma IterReads(reuse: Option<nat>, e: Expr, b: Stmt, ts: seq<Token>, k: nat, env: Env, d: nat, y: Style)
    requires k + 1 < |ts| && ts[k] == TId(SlotName(reuse, env, y)) && ts[k + 1] == TIn
    requires Find(env.locals, SlotName(reuse, env, y)) == reuse
    requires HeadEnv(reuse, env, y) == env.(locals := WithLoopVar(env.locals, SlotName(reuse, env, y)))
    requires var p := ParseAt(0, ts, k + 2, HeadEnv(reuse, env, y));
      && p.Some? && p.value.0 == e && Peek(ts, p.value.1) == TRParen
      && var q := ParseBlock(ts, p.value.1 + 1, BodyEnv(reuse, env, d, y), d + 1);
        q.Some? && q.value.s == b
    ensures var p := ParseAt(0, ts, k + 2, HeadEnv(reuse, env, y));
      var q := ParseBlock(ts, p.value.1 + 1, BodyEnv(reuse, env, d, y), d + 1);
      ParseIter(ts, k, env, d) == Some(Parsed(ForIn(reuse, e, b), q.value.end, env.locals))
  {
    hide ParseAt, ParseBlock, Hidden;
  }

  lemma ForDispatch(ts: seq<Token>, i: nat, k: nat, env: Env, d: nat, y: Style)
    requires k == i + (if y.vars then 3 else 2) && k + 1 < |ts|
    requires ts[i] == TFor && ts[i + 1] == TLParen && (y.vars ==> ts[i + 2] == TVar) && ts[k].TId? && ts[k + 1] == TIn
    ensures ParseStmt(ts, i, env, d) == ParseIter(ts, k, env, d)
  {
    hide ParseIter, ParseCondFor;
  }

  lemma {:induction false} ForCondReads(c: Expr, b: Stmt, ts: seq<Token>, i: nat, env: Env, d: nat, y: Style)
    requires Sayable(ForCond(c, b), env, d, y) && Here(ts, i, Spell(ForCond(c, b), env, d, y))
    ensures i <= |ts| && Reread(ForCond(c, b), ts, i, env, d, y)
    decreases b, 5
  {
    hide Show, ParseBlock, ParseAt, ParseCondFor, SpellBody, SayableBody, Spelled, Stops;
    var x, block := Show(c, 0, env), [TLBrace] + SpellBody(b, env, d + 1, y) + [TRBrace];
    ForCondSpelled(c, b, env, d, y);
    hide Spell, Sayable;
    FourParts(ts, i, [TFor, TLParen], x, TRParen, block);
    assert ts[i..i + 2][0] == ts[i] && ts[i..i + 2][1] == ts[i + 1];
    BracesStop(TRParen);
    ExprReads(c, ts, i + 2, env);
    BlockReads(b, ts, i + 3 + |x|, env, d + 1, y);
    CondDispatch(c, ts, i, env, d);
    hide Here;
    CondForReads(ts, i + 2, env, d);
  }

  lemma ForCondSpelled(c: Expr, b: Stmt, env: Env, d: nat, y: Style)
    ensures Spell(ForCond(c, b), env, d, y)
      == [TFor, TLParen] + (Show(c, 0, env) + ([TRParen] + ([TLBrace] + SpellBody(b, env, d + 1, y) + [TRBrace])))
    ensures Sayable(ForCond(c, b), env, d, y) == (Spelled(c, env) && SayableBody(b, env, d + 1, y))
  {
    hide Show, SpellBody, Spelled;
  }

  lemma CondForReads(ts: seq<Token>, i: nat, env: Env, d: nat)
    requires i <= |ts| && ParseAt(0, ts, i, env).Some?
    requires var j := ParseAt(0, ts, i, env).value.1; Peek(ts, j) == TRParen && ParseBlock(ts, j + 1, env, d + 1).Some?
    ensures var p := ParseAt(0, ts, i, env).value;
      var q := ParseBlock(ts, p.1 + 1, env, d + 1).value;
      ParseCondFor(ts, i, env, d) == Some(Parsed(ForCond(p.0, q.s.body), q.end, env.locals))
  {
    hide ParseAt, ParseBlock;
  }

  /** A condition is never taken for the head of another loop. */
  lemma CondDispatch(c: Expr, ts: seq<Token>, i: nat, env: Env, d: nat)
    requires i + 2 <= |ts| && ts[i] == TFor && ts[i + 1] == TLParen && Here(ts, i + 2, Show(c, 0, env))
    requires Peek(ts, i + 2 + |Show(c, 0, env)|) == TRParen
    ensures ParseStmt(ts, i, env, d) == ParseCondFor(ts, i + 2, env, d)
  {
    hide Show, ParseIter, ParseCondFor;
    var x := Show(c, 0, env);
    ShowHeads(c, 0, env);
    assert ts[i + 2..i + 2 + |x|][0] == ts[i + 2];
    if |x| > 1 {
      assert ts[i + 2..i + 2 + |x|][1] == ts[i + 3];
    }
  }

  /** `ret` at the end of a block returns 0. */
  lemma BareReturn(ts: seq<Token>, i: nat, env: Env, d: nat)
    requires i + 1 < |ts| && ts[i] == TRet && ts[i + 1] == TRBrace
    ensures ParseStmt(ts, i, env, d) == Some(Parsed(Ret(Lit(0)), i + 1, env.locals))
  {
  }

  /** A name by itself does nothing. */
  lemma BareName(ts: seq<Token>, i: nat, env: Env, d: nat)
    requires i < |ts| && ts[i].TId? && Peek(ts, i + 1) !in {TAssign, TLParen, TLBracket}
    ensures ParseStmt(ts, i, env, d) == Some(Parsed(Skip, i + 1, env.locals))
  {
  }

  // ---- Functions and programs ----

  function ParamNames(n: nat, y: Style): seq<string> {
    seq(n, k requires 0 <= k < n => y.names(k))
  }

  /** The parameters from `k` on. */
  function SpellParams(k: nat, n: nat, y: Style): seq<Token>
    requires k <= n
    decreases n - k
  {
    if k == n then []
    else [TId(y.names(k))] + ((if y.commas && k + 1 < n then [TComma] else []) + SpellParams(k + 1, n, y))
  }

  function FuncEnv(fn: Func, name: string, funcs: seq<string>, y: Style): Env {
    Env(ParamNames(fn.arity, y), funcs + [name])
  }

  function SpellFunc(fn: Func, name: string, funcs: seq<string>, y: Style): seq<Token> {
    [TFn, TId(name), TLParen] + (SpellParams(0, fn.arity, y) + ([TRParen]
      + ([TLBrace] + SpellBody(fn.body, FuncEnv(fn, name, funcs, y), 0, y) + [TRBrace])))
  }

  predicate SayableFunc(fn: Func, name: string, funcs: seq<string>, y: Style) {
    SayableBody(fn.body, FuncEnv(fn, name, funcs, y), 0, y)
  }

  lemma {:induction false} ParamsRead(k: nat, n: nat, ts: seq<Token>, i: nat, y: Style)
    requires k <= n && Here(ts, i, SpellParams(k, n, y)) && Peek(ts, i + |SpellParams(k, n, y)|) == TRParen
    ensures i <= |ts| && ParseParams(ts, i, ParamNames(k, y)) == Some((ParamNames(n, y), i + |SpellParams(k, n, y)| + 1))
    decreases n - k
  {
    hide Here, ParamNames, ParseParams;
    HereBounds(ts, i, SpellParams(k, n, y));
    if k == n {
      ParamsEnd(ts, i, ParamNames(k, y));
    } else {
      var comma, rest := if y.commas && k + 1 < n then [TComma] else [], SpellParams(k + 1, n, y);
      assert SpellParams(k, n, y) == [TId(y.names(k))] + (comma + rest);
      ParamsBegin(k + 1, n, y);
      hide SpellParams;
      Parts(ts, i, [TId(y.names(k))], comma + rest);
      HereOne(ts, i, TId(y.names(k)));
      Parts(ts, i + 1, comma, rest);
      var j := i + 1 + |comma|;
      if comma != [] { HereOne(ts, i + 1, TComma); }
      if k + 1 < n {
        Parts(ts, j, [rest[0]], rest[1..]);
        HereOne(ts, j, rest[0]);
      }
      OneMoreParam(k, y);
      ParamsGoOn(ts, i, ParamNames(k, y), comma != []);
      ParamsRead(k + 1, n, ts, j, y);
    }
  }

  lemma ParamsBegin(k: nat, n: nat, y: Style)
    requires k <= n
    ensures k < n ==> |SpellParams(k, n, y)| > 0 && SpellParams(k, n, y)[0].TId?
    ensures k < n ==> SpellParams(k, n, y) == [SpellParams(k, n, y)[0]] + SpellParams(k, n, y)[1..]
    ensures k == n ==> SpellParams(k, n, y) == []
  {
  }

  lemma OneMoreParam(k: nat, y: Style)
    ensures ParamNames(k, y) + [y.names(k)] == ParamNames(k + 1, y)
  {
  }

  lemma ParamsEnd(ts: seq<Token>, i: nat, names: seq<string>)
    requires i <= |ts| && Peek(ts, i) == TRParen
    ensures ParseParams(ts, i, names) == Some((names, i + 1))
  {
  }

  lemma ParamsGoOn(ts: seq<Token>, i: nat, names: seq<string>, comma: bool)
    requires i < |ts| && ts[i].TId? && comma == (Peek(ts, i + 1) == TComma)
    ensures ParseParams(ts, i, names) == ParseParams(ts, if comma then i + 2 else i + 1, names + [ts[i].name])
  {
  }

  /** A printed function is read back whole, whatever follows it. */
  lemma FuncReads(fn: Func, name: string, ts: seq<Token>, i: nat, funcs: seq<string>, y: Style)
    requires SayableFunc(fn, name, funcs, y) && Here(ts, i, SpellFunc(fn, name, funcs, y))
    ensures i + |SpellFunc(fn, name, funcs, y)| <= |ts|
    ensures ParseFunc(ts, i, funcs) == Some((name, fn, i + |SpellFunc(fn, name, funcs, y)|))
  {
    hide SpellParams, SpellBody, SayableBody, ParseParams, ParseBody, Here, ParamNames;
    var env, params := FuncEnv(fn, name, funcs, y), SpellParams(0, fn.arity, y);
    var body := SpellBody(fn.body, env, 0, y);
    var block, head := [TLBrace] + body + [TRBrace], [TFn, TId(name), TLParen];
    FourParts(ts, i, head, params, TRParen, block);
    HeadTokens(ts, i, TFn, TId(name), TLParen);
    var j := i + 3 + |params|;
    assert ParamNames(0, y) == [] by { NoParams(y); }
    ParamsRead(0, fn.arity, ts, i + 3, y);
    HereAround(ts, j + 1, TLBrace, body, TRBrace);
    KeywordsEnd(TRBrace);
    BodyReads(fn.body, ts, j + 2, env, 0, y);
    BodyStops(ts, j + 2 + |body|, EnvAfter(fn.body, env, y), 0, fn.body);
    ParamCount(fn.arity, y);
  }

  lemma NoParams(y: Style)
    ensures ParamNames(0, y) == []
  {
  }

  lemma ParamCount(n: nat, y: Style)
    ensures |ParamNames(n, y)| == n
  {
  }

  lemma HeadTokens(ts: seq<Token>, i: nat, a: Token, b: Token, c: Token)
    requires Here(ts, i, [a, b, c])
    ensures i + 2 < |ts| && ts[i] == a && ts[i + 1] == b && ts[i + 2] == c
  {
    assert ts[i..i + 3][0] == ts[i] && ts[i..i + 3][1] == ts[i + 1] && ts[i..i + 3][2] == ts[i + 2];
  }

  /** A program, each function with its own style; `k` functions come before. */
  function SpellProgram(k: nat, fs: seq<Func>, names: seq<string>, ys: seq<Style>): seq<Token>
    requires k <= |fs| == |names| == |ys|
    decreases |fs| - k
  {
    if k == |fs| then [] else SpellFunc(fs[k], names[k], names[..k], ys[k]) + SpellProgram(k + 1, fs, names, ys)
  }

  lemma {:induction false} RestReads(k: nat, fs: seq<Func>, names: seq<string>, ys: seq<Style>, ts: seq<Token>, i: nat)
    requires k <= |fs| == |names| == |ys| && forall f :: 0 <= f < |fs| ==> SayableFunc(fs[f], names[f], names[..f], ys[f])
    requires Here(ts, i, SpellProgram(k, fs, names, ys)) && i + |SpellProgram(k, fs, names, ys)| == |ts|
    ensures i <= |ts| && ParseProgram(ts, i, names[..k], fs[..k]) == Some(fs)
    decreases |fs| - k
  {
    hide SpellFunc, SayableFunc, ParseFunc, Here;
    HereBounds(ts, i, SpellProgram(k, fs, names, ys));
    if k == |fs| {
      assert fs[..k] == fs;
    } else {
      var fn := SpellFunc(fs[k], names[k], names[..k], ys[k]);
      Parts(ts, i, fn, SpellProgram(k + 1, fs, names, ys));
      FuncReads(fs[k], names[k], ts, i, names[..k], ys[k]);
      assert names[..k] + [names[k]] == names[..k + 1] && fs[..k] + [fs[k]] == fs[..k + 1];
      RestReads(k + 1, fs, names, ys, ts, i + |fn|);
      FnFirst(ts, i, names[..k]);
    }
  }

  lemma FnFirst(ts: seq<Token>, i: nat, funcs: seq<string>)
    requires i <= |ts| && ParseFunc(ts, i, funcs).Some?
    ensures Peek(ts, i) == TFn
  {
  }

  /** Printing a program and parsing it gives back the program. */
  lemma ProgramReads(fs: seq<Func>, names: seq<string>, ys: seq<Style>)
    requires |fs| == |names| == |ys| && forall f :: 0 <= f < |fs| ==> SayableFunc(fs[f], names[f], names[..f], ys[f])
    ensures ParseProgram(SpellProgram(0, fs, names, ys), 0, [], []) == Some(fs)
  {
    hide SpellProgram, SayableFunc, ParseProgram;
    var ts := SpellProgram(0, fs, names, ys);
    assert ts[0..0 + |ts|] == ts;
    RestReads(0, fs, names, ys, ts, 0);
  }
}
