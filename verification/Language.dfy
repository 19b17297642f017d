/** Function bodies after name resolution, and their direct big-step meaning. Locals are slots, as
    alloc_var numbers them (src/compiler.c:1259-1273); arrays are immutable values. */
module Language {
  import opened Defines
  import opened Arenas
  import opened Machine

  datatype BinOp = Add | Sub | Mul | Div | Mod | Lt | Gt | Le | Ge | Eq | Neq | And | Or | To

  datatype Expr =
    | Lit(n: nat)
    | Bool(b: bool)
    | Var(slot: nat)
    | Neg(e: Expr)
    | Bin(op: BinOp, l: Expr, r: Expr)
    | Cond(c: Expr, t: Expr, e2: Expr)
    | List(es: seq<Expr>)
    | Index(arr: Expr, i: Expr)
    | Span(arr: Expr, lo: Expr, hi: Expr)
    | Call(f: nat, args: seq<Expr>)

  /** `Blk` is a braced body. In `If`, `els` is Skip, a Blk, or another If (elif). In `ForIn`, the
      loop variable is an existing slot or, when `reuse` is None, a new one. */
  datatype Stmt =
    | Skip
    | Then(first: Stmt, second: Stmt)
    | Decl(e: Expr)
    | Assign(slot: nat, e: Expr)
    | Do(f: nat, args: seq<Expr>)
    | Blk(body: Stmt)
    | If(c: Expr, thn: Stmt, els: Stmt)
    | Forever(body: Stmt)
    | ForIn(reuse: Option<nat>, e: Expr, body: Stmt)
    | ForCond(c: Expr, body: Stmt)
    | Break
    | Continue
    | Ret(e: Expr)

  datatype Func = Func(arity: nat, body: Stmt)

  // ---- Values ----

  function NumV(n: int): Value {
    Leaf(n, T_NUM)
  }

  function Arr(es: seq<Value>): Value {
    Node(TYPE_ARRAY, es)
  }

  predicate IsNum(v: Value) {
    v.Leaf? && v.tag == T_NUM
  }

  predicate IsArr(v: Value) {
    v.Node? && v.ty == TYPE_ARRAY
  }

  /** OP_JZ, OP_AND and OP_OR test the raw value; a pointer is never 0. */
  predicate Truthy(v: Value) {
    !v.Leaf? || v.val != 0
  }

  function OpCode(op: BinOp): int {
    match op
    case Add => OP_ADD
    case Sub => OP_SUB
    case Mul => OP_MUL
    case Div => OP_DIV
    case Mod => OP_MOD
    case Lt => OP_LT
    case Gt => OP_GT
    case Le => OP_LE
    case Ge => OP_GE
    case Eq => OP_EQ
    case Neq => OP_NEQ
    case And => OP_AND
    case Or => OP_OR
    case To => OP_RANGE
  }

  function RangeOf(start: int, stop: int): Value {
    Arr(seq(RangeLen(start, stop), i => NumV(RangeAt(start, stop, i))))
  }

  function Apply(op: BinOp, a: Value, b: Value): Option<Value> {
    if op == And then Some(NumV(Bit(Truthy(a) && Truthy(b))))
    else if op == Or then Some(NumV(Bit(Truthy(a) || Truthy(b))))
    else if !IsNum(a) || !IsNum(b) then None
    else if op == To then Some(RangeOf(a.val, b.val))
    else if IsMath(OpCode(op)) then
      match Arith(OpCode(op), a.val, b.val)
      case None => None
      case Some(n) => Some(NumV(n))
    else Some(NumV(Bit(Holds(OpCode(op), a.val, b.val))))
  }

  function ElementAt(a: Value, i: Value): Option<Value> {
    if !IsArr(a) || !IsNum(i) then None
    else
      var idx := if i.val < 0 then i.val + |a.kids| else i.val;
      if 0 <= idx < |a.kids| then Some(a.kids[idx]) else None
  }

  function SpanOf(a: Value, lo: Value, hi: Value): Option<Value> {
    if IsArr(a) && IsNum(lo) && IsNum(hi) then Some(Arr(Slice(a.kids, lo.val, hi.val))) else None
  }

  // ---- Expressions ----

  /** `k` bounds the nesting of calls plus the number of loop iterations; None is a fault (an
      ill-typed operation, an index out of range, a wrong argument count) or a bound too small. */
  function Eval(k: nat, fs: seq<Func>, e: Expr, vs: seq<Value>): Option<Value>
    decreases k, e, 0
  {
    match e
    case Lit(n) => if Exact(n) then Some(NumV(n)) else None
    case Bool(b) => Some(NumV(Bit(b)))
    case Var(x) => if x < |vs| then Some(vs[x]) else None
    case Neg(e1) =>
      (match Eval(k, fs, e1, vs)
       case None => None
       case Some(a) => Apply(Sub, NumV(0), a))
    case Bin(op, l, r) =>
      (match Eval(k, fs, l, vs)
       case None => None
       case Some(a) =>
         match Eval(k, fs, r, vs)
         case None => None
         case Some(b) => Apply(op, a, b))
    case Cond(c, t, f) =>
      (match Eval(k, fs, c, vs)
       case None => None
       case Some(a) => if Truthy(a) then Eval(k, fs, t, vs) else Eval(k, fs, f, vs))
    case List(es) =>
      (match EvalAll(k, fs, es, vs)
       case None => None
       case Some(xs) => Some(Arr(xs)))
    case Index(a, i) =>
      (match Eval(k, fs, a, vs)
       case None => None
       case Some(x) =>
         match Eval(k, fs, i, vs)
         case None => None
         case Some(y) => ElementAt(x, y))
    case Span(a, lo, hi) =>
      (match Eval(k, fs, a, vs)
       case None => None
       case Some(x) =>
         match Eval(k, fs, lo, vs)
         case None => None
         case Some(y) =>
           match Eval(k, fs, hi, vs)
           case None => None
           case Some(z) => SpanOf(x, y, z))
    case Call(f, args) =>
      match EvalAll(k, fs, args, vs)
      case None => None
      case Some(xs) => if k == 0 then None else Invoke(k - 1, fs, f, xs)
  }

  function EvalAll(k: nat, fs: seq<Func>, es: seq<Expr>, vs: seq<Value>): (r: Option<seq<Value>>)
    ensures r.Some? ==> |r.value| == |es|
    decreases k, es, 0
  {
    if es == [] then Some([])
    else
      match Eval(k, fs, es[0], vs)
      case None => None
      case Some(x) =>
        match EvalAll(k, fs, es[1..], vs)
        case None => None
        case Some(xs) => Some([x] + xs)
  }

  /** A call: the arguments are the first locals; falling off the end returns 0. */
  function Invoke(k: nat, fs: seq<Func>, f: nat, args: seq<Value>): Option<Value>
    decreases k
  {
    if f >= |fs| || |args| != fs[f].arity then None
    else
      match Run(k, fs, fs[f].body, args)
      case Norm(_) => Some(NumV(0))
      case Return(v) => Some(v)
      case _ => None
  }

  // ---- Statements ----

  datatype Flow = Norm(vs: seq<Value>) | Broke(vs: seq<Value>) | Continued(vs: seq<Value>) | Return(v: Value) | Fault

  function Cut(vs: seq<Value>, n: nat): seq<Value> {
    if n <= |vs| then vs[..n] else vs
  }

  function CutFlow(r: Flow, n: nat): Flow {
    match r
    case Norm(vs) => Norm(Cut(vs, n))
    case Broke(vs) => Broke(Cut(vs, n))
    case Continued(vs) => Continued(Cut(vs, n))
    case _ => r
  }

  function Run(k: nat, fs: seq<Func>, s: Stmt, vs: seq<Value>): Flow
    decreases k, s, 1
  {
    match s
    case Skip => Norm(vs)
    case Then(a, b) =>
      (match Run(k, fs, a, vs)
       case Norm(vs1) => Run(k, fs, b, vs1)
       case r => r)
    case Decl(e) =>
      (match Eval(k, fs, e, vs)
       case None => Fault
       case Some(v) => Norm(vs + [v]))
    case Assign(x, e) =>
      (match Eval(k, fs, e, vs)
       case None => Fault
       case Some(v) => if x >= |vs| then Fault else Norm(vs[x := v]))
    case Do(f, args) =>
      (match EvalAll(k, fs, args, vs)
       case None => Fault
       case Some(xs) => if k == 0 || Invoke(k - 1, fs, f, xs).None? then Fault else Norm(vs))
    case Blk(b) => CutFlow(Run(k, fs, b, vs), |vs|)
    case If(c, t, e) =>
      (match Eval(k, fs, c, vs)
       case None => Fault
       case Some(a) => if Truthy(a) then Run(k, fs, t, vs) else Run(k, fs, e, vs))
    case Forever(b) => Loop(k, fs, b, vs)
    case ForIn(reuse, e, b) =>
      var vs1 := if reuse.None? then vs + [NumV(0)] else vs;
      (match Eval(k, fs, e, vs1)
       case None => Fault
       case Some(a) =>
         var x := if reuse.None? then |vs| else reuse.value;
         CutFlow(Iterate(k, fs, x, b, vs1 + [a, NumV(0)]), |vs|))
    case ForCond(c, b) => While(k, fs, c, b, vs)
    case Break => Broke(vs)
    case Continue => Continued(vs)
    case Ret(e) =>
      match Eval(k, fs, e, vs)
      case None => Fault
      case Some(v) => Return(v)
  }

  function Loop(k: nat, fs: seq<Func>, b: Stmt, vs: seq<Value>): Flow
    decreases k, b, 2
  {
    match Run(k, fs, b, vs)
    case Broke(vs1) => Norm(vs1)
    case Norm(vs1) => if k == 0 then Fault else Loop(k - 1, fs, b, vs1)
    case Continued(vs1) => if k == 0 then Fault else Loop(k - 1, fs, b, vs1)
    case r => r
  }

  /** The last two locals are the array and the position; `x` receives each element in turn. */
  function Iterate(k: nat, fs: seq<Func>, x: nat, b: Stmt, vs: seq<Value>): Flow
    decreases k, b, 2
  {
    if |vs| < 2 || x >= |vs| then Fault
    else
      var a, i := vs[|vs| - 2], vs[|vs| - 1];
      if !IsArr(a) || !IsNum(i) then Fault
      else if i.val >= |a.kids| then Norm(vs)
      else if i.val < 0 then Fault
      else
        match Run(k, fs, b, vs[x := a.kids[i.val]])
        case Broke(vs1) => Norm(vs1)
        case Norm(vs1) => if k == 0 then Fault else Advance(k - 1, fs, x, b, vs1)
        case Continued(vs1) => if k == 0 then Fault else Advance(k - 1, fs, x, b, vs1)
        case r => r
  }

  function Advance(k: nat, fs: seq<Func>, x: nat, b: Stmt, vs: seq<Value>): Flow
    decreases k, b, 3
  {
    if |vs| < 2 || !IsNum(vs[|vs| - 1]) || !Exact(vs[|vs| - 1].val) || !Exact(vs[|vs| - 1].val + 1) then Fault
    else Iterate(k, fs, x, b, vs[|vs| - 1 := NumV(vs[|vs| - 1].val + 1)])
  }

  function While(k: nat, fs: seq<Func>, c: Expr, b: Stmt, vs: seq<Value>): Flow
    decreases k, ForCond(c, b), 0
  {
    match Eval(k, fs, c, vs)
    case None => Fault
    case Some(a) =>
      if !Truthy(a) then Norm(vs)
      else
        match CutFlow(Run(k, fs, b, vs), |vs|)
        case Broke(vs1) => Norm(vs1)
        case Norm(vs1) => if k == 0 then Fault else While(k - 1, fs, c, b, vs1)
        case Continued(vs1) => if k == 0 then Fault else While(k - 1, fs, c, b, vs1)
        case r => r
  }
}
