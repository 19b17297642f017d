/** The operators by their laws: what the source operators and the instructions emitted for them compute,
    in terms of whole numbers only (src/vm.c:993-1018, 1154-1174, 1221-1229, 1907-1951). */
module Operators {
  import opened Defines
  import opened Arenas
  import opened Evacuation
  import opened Machine
  import opened Language
  import opened Frames
  import opened Parsing

  // ---- Comparison ----

  /** `op` gives 1 on the numbers `a` and `b`. */
  predicate Yes(op: BinOp, a: int, b: int) {
    Apply(op, NumV(a), NumV(b)) == Some(NumV(1))
  }

  predicate No(op: BinOp, a: int, b: int) {
    Apply(op, NumV(a), NumV(b)) == Some(NumV(0))
  }

  /** Exactly one of less, equal and greater holds; the other three are their negations. */
  lemma ComparisonLaws(a: int, b: int)
    ensures Yes(Lt, a, b) <==> a < b
    ensures forall op <- [Lt, Gt, Le, Ge, Eq, Neq] :: Yes(op, a, b) != No(op, a, b)
    ensures Yes(Lt, a, b) || Yes(Eq, a, b) || Yes(Gt, a, b)
    ensures !(Yes(Lt, a, b) && Yes(Eq, a, b)) && !(Yes(Lt, a, b) && Yes(Gt, a, b)) && !(Yes(Eq, a, b) && Yes(Gt, a, b))
    ensures Yes(Gt, a, b) == Yes(Lt, b, a) && Yes(Ge, a, b) == Yes(Le, b, a)
    ensures Yes(Le, a, b) == No(Gt, a, b) && Yes(Ge, a, b) == No(Lt, a, b) && Yes(Neq, a, b) == No(Eq, a, b)
  {
  }

  /** The answer of the comparison `op` on the numbers `a` and `b`. */
  predicate Compares(op: BinOp, a: int, b: int) {
    match op
    case Lt => a < b
    case Gt => b < a
    case Le => !(b < a)
    case Ge => !(a < b)
    case Eq => !(a < b) && !(b < a)
    case _ => a < b || b < a
  }

  /** What the instruction emitted for a comparison leaves on the stack. */
  lemma CompareStep(p: Program, s: State, op: BinOp)
    requires op in [Lt, Gt, Le, Ge, Eq, Neq] && ValidState(s) && Has(p, s.ip, [OpCode(op)])
    requires |s.stack| >= 2 && Top(s, 1).tag != T_ENUM && Top(s, 0).tag != T_ENUM
    ensures Step(p, s).Next?
    ensures var t, a, b := Step(p, s).s, Top(s, 1).val, Top(s, 0).val;
      t == s.(ip := s.ip + 1, stack := s.stack[..|s.stack| - 2] + [Cell(if Compares(op, a, b) then 1 else 0, T_NUM)])
  {
    hide Exec;
    FetchOne(p, s, OpCode(op));
    CompareExec(p, s.(ip := s.ip + 1), op);
  }

  lemma CompareExec(p: Program, s: State, op: BinOp)
    requires op in [Lt, Gt, Le, Ge, Eq, Neq] && ValidState(s) && 0 <= s.ip
    requires |s.stack| >= 2 && Top(s, 1).tag != T_ENUM && Top(s, 0).tag != T_ENUM
    ensures Exec(p, s, OpCode(op))
      == Next(s.(stack := s.stack[..|s.stack| - 2] + [Cell(if Compares(op, Top(s, 1).val, Top(s, 0).val) then 1 else 0, T_NUM)]))
  {
    hide ValidHeap;
  }

  // ---- Logic and branches ----

  /** Both operands are computed; anything but 0 counts as true. */
  lemma LogicLaws(a: Value, b: Value)
    ensures var x, y := a != Leaf(0, T_NUM) && (a.Leaf? ==> a.val != 0), b != Leaf(0, T_NUM) && (b.Leaf? ==> b.val != 0);
      && Apply(And, a, b) == Some(NumV(if x then if y then 1 else 0 else 0))
      && Apply(Or, a, b) == Some(NumV(if x then 1 else if y then 1 else 0))
  {
  }

  /** OP_AND and OP_OR on the stack. */
  lemma LogicStep(p: Program, s: State, op: BinOp)
    requires (op == And || op == Or) && ValidState(s) && Has(p, s.ip, [OpCode(op)]) && |s.stack| >= 2
    ensures Step(p, s).Next?
    ensures var t, a, b := Step(p, s).s, Top(s, 1).val, Top(s, 0).val;
      var zeros := (if a == 0 then 1 else 0) + (if b == 0 then 1 else 0);
      t == s.(ip := s.ip + 1,
              stack := s.stack[..|s.stack| - 2] + [Cell(if zeros == 0 || (zeros == 1 && op == Or) then 1 else 0, T_NUM)])
  {
    hide ValidHeap;
    FetchOne(p, s, OpCode(op));
  }

  /** OP_JZ and OP_JNZ take opposite branches, OP_JZ the jump on 0. */
  lemma BranchStep(p: Program, s: State, op: int, target: int)
    requires (op == OP_JZ || op == OP_JNZ) && ValidState(s) && Has(p, s.ip, [op, target]) && |s.stack| >= 1
    ensures Step(p, s).Next?
    ensures var jumps := if op == OP_JZ then Top(s, 0).val == 0 else Top(s, 0).val != 0;
      Step(p, s).s == s.(ip := if jumps then target else s.ip + 2, stack := s.stack[..|s.stack| - 1])
  {
    hide ValidHeap;
    Fetch(p, s, op, target);
  }

  /** OP_DUP leaves the top twice. */
  lemma DupStep(p: Program, s: State)
    requires ValidState(s) && Has(p, s.ip, [OP_DUP]) && 1 <= |s.stack| < STACK_SIZE
    ensures Step(p, s) == Next(s.(ip := s.ip + 1, stack := s.stack + [s.stack[|s.stack| - 1]]))
  {
    hide ValidHeap;
    FetchOne(p, s, OP_DUP);
  }

  // ---- Arithmetic ----

  const LIMIT: int := 9007199254740992

  predicate Small(n: int) {
    -LIMIT <= n <= LIMIT
  }

  /** `op` gives the number `n` on the numbers `a` and `b`. */
  predicate Gives(op: BinOp, a: int, b: int, n: int) {
    Apply(op, NumV(a), NumV(b)) == Some(NumV(n))
  }

  /** Sum and difference, defined wherever they and their operands stay within 2^53: 0 is neutral,
      counting on by one counts the sum on by one, and the difference takes the sum back. */
  lemma SumLaws(a: int, b: int, n: int)
    ensures Small(a) ==> Gives(Add, a, 0, a) && Gives(Sub, a, 0, a)
    ensures Gives(Add, a, b, n) && Small(b + 1) && Small(n + 1) ==> Gives(Add, a, b + 1, n + 1)
    ensures Gives(Add, a, b + 1, n + 1) && Small(b) && Small(n) ==> Gives(Add, a, b, n)
    ensures Gives(Add, a, b, n) <==> Gives(Sub, n, b, a)
    ensures Gives(Add, a, b, n) ==> Small(a) && Small(b) && Small(n)
  {
  }

  /** The product is repeated addition, up and down from 0. */
  lemma ProductLaws(a: int, b: int, n: int)
    ensures Small(a) ==> Gives(Mul, a, 0, 0)
    ensures Gives(Mul, a, b, n) && Small(b + 1) && Small(n + a) ==> Gives(Mul, a, b + 1, n + a)
    ensures Gives(Mul, a, b + 1, n + a) && Small(b) && Small(n) ==> Gives(Mul, a, b, n)
    ensures Gives(Mul, a, b, n) ==> Small(a) && Small(b) && Small(n)
  {
    assert a * (b + 1) == a * b + a;
  }

  /** The remainder of a number by another: what is left after taking whole multiples away, smaller than
      the divisor and on the side of the dividend. There is one such number. */
  ghost predicate IsRemainder(a: int, b: int, q: int, r: int) {
    && a == b * q + r
    && (if b < 0 then b < r < -b else -b < r < b)
    && (r == 0 || (r < 0 <==> a < 0))
  }

  lemma RemainderLaws(a: int, b: int) returns (q: int, r: int)
    requires Small(a) && Small(b) && b != 0
    ensures IsRemainder(a, b, q, r) && Gives(Mod, a, b, r)
    ensures if r == 0 then Gives(Div, a, b, q) else Apply(Div, NumV(a), NumV(b)) == None
  {
    r := FMod(a, b);
    q := Quotient(a, b);
    hide FMod;
    if r == 0 {
      FarApart(b, q);
      FarApart(q, b);
      QuotientExact(a, b, q);
    }
  }

  lemma Quotient(a: int, b: int) returns (q: int)
    requires b != 0
    ensures IsRemainder(a, b, q, FMod(a, b)) && Abs(FMod(a, b)) <= Abs(a)
  {
    var m: int, rest: int := Parts(Abs(a), Abs(b));
    assert FMod(a, b) == if a < 0 then -rest else rest;
    hide FMod;
    Signs(Abs(b), m);
    q := if (a < 0) == (b < 0) then m else -m;
  }

  lemma Parts(n: nat, k: nat) returns (m: nat, rest: nat)
    requires k > 0
    ensures n == k * m + rest && rest == n % k && rest < k && rest <= n
  {
    m, rest := n / k, n % k;
    if m > 0 { Multiple(k, m); }
  }

  lemma Signs(x: int, y: int)
    ensures -x * y == -(x * y) && x * -y == -(x * y) && -x * -y == x * y
  {
  }

  /** A nonzero multiple of a number is at least as large. */
  lemma FarApart(b: int, d: int)
    ensures d != 0 ==> Abs(b * d) >= Abs(b)
  {
    Signs(Abs(b), Abs(d));
    if d != 0 { Multiple(Abs(b), Abs(d)); }
  }

  lemma {:induction false} Multiple(k: nat, d: nat)
    requires d >= 1
    ensures k * d >= k
    decreases d
  {
    if d > 1 {
      Multiple(k, d - 1);
      assert k * d == k * (d - 1) + k;
    }
  }

  lemma QuotientExact(a: int, b: int, q: int)
    requires b != 0 && a == b * q
    ensures a / b == q
  {
    var d, r := a / b, a % b;
    assert a == b * d + r;
    Difference(b, q, d);
    FarApart(b, q - d);
  }

  lemma Difference(b: int, x: int, y: int)
    ensures b * (x - y) == b * x - b * y
  {
  }

  lemma RemainderUnique(a: int, b: int, q: int, r: int, q': int, r': int)
    requires b != 0 && IsRemainder(a, b, q, r) && IsRemainder(a, b, q', r')
    ensures q == q' && r == r'
  {
    Difference(b, q, q');
    FarApart(b, q - q');
    if q == q' {
      assert b * q == b * q';
    }
  }

  // ---- Ranges ----

  /** The whole numbers from `start` to `stop`, both included, one by one. */
  ghost predicate Counts(ns: seq<int>, start: int, stop: int) {
    && |ns| >= 1 && ns[0] == start && ns[|ns| - 1] == stop
    && (forall i :: 0 <= i < |ns| - 1 ==> ns[i + 1] - ns[i] == if start <= stop then 1 else -1)
    && (forall n :: n in ns <==> start <= n <= stop || stop <= n <= start)
  }

  function Numbers(start: int, stop: int): seq<int> {
    seq(RangeLen(start, stop), i => RangeAt(start, stop, i))
  }

  lemma RangeCounts(start: int, stop: int)
    ensures Counts(Numbers(start, stop), start, stop)
  {
    var ns := Numbers(start, stop);
    forall n | start <= n <= stop || stop <= n <= start ensures n in ns {
      assert ns[if start <= stop then n - start else start - n] == n;
    }
  }

  /** The source value of start ... stop. */
  lemma RangeLaws(start: int, stop: int) returns (ns: seq<int>)
    ensures Counts(ns, start, stop)
    ensures Apply(To, NumV(start), NumV(stop)) == Some(Arr(seq(|ns|, i requires 0 <= i < |ns| => NumV(ns[i]))))
  {
    ns := Numbers(start, stop);
    RangeCounts(start, stop);
    assert RangeOf(start, stop).kids == seq(|ns|, i requires 0 <= i < |ns| => NumV(ns[i]));
  }

  /** The array that OP_RANGE pushes. */
  lemma RangeStep(p: Program, s: State, t: State) returns (ns: seq<int>)
    requires ValidState(s) && Has(p, s.ip, [OP_RANGE]) && |s.stack| >= 2 && Step(p, s) == Next(t)
    ensures Counts(ns, Top(s, 1).val, Top(s, 0).val)
    ensures |t.stack| == |s.stack| - 1 && Top(t, 0).tag == T_OBJ
    ensures Elems(t.heap, Top(t, 0)) == Some(seq(|ns|, i requires 0 <= i < |ns| => Cell(ns[i], T_NUM)))
  {
    hide ValidHeap, PushArray;
    FetchOne(p, s, OP_RANGE);
    var a, b := Top(s, 1).val, Top(s, 0).val;
    var s1 := Drop(s.(ip := s.ip + 1), 2);
    ns := Numbers(a, b);
    RangeCounts(a, b);
    var cells := seq(RangeLen(a, b), i => Num(RangeAt(a, b, i)));
    assert cells == seq(|ns|, i requires 0 <= i < |ns| => Cell(ns[i], T_NUM));
    ArrayPushed(s1, cells, t);
  }

  lemma ArrayPushed(s: State, cells: seq<Cell>, t: State)
    requires ValidState(s) && PushArray(s, cells) == Next(t)
    ensures |t.stack| == |s.stack| + 1 && Top(t, 0).tag == T_OBJ && Elems(t.heap, Top(t, 0)) == Some(cells)
  {
    hide Pack, Off, Region, Gen, ArrayBlock, Append, Elems, Live, At;
    var h := if s.heap[s.cur].active then s.heap else Opened(s.heap, s.cur);
    var k := h[s.cur].head;
    PackRoundTrip(h[s.cur].gen, s.cur, k);
    BlockHeld(h, s.cur, cells);
    SameGen(h, s.cur, cells);
    ElemsAt(t.heap, Top(t, 0), s.cur, k, cells);
  }

  lemma SameGen(h: Heap, a: int, cells: seq<Cell>)
    requires ValidHeap(h) && 0 <= a < MAX_ARENAS && Room(h, a, 2 + |cells|)
    ensures var x := Append(h, a, ArrayBlock(h, a, cells))[a]; x.active && x.gen == h[a].gen
  {
    hide ArrayBlock;
  }

  lemma ElemsAt(h: Heap, c: Cell, a: int, k: int, cells: seq<Cell>)
    requires ValidHeap(h) && 0 <= a < MAX_ARENAS && c.val >= 0 && Region(c.val) == a && Off(c.val) == k && Gen(c.val) == h[a].gen
    requires h[a].active && 0 <= k && k + 2 + |cells| <= |h[a].mem| == MAX_HEAP
    requires h[a].mem[k].val == TYPE_ARRAY && h[a].mem[k + 1].val == |cells| && h[a].mem[k + 2..k + 2 + |cells|] == cells
    ensures Elems(h, c) == Some(cells)
  {
    hide Off, Region, Gen;
  }

  lemma BlockHeld(h: Heap, a: int, cells: seq<Cell>)
    requires ValidHeap(h) && 0 <= a < MAX_ARENAS && Room(h, a, 2 + |cells|)
    ensures var m, k := Append(h, a, ArrayBlock(h, a, cells))[a].mem, h[a].head;
      && 0 <= k && k + 2 + |cells| <= |m| == MAX_HEAP
      && m[k].val == TYPE_ARRAY && m[k + 1].val == |cells| && m[k + 2..k + 2 + |cells|] == cells
  {
    var block := ArrayBlock(h, a, cells);
    var r, k := Append(h, a, block), h[a].head;
    assert block[0].val == TYPE_ARRAY && block[1].val == |cells| && block[2..] == cells;
    assert SameArena(h[a], r[a]);
    hide Append, ArrayBlock, Grown;
    assert r[a].mem[k + 0] == block[0] && r[a].mem[k + 1] == block[1];
    forall j | 0 <= j < |cells| ensures r[a].mem[k + 2 + j] == cells[j] {
      assert r[a].mem[k + (2 + j)] == block[2 + j] == block[2..][j];
    }
  }

  // ---- Elements ----

  /** Indices count from either end, and nothing is found beyond. */
  lemma ElementLaws(xs: seq<Value>, i: int)
    ensures 0 <= i < |xs| ==> ElementAt(Arr(xs), NumV(i)) == Some(xs[i]) && ElementAt(Arr(xs), NumV(i - |xs|)) == Some(xs[i])
    ensures i >= |xs| || i < -|xs| ==> ElementAt(Arr(xs), NumV(i)) == None
  {
  }

  /** The iteration opcodes on an array: OP_IT_KEY gives the position, the others the element. */
  lemma IterStep(p: Program, s: State, op: int, cells: seq<Cell>)
    requires op in [OP_IT_KEY, OP_IT_VAL, OP_IT_DEF] && ValidState(s) && Has(p, s.ip, [op]) && |s.stack| >= 2
    requires Elems(s.heap, Top(s, 1)) == Some(cells)
    ensures var i := Top(s, 0).val;
      if i < 0 || |cells| <= i then Step(p, s) == Stuck
      else Step(p, s) == Next(s.(ip := s.ip + 1, stack := s.stack[..|s.stack| - 2] + [if op == OP_IT_KEY then Cell(i, T_NUM) else cells[i]]))
  {
    hide ValidHeap, Elems;
    FetchOne(p, s, op);
  }

  /** A list holds the values of its elements, in order, if all of them have one. */
  lemma {:induction false} ListLaws(k: nat, fs: seq<Func>, es: seq<Expr>, vs: seq<Value>)
    ensures Eval(k, fs, List(es), vs).Some? <==> forall i :: 0 <= i < |es| ==> Eval(k, fs, es[i], vs).Some?
    ensures Eval(k, fs, List(es), vs).Some? ==>
      var a := Eval(k, fs, List(es), vs).value;
      IsArr(a) && |a.kids| == |es| && forall i :: 0 <= i < |es| ==> Eval(k, fs, es[i], vs) == Some(a.kids[i])
  {
    AllLaws(k, fs, es, vs);
  }

  lemma {:induction false} AllLaws(k: nat, fs: seq<Func>, es: seq<Expr>, vs: seq<Value>)
    ensures EvalAll(k, fs, es, vs).Some? <==> forall i :: 0 <= i < |es| ==> Eval(k, fs, es[i], vs).Some?
    ensures EvalAll(k, fs, es, vs).Some? ==> forall i :: 0 <= i < |es| ==> Eval(k, fs, es[i], vs) == Some(EvalAll(k, fs, es, vs).value[i])
    decreases es
  {
    hide Eval;
    if es != [] {
      var rest := es[1..];
      AllLaws(k, fs, rest, vs);
      assert forall i :: 0 <= i < |rest| ==> es[i + 1] == rest[i];
      if forall i :: 0 <= i < |es| ==> Eval(k, fs, es[i], vs).Some? {
        assert Eval(k, fs, es[0], vs).Some?;
        forall i | 0 <= i < |rest| ensures Eval(k, fs, rest[i], vs).Some? {
          assert Eval(k, fs, es[i + 1], vs).Some?;
        }
      }
      if EvalAll(k, fs, es, vs).Some? {
        forall i | 0 <= i < |es| ensures Eval(k, fs, es[i], vs) == Some(EvalAll(k, fs, es, vs).value[i]) {
          if i > 0 { assert es[i] == rest[i - 1]; }
        }
      }
    }
  }

  /** A conditional is its first arm unless the condition is 0; the other arm need not have a value. */
  lemma CondLaws(k: nat, fs: seq<Func>, c: Expr, t: Expr, f: Expr, vs: seq<Value>, n: int)
    requires Eval(k, fs, c, vs) == Some(NumV(n))
    ensures n == 0 ==> Eval(k, fs, Cond(c, t, f), vs) == Eval(k, fs, f, vs)
    ensures n != 0 ==> Eval(k, fs, Cond(c, t, f), vs) == Eval(k, fs, t, vs)
  {
  }

  /** A sign before a parenthesis negates, whether or not what it holds folds into a constant. */
  lemma NegatedMeans(k: nat, fs: seq<Func>, e: Expr, vs: seq<Value>)
    ensures Eval(k, fs, Negated(e), vs) == Eval(k, fs, Neg(e), vs)
  {
  }
}
