/** Source programs whose results are known in closed form, for every argument: every kind of loop exit,
    branch and assignment of the source semantics at work (src/compiler.c:1833-1935, 1979-2120, 2357-2402). */
module Counting {
  import opened Defines
  import opened Arenas
  import M = Machine
  import opened Language
  import Operators
  import Simulation
  import Activations
  import Agreement
  import Tameness
  import Meaning
  import Frames
  import Protection
  import Depths
  import Drift
  import C = Codegen
  import opened Parsing
  import opened Statements
  import opened Rendering

  const S := Var(1)
  const I := Var(2)

  /** fn odds(n) { var s = 0 var i = 0 forever { i = i + 1 if (i > n) { break } elif (i % 2 == 0) { continue }
      else { s = s + i } } ret s } */
  const ODDS: Func := Func(1,
    Then(Then(Then(Then(Skip, Decl(Lit(0))), Decl(Lit(0))), Forever(Blk(TURN))), Ret(S)))

  const TURN: Stmt :=
    Then(Then(Skip, Assign(2, Bin(Add, I, Lit(1)))),
         If(Bin(Gt, I, Var(0)), Blk(Then(Skip, Break)),
            If(Bin(Eq, Bin(Mod, I, Lit(2)), Lit(0)), Blk(Then(Skip, Continue)),
               Blk(Then(Skip, Assign(1, Bin(Add, S, I)))))))

  /** The square of half of `n`, rounded up. */
  function Odds(n: nat): nat {
    ((n + 1) / 2) * ((n + 1) / 2)
  }

  lemma OddsStep(i: nat)
    ensures Odds(i + 1) == if (i + 1) % 2 == 0 then Odds(i) else Odds(i) + i + 1
  {
    var m := (i + 1) / 2;
    if (i + 1) % 2 == 0 {
      assert (i + 2) / 2 == m;
    } else {
      assert (i + 2) / 2 == m + 1 && i + 1 == 2 * m + 1;
      assert (m + 1) * (m + 1) == m * m + 2 * m + 1;
    }
  }

  lemma {:induction false} OddsRise(i: nat, n: nat)
    requires i <= n
    ensures Odds(i) <= Odds(n)
    decreases n
  {
    if i < n {
      OddsRise(i, n - 1);
      OddsStep(n - 1);
    }
  }

  function Locals(n: int, s: int, i: int): seq<Value> {
    [NumV(n), NumV(s), NumV(i)]
  }

  /** One turn of the loop. */
  lemma Turn(k: nat, fs: seq<Func>, n: nat, s: int, i: nat)
    requires M.Exact(n) && M.Exact(i + 1) && M.Exact(s) && M.Exact(s + i + 1)
    ensures Run(k, fs, Blk(TURN), Locals(n, s, i)) ==
      if i + 1 > n then Broke(Locals(n, s, i + 1))
      else if (i + 1) % 2 == 0 then Continued(Locals(n, s, i + 1))
      else Norm(Locals(n, s + i + 1, i + 1))
  {
    hide Run, Eval;
    var vs, add := Locals(n, s, i + 1), Then(Skip, Assign(1, Bin(Add, S, I)));
    Counted(k, fs, n, s, i);
    Compared(k, fs, n, s, i + 1);
    Halved(k, fs, n, s, i + 1);
    if 0 < i + 1 <= n && (i + 1) % 2 != 0 {
      Added(k, fs, n, s, i + 1);
    }
    Leaves(k, fs, vs);
    var even := Bin(Eq, Bin(Mod, I, Lit(2)), Lit(0));
    var rest := If(even, Blk(Then(Skip, Continue)), Blk(add));
    Braces(k, fs, Then(Skip, Break), vs);
    Braces(k, fs, Then(Skip, Continue), vs);
    Braces(k, fs, add, vs);
    Branch(k, fs, even, Blk(Then(Skip, Continue)), Blk(add), vs);
    Branch(k, fs, Bin(Gt, I, Var(0)), Blk(Then(Skip, Break)), rest, vs);
    Follows(k, fs, Then(Skip, Assign(2, Bin(Add, I, Lit(1)))), If(Bin(Gt, I, Var(0)), Blk(Then(Skip, Break)), rest), Locals(n, s, i));
    Braces(k, fs, TURN, Locals(n, s, i));
  }

  lemma Leaves(k: nat, fs: seq<Func>, vs: seq<Value>)
    ensures Run(k, fs, Then(Skip, Break), vs) == Broke(vs) && Run(k, fs, Then(Skip, Continue), vs) == Continued(vs)
  {
    assert Run(k, fs, Skip, vs) == Norm(vs);
  }

  lemma Braces(k: nat, fs: seq<Func>, b: Stmt, vs: seq<Value>)
    ensures Run(k, fs, Blk(b), vs) == CutFlow(Run(k, fs, b, vs), |vs|)
  {
  }

  lemma Follows(k: nat, fs: seq<Func>, a: Stmt, b: Stmt, vs: seq<Value>)
    ensures var r := Run(k, fs, a, vs); Run(k, fs, Then(a, b), vs) == if r.Norm? then Run(k, fs, b, r.vs) else r
  {
  }

  /** A branch by its condition: anything but 0 takes the first arm. */
  lemma Branch(k: nat, fs: seq<Func>, c: Expr, t: Stmt, e: Stmt, vs: seq<Value>)
    requires Eval(k, fs, c, vs).Some? && IsNum(Eval(k, fs, c, vs).value)
    ensures Run(k, fs, If(c, t, e), vs) == if Eval(k, fs, c, vs).value.val == 0 then Run(k, fs, e, vs) else Run(k, fs, t, vs)
  {
  }

  lemma Assigns(k: nat, fs: seq<Func>, x: nat, e: Expr, vs: seq<Value>)
    requires x < |vs| && Eval(k, fs, e, vs).Some?
    ensures Run(k, fs, Then(Skip, Assign(x, e)), vs) == Norm(vs[x := Eval(k, fs, e, vs).value])
  {
    hide Eval;
    assert Run(k, fs, Skip, vs) == Norm(vs);
    assert Run(k, fs, Assign(x, e), vs) == Norm(vs[x := Eval(k, fs, e, vs).value]);
  }

  lemma Declares(k: nat, fs: seq<Func>, a: Stmt, n: nat, vs: seq<Value>, ws: seq<Value>)
    requires Run(k, fs, a, vs) == Norm(ws) && M.Exact(n)
    ensures Run(k, fs, Then(a, Decl(Lit(n))), vs) == Norm(ws + [NumV(n)])
  {
    assert Eval(k, fs, Lit(n), ws) == Some(NumV(n));
    assert Run(k, fs, Decl(Lit(n)), ws) == Norm(ws + [NumV(n)]);
  }

  lemma Sum(k: nat, fs: seq<Func>, e: Expr, f: Expr, a: int, b: int, vs: seq<Value>)
    requires Eval(k, fs, e, vs) == Some(NumV(a)) && Eval(k, fs, f, vs) == Some(NumV(b))
    requires M.Exact(a) && M.Exact(b) && M.Exact(a + b)
    ensures Eval(k, fs, Bin(Add, e, f), vs) == Some(NumV(a + b))
  {
  }

  lemma LastReturned(k: nat, fs: seq<Func>, a: Stmt, vs: seq<Value>, us: seq<Value>)
    requires |us| >= 2 && Run(k, fs, a, vs) == Norm(us)
    ensures Run(k, fs, Then(a, Ret(S)), vs) == Return(us[1])
  {
    assert Eval(k, fs, S, us) == Some(us[1]);
    assert Run(k, fs, Ret(S), us) == Return(us[1]);
  }

  lemma Counted(k: nat, fs: seq<Func>, n: int, s: int, i: nat)
    requires M.Exact(i + 1)
    ensures Run(k, fs, Then(Skip, Assign(2, Bin(Add, I, Lit(1)))), Locals(n, s, i)) == Norm(Locals(n, s, i + 1))
  {
    var vs := Locals(n, s, i);
    assert Eval(k, fs, I, vs) == Some(NumV(i)) && Eval(k, fs, Lit(1), vs) == Some(NumV(1));
    hide Eval, Run;
    Sum(k, fs, I, Lit(1), i, 1, vs);
    Assigns(k, fs, 2, Bin(Add, I, Lit(1)), vs);
    assert vs[2 := NumV(i + 1)] == Locals(n, s, i + 1);
  }

  lemma Compared(k: nat, fs: seq<Func>, n: int, s: int, i: nat)
    ensures Eval(k, fs, Bin(Gt, I, Var(0)), Locals(n, s, i)) == Some(NumV(if i > n then 1 else 0))
  {
    assert Eval(k, fs, I, Locals(n, s, i)) == Some(NumV(i)) && Eval(k, fs, Var(0), Locals(n, s, i)) == Some(NumV(n));
  }

  lemma Halved(k: nat, fs: seq<Func>, n: int, s: int, i: nat)
    requires M.Exact(i)
    ensures Eval(k, fs, Bin(Eq, Bin(Mod, I, Lit(2)), Lit(0)), Locals(n, s, i)) == Some(NumV(if i % 2 == 0 then 1 else 0))
  {
    var vs := Locals(n, s, i);
    assert Eval(k, fs, I, vs) == Some(NumV(i)) && Eval(k, fs, Lit(2), vs) == Some(NumV(2));
    assert Eval(k, fs, Bin(Mod, I, Lit(2)), vs) == Some(NumV(i % 2));
    assert Eval(k, fs, Lit(0), vs) == Some(NumV(0));
  }

  lemma Added(k: nat, fs: seq<Func>, n: int, s: int, i: nat)
    requires M.Exact(i) && M.Exact(s) && M.Exact(s + i)
    ensures Run(k, fs, Then(Skip, Assign(1, Bin(Add, S, I))), Locals(n, s, i)) == Norm(Locals(n, s + i, i))
  {
    var vs := Locals(n, s, i);
    assert Eval(k, fs, S, vs) == Some(NumV(s)) && Eval(k, fs, I, vs) == Some(NumV(i));
    hide Eval, Run;
    Sum(k, fs, S, I, s, i, vs);
    Assigns(k, fs, 1, Bin(Add, S, I), vs);
    assert vs[1 := NumV(s + i)] == Locals(n, s + i, i);
  }

  lemma {:induction false} OddsLoop(k: nat, fs: seq<Func>, n: nat, i: nat)
    requires i <= n && n - i <= k && M.Exact(n + 1) && M.Exact(Odds(n) + n + 1)
    ensures Loop(k, fs, Blk(TURN), Locals(n, Odds(i), i)) == Norm(Locals(n, Odds(n), n + 1))
    decreases n - i
  {
    hide Odds, Run;
    OddsRise(i, n);
    Turn(k, fs, n, Odds(i), i);
    if i < n {
      OddsStep(i);
      OddsLoop(k - 1, fs, n, i + 1);
    }
  }

  /** odds(n) returns the sum of the odd numbers up to `n`, which is a square. */
  lemma OddsReturns(k: nat, n: nat)
    requires n <= k && M.Exact(n + 1) && M.Exact(Odds(n) + n + 1)
    ensures Invoke(k, [ODDS], 0, [NumV(n)]) == Some(NumV(((n + 1) / 2) * ((n + 1) / 2)))
  {
    var fs := [ODDS];
    var start := Then(Then(Skip, Decl(Lit(0))), Decl(Lit(0)));
    OddsStart(k, fs, n);
    OddsLoop(k, fs, n, 0);
    Endless(k, fs, Blk(TURN), Locals(n, 0, 0));
    hide Run, Loop;
    Follows(k, fs, start, Forever(Blk(TURN)), [NumV(n)]);
    LastReturned(k, fs, Then(start, Forever(Blk(TURN))), [NumV(n)], Locals(n, Odds(n), n + 1));
    Called(k, fs, [NumV(n)]);
  }

  lemma Endless(k: nat, fs: seq<Func>, b: Stmt, vs: seq<Value>)
    ensures Run(k, fs, Forever(b), vs) == Loop(k, fs, b, vs)
  {
  }

  lemma OddsStart(k: nat, fs: seq<Func>, n: int)
    ensures Run(k, fs, Then(Then(Skip, Decl(Lit(0))), Decl(Lit(0))), [NumV(n)]) == Norm(Locals(n, 0, 0))
  {
    assert Run(k, fs, Skip, [NumV(n)]) == Norm([NumV(n)]);
    Declares(k, fs, Skip, 0, [NumV(n)], [NumV(n)]);
    assert [NumV(n)] + [NumV(0)] == [NumV(n), NumV(0)];
    Declares(k, fs, Then(Skip, Decl(Lit(0))), 0, [NumV(n)], [NumV(n), NumV(0)]);
    assert [NumV(n), NumV(0)] + [NumV(0)] == Locals(n, 0, 0);
  }

  /** fn total(n) { var s = 0 for (x in 1 ... n) { s = s + x } ret s } */
  const TOTAL: Func := Func(1,
    Then(Then(Then(Skip, Decl(Lit(0))), ForIn(None, Bin(To, Lit(1), Var(0)), Blk(Then(Skip, Assign(1, Bin(Add, S, I)))))), Ret(S)))

  function Triangle(n: nat): nat {
    n * (n + 1) / 2
  }

  lemma TriangleStep(n: nat)
    ensures Triangle(n + 1) == Triangle(n) + n + 1
  {
    assert (n + 1) * (n + 2) == n * (n + 1) + 2 * (n + 1);
  }

  lemma {:induction false} TriangleRise(i: nat, n: nat)
    requires i <= n
    ensures Triangle(i) <= Triangle(n)
    decreases n
  {
    if i < n {
      TriangleRise(i, n - 1);
      TriangleStep(n - 1);
    }
  }

  /** The locals of the loop before turn `i`; the loop variable still holds the last element. */
  function LoopLocals(n: int, s: int, x: int, xs: Value, i: int): seq<Value> {
    [NumV(n), NumV(s), NumV(x), xs, NumV(i)]
  }

  lemma TotalTurn(k: nat, fs: seq<Func>, n: int, s: int, x: int, xs: Value, i: int)
    requires M.Exact(x) && M.Exact(s) && M.Exact(s + x)
    ensures Run(k, fs, Blk(Then(Skip, Assign(1, Bin(Add, S, I)))), LoopLocals(n, s, x, xs, i)) == Norm(LoopLocals(n, s + x, x, xs, i))
  {
    var vs := LoopLocals(n, s, x, xs, i);
    assert Eval(k, fs, S, vs) == Some(NumV(s)) && Eval(k, fs, I, vs) == Some(NumV(x));
    hide Eval, Run;
    Sum(k, fs, S, I, s, x, vs);
    Assigns(k, fs, 1, Bin(Add, S, I), vs);
    assert vs[1 := NumV(s + x)] == LoopLocals(n, s + x, x, xs, i);
    Braces(k, fs, Then(Skip, Assign(1, Bin(Add, S, I))), vs);
  }

  lemma {:induction false} TotalLoop(k: nat, fs: seq<Func>, n: nat, i: nat, x: int, xs: seq<Value>)
    requires i <= n == |xs| && n - i <= k && M.Exact(n + 1) && M.Exact(Triangle(n) + n + 1)
    requires forall j :: 0 <= j < n ==> xs[j] == NumV(j + 1)
    ensures var r := Iterate(k, fs, 2, Blk(Then(Skip, Assign(1, Bin(Add, S, I)))), LoopLocals(n, Triangle(i), x, Arr(xs), i));
      r.Norm? && |r.vs| == 5 && r.vs[..2] == [NumV(n), NumV(Triangle(n))]
    decreases n - i
  {
    hide Triangle, Run;
    TriangleRise(i, n);
    var vs := LoopLocals(n, Triangle(i), x, Arr(xs), i);
    if i < n {
      TriangleStep(i);
      var ws := LoopLocals(n, Triangle(i), i + 1, Arr(xs), i);
      assert vs[2 := xs[i]] == ws;
      TotalTurn(k, fs, n, Triangle(i), i + 1, Arr(xs), i);
      assert LoopLocals(n, Triangle(i + 1), i + 1, Arr(xs), i)[4 := NumV(i + 1)] == LoopLocals(n, Triangle(i + 1), i + 1, Arr(xs), i + 1);
      TotalLoop(k - 1, fs, n, i + 1, i + 1, xs);
    }
  }

  /** total(n) returns n (n + 1) / 2. */
  lemma TotalReturns(k: nat, n: nat)
    requires 1 <= n <= k && M.Exact(n + 1) && M.Exact(Triangle(n) + n + 1)
    ensures Invoke(k, [TOTAL], 0, [NumV(n)]) == Some(NumV(n * (n + 1) / 2))
  {
    var fs := [TOTAL];
    var vs, ws := [NumV(n), NumV(0)], [NumV(n), NumV(0), NumV(0)];
    assert Run(k, fs, Skip, [NumV(n)]) == Norm([NumV(n)]);
    hide Run, Eval;
    Declares(k, fs, Skip, 0, [NumV(n)], [NumV(n)]);
    assert [NumV(n)] + [NumV(0)] == vs && vs + [NumV(0)] == ws;
    var ns := Operators.RangeLaws(1, n);
    var xs := seq(|ns|, i requires 0 <= i < |ns| => NumV(ns[i]));
    FromOne(ns, n);
    UpTo(k, fs, ws, n, Arr(xs));
    assert ws + [Arr(xs), NumV(0)] == LoopLocals(n, 0, 0, Arr(xs), 0);
    TotalLoop(k, fs, n, 0, 0, xs);
    ForInRuns(k, fs, vs, ws, Arr(xs));
    hide Iterate;
    var loop := ForIn(None, Bin(To, Lit(1), Var(0)), Blk(Then(Skip, Assign(1, Bin(Add, S, I)))));
    Follows(k, fs, Then(Skip, Decl(Lit(0))), loop, [NumV(n)]);
    LastReturned(k, fs, Then(Then(Skip, Decl(Lit(0))), loop), [NumV(n)], [NumV(n), NumV(Triangle(n))]);
    Called(k, fs, [NumV(n)]);
  }

  lemma Called(k: nat, fs: seq<Func>, args: seq<Value>)
    requires |fs| == 1 && |args| == fs[0].arity && Run(k, fs, fs[0].body, args).Return?
    ensures Invoke(k, fs, 0, args) == Some(Run(k, fs, fs[0].body, args).v)
  {
    hide Run;
  }

  lemma UpTo(k: nat, fs: seq<Func>, vs: seq<Value>, n: nat, xs: Value)
    requires |vs| > 0 && vs[0] == NumV(n) && Apply(To, NumV(1), NumV(n)) == Some(xs)
    ensures Eval(k, fs, Bin(To, Lit(1), Var(0)), vs) == Some(xs)
  {
    hide Apply;
    assert Eval(k, fs, Lit(1), vs) == Some(NumV(1)) && Eval(k, fs, Var(0), vs) == Some(NumV(n));
  }

  lemma ForInRuns(k: nat, fs: seq<Func>, vs: seq<Value>, ws: seq<Value>, xs: Value)
    requires |vs| == 2 && ws == vs + [NumV(0)] && Eval(k, fs, Bin(To, Lit(1), Var(0)), ws) == Some(xs)
    ensures Run(k, fs, ForIn(None, Bin(To, Lit(1), Var(0)), Blk(Then(Skip, Assign(1, Bin(Add, S, I))))), vs)
      == CutFlow(Iterate(k, fs, 2, Blk(Then(Skip, Assign(1, Bin(Add, S, I)))), ws + [xs, NumV(0)]), 2)
  {
    hide Eval, Iterate;
  }

  lemma {:induction false} FromOne(ns: seq<int>, n: nat)
    requires n >= 1 && Operators.Counts(ns, 1, n)
    ensures |ns| == n && forall j :: 0 <= j < n ==> ns[j] == j + 1
  {
    CountsUp(ns, n, |ns|);
  }

  lemma {:induction false} CountsUp(ns: seq<int>, n: nat, m: nat)
    requires n >= 1 && Operators.Counts(ns, 1, n) && m <= |ns|
    ensures forall j :: 0 <= j < m ==> ns[j] == j + 1
    decreases m
  {
    if m > 1 {
      CountsUp(ns, n, m - 1);
      assert ns[m - 2 + 1] - ns[m - 2] == 1;
    }
  }

  /** fn down(n) { var s = 0 for (n > 0) { s = s + n n = n - 1 } ret s } */
  const DOWN: Func := Func(1, Then(Then(Then(Skip, Decl(Lit(0))), ForCond(Bin(Gt, Var(0), Lit(0)), STEP)), Ret(S)))

  const STEP: Stmt := Then(Then(Skip, Assign(1, Bin(Add, S, Var(0)))), Assign(0, Bin(Sub, Var(0), Lit(1))))

  lemma DownStep(k: nat, fs: seq<Func>, n: nat, s: int)
    requires n > 0 && M.Exact(n) && M.Exact(s) && M.Exact(s + n)
    ensures Run(k, fs, STEP, [NumV(n), NumV(s)]) == Norm([NumV(n - 1), NumV(s + n)])
  {
    var vs, ws := [NumV(n), NumV(s)], [NumV(n), NumV(s + n)];
    assert Eval(k, fs, S, vs) == Some(NumV(s)) && Eval(k, fs, Var(0), vs) == Some(NumV(n));
    assert Eval(k, fs, Var(0), ws) == Some(NumV(n)) && Eval(k, fs, Lit(1), ws) == Some(NumV(1));
    assert Eval(k, fs, Bin(Sub, Var(0), Lit(1)), ws) == Some(NumV(n - 1));
    assert Run(k, fs, Assign(0, Bin(Sub, Var(0), Lit(1))), ws) == Norm(ws[0 := NumV(n - 1)]);
    hide Eval, Run;
    Sum(k, fs, S, Var(0), s, n, vs);
    Assigns(k, fs, 1, Bin(Add, S, Var(0)), vs);
    assert vs[1 := NumV(s + n)] == ws && ws[0 := NumV(n - 1)] == [NumV(n - 1), NumV(s + n)];
    Follows(k, fs, Then(Skip, Assign(1, Bin(Add, S, Var(0)))), Assign(0, Bin(Sub, Var(0), Lit(1))), vs);
  }

  lemma Positive(k: nat, fs: seq<Func>, n: nat, s: int)
    ensures Eval(k, fs, Bin(Gt, Var(0), Lit(0)), [NumV(n), NumV(s)]) == Some(NumV(if n > 0 then 1 else 0))
  {
    var vs := [NumV(n), NumV(s)];
    assert Eval(k, fs, Var(0), vs) == Some(NumV(n)) && Eval(k, fs, Lit(0), vs) == Some(NumV(0));
  }

  lemma {:induction false} DownLoop(k: nat, fs: seq<Func>, n: nat, s: nat)
    requires n <= k && M.Exact(n) && M.Exact(s + Triangle(n))
    ensures While(k, fs, Bin(Gt, Var(0), Lit(0)), STEP, [NumV(n), NumV(s)]) == Norm([NumV(0), NumV(s + Triangle(n))])
    decreases n
  {
    hide Triangle, Run, Eval;
    Positive(k, fs, n, s);
    TriangleRise(0, n);
    assert Triangle(0) == 0 by { NoTriangle(); }
    if n > 0 {
      TriangleStep(n - 1);
      TriangleRise(0, n - 1);
      DownStep(k, fs, n, s);
      var ws := [NumV(n - 1), NumV(s + n)];
      assert CutFlow(Norm(ws), 2) == Norm(ws) by { assert ws[..2] == ws; }
      DownLoop(k - 1, fs, n - 1, s + n);
    }
  }

  lemma NoTriangle()
    ensures Triangle(0) == 0
  {
  }

  /** down(n) returns n (n + 1) / 2 as well. */
  lemma DownReturns(k: nat, n: nat)
    requires n <= k && M.Exact(n) && M.Exact(Triangle(n))
    ensures Invoke(k, [DOWN], 0, [NumV(n)]) == Some(NumV(n * (n + 1) / 2))
  {
    var fs, vs := [DOWN], [NumV(n), NumV(0)];
    var loop := ForCond(Bin(Gt, Var(0), Lit(0)), STEP);
    assert Run(k, fs, Skip, [NumV(n)]) == Norm([NumV(n)]);
    assert Run(k, fs, loop, vs) == While(k, fs, Bin(Gt, Var(0), Lit(0)), STEP, vs);
    hide Run, Eval, While;
    Declares(k, fs, Skip, 0, [NumV(n)], [NumV(n)]);
    assert [NumV(n)] + [NumV(0)] == vs;
    DownLoop(k, fs, n, 0);
    Follows(k, fs, Then(Skip, Decl(Lit(0))), loop, [NumV(n)]);
    LastReturned(k, fs, Then(Then(Skip, Decl(Lit(0))), loop), [NumV(n)], [NumV(0), NumV(Triangle(n))]);
    Called(k, fs, [NumV(n)]);
  }

  // ---- From its tokens ----

  const REST_TOKENS: seq<Token> :=
    [TId("i"), TMod, TNum(2), TEq, TNum(0), TLBrace, TContinue, TRBrace]
    + [TElse, TLBrace, TId("s"), TAssign, TId("s"), TPlus, TId("i"), TRBrace]

  const TURN_TOKENS: seq<Token> :=
    [TId("i"), TAssign, TId("i"), TPlus, TNum(1)]
    + [TIf, TId("i"), TGt, TId("n"), TLBrace, TBreak, TRBrace] + ([TElif] + REST_TOKENS)

  const BODY_TOKENS: seq<Token> :=
    [TVar, TId("s"), TAssign, TNum(0)] + [TVar, TId("i"), TAssign, TNum(0)]
    + ([TForever, TLBrace] + TURN_TOKENS + [TRBrace]) + [TRet, TId("s")]

  const ODDS_TOKENS: seq<Token> :=
    [TFn, TId("odds"), TLParen] + ([TId("n")] + ([TRParen] + ([TLBrace] + BODY_TOKENS + [TRBrace])))

  const NAMES: seq<string> := ["n", "s", "i"]

  const ODDS_STYLE: Style := Style((k: nat) => if k < 3 then NAMES[k] else "", false, false)

  function Scope(k: nat): Env
    requires k <= 3
  {
    Env(NAMES[..k], ["odds"])
  }

  lemma ScopeNames()
    ensures Scope(1).locals == ["n"] && Scope(2).locals == ["n", "s"] && Scope(3).locals == ["n", "s", "i"]
    ensures forall x: nat :: x < |Scope(3).locals| ==> Find(Scope(3).locals, Scope(3).locals[x]) == Some(x)
  {
    assert Find(["n", "s", "i"], "n") == Some(0);
    assert "n" != "s" && "n" != "i" && "s" != "i";
    assert ["n", "s", "i"][1..] == ["s", "i"] && ["s", "i"][1..] == ["i"];
    assert Find(["i"], "i") == Some(0) && Find(["s", "i"], "i") == Some(1) && Find(["s", "i"], "s") == Some(0);
  }

  /** The expressions of the program, with no parentheses where none are needed. */
  lemma OddsExpressions()
    ensures var env := Scope(3);
      && Show(Bin(Add, I, Lit(1)), 0, env) == [TId("i"), TPlus, TNum(1)]
      && Show(Bin(Gt, I, Var(0)), 0, env) == [TId("i"), TGt, TId("n")]
      && Show(Bin(Eq, Bin(Mod, I, Lit(2)), Lit(0)), 0, env) == [TId("i"), TMod, TNum(2), TEq, TNum(0)]
      && Show(Bin(Add, S, I), 0, env) == [TId("s"), TPlus, TId("i")] && Show(S, 0, env) == [TId("s")]
    ensures Show(Lit(0), 0, Scope(1)) == [TNum(0)] && Show(Lit(0), 0, Scope(2)) == [TNum(0)]
  {
    hide Show, Bare;
    ScopeNames();
    var env := Scope(3);
    Atoms(env);
    InfixShown(Add, I, Lit(1), env);
    InfixShown(Gt, I, Var(0), env);
    InfixShown(Add, S, I, env);
    InfixShown(Mod, I, Lit(2), env);
    InfixShown(Eq, Bin(Mod, I, Lit(2)), Lit(0), env);
    assert Show(S, 0, env) == [TId("s")] by { ShownBare(S, env); }
    assert Show(Lit(0), 0, Scope(1)) == [TNum(0)] by { Atoms(Scope(1)); ShownBare(Lit(0), Scope(1)); }
    assert Show(Lit(0), 0, Scope(2)) == [TNum(0)] by { Atoms(Scope(2)); ShownBare(Lit(0), Scope(2)); }
  }

  lemma ShownBare(e: Expr, env: Env)
    ensures Show(e, 0, env) == Bare(e, env)
  {
    hide Bare;
  }

  lemma Atoms(env: Env)
    ensures forall x: nat {:trigger NameOf(env.locals, x)} :: Bare(Var(x), env) == [TId(NameOf(env.locals, x))]
    ensures forall n: nat {:trigger Lit(n)} :: Bare(Lit(n), env) == [TNum(n)]
    ensures |env.locals| == 3 ==> Bare(Var(0), env) == [TId(env.locals[0])] && Bare(S, env) == [TId(env.locals[1])] && Bare(I, env) == [TId(env.locals[2])]
  {
  }

  /** An operator between operands that bind more tightly. */
  lemma InfixShown(op: BinOp, l: Expr, r: Expr, env: Env)
    requires !l.Cond? && (l.Bin? ==> OpLevel(l.op) > OpLevel(op)) && !r.Bin? && !r.Cond?
    ensures Show(Bin(op, l, r), 0, env) == Bare(l, env) + [OpToken(op)] + Bare(r, env)
    ensures Bare(Bin(op, l, r), env) == Bare(l, env) + [OpToken(op)] + Bare(r, env)
  {
    hide Bare;
    assert Show(l, OpLevel(op), env) == Bare(l, env) && Show(r, OpLevel(op) + 1, env) == Bare(r, env);
    InfixBare(op, l, r, env);
    ShownBare(Bin(op, l, r), env);
  }

  lemma InfixBare(op: BinOp, l: Expr, r: Expr, env: Env)
    ensures var p := OpLevel(op);
      Bare(Bin(op, l, r), env) == Show(l, if p == RANGE then p + 1 else p, env) + [OpToken(op)] + Show(r, p + 1, env)
  {
    hide Show, OpToken;
  }

  lemma OddsSpelled()
    ensures var env := Scope(3);
      && Spelled(Bin(Add, I, Lit(1)), env) && Spelled(Bin(Gt, I, Var(0)), env) && Spelled(Bin(Add, S, I), env)
      && Spelled(Bin(Eq, Bin(Mod, I, Lit(2)), Lit(0)), env) && Spelled(S, env)
    ensures Spelled(Lit(0), Scope(1)) && Spelled(Lit(0), Scope(2))
  {
    ScopeNames();
    var env := Scope(3);
    assert Spelled(I, env) && Spelled(S, env) && Spelled(Var(0), env) && Spelled(Lit(1), env) && Spelled(Lit(2), env) && Spelled(Lit(0), env);
    assert Spelled(Bin(Mod, I, Lit(2)), env);
  }

  lemma OneStatement(s: Stmt, env: Env, d: nat)
    requires !s.Then? && !s.Blk? && Sayable(s, env, d, ODDS_STYLE)
    ensures SayableBody(Then(Skip, s), env, d, ODDS_STYLE) && Sayable(Blk(Then(Skip, s)), env, d, ODDS_STYLE)
    ensures Spell(Blk(Then(Skip, s)), env, d, ODDS_STYLE) == [TLBrace] + Spell(s, env, d, ODDS_STYLE) + [TRBrace]
    ensures SpellBody(Then(Skip, s), env, d, ODDS_STYLE) == Spell(s, env, d, ODDS_STYLE)
  {
    hide Spelled, Show;
    var y := ODDS_STYLE;
    assert SpellBody(Skip, env, d, y) == [] && EnvAfter(Skip, env, y) == env && SayableBody(Skip, env, d, y);
    ThenSpelled(Skip, s, env, d, y);
    BlockSpelled(Then(Skip, s), env, d, y);
  }

  lemma AssignSpelled(x: nat, e: Expr, d: nat)
    requires x < 3 && Spelled(e, Scope(3))
    ensures Sayable(Assign(x, e), Scope(3), d, ODDS_STYLE)
    ensures Spell(Assign(x, e), Scope(3), d, ODDS_STYLE) == [TId(NAMES[x]), TAssign] + Show(e, 0, Scope(3))
  {
    hide Show, Spelled;
    ScopeNames();
  }

  lemma BranchSpelled(c: Expr, b: Stmt, e: Stmt, d: nat)
    requires Spelled(c, Scope(3)) && SayableBody(b, Scope(3), d, ODDS_STYLE)
    requires (e.Skip? || e.Blk? || e.If?) && Sayable(e, Scope(3), d, ODDS_STYLE)
    ensures Sayable(If(c, Blk(b), e), Scope(3), d, ODDS_STYLE)
    ensures SpellIf(c, Blk(b), e, Scope(3), d, ODDS_STYLE)
      == Show(c, 0, Scope(3)) + (Spell(Blk(b), Scope(3), d, ODDS_STYLE) + SpellElse(e, Scope(3), d, ODDS_STYLE))
  {
    hide Show, Spelled;
    BlockSpelled(b, Scope(3), d, ODDS_STYLE);
  }

  const EVEN: Expr := Bin(Eq, Bin(Mod, I, Lit(2)), Lit(0))
  const ADD: Stmt := Blk(Then(Skip, Assign(1, Bin(Add, S, I))))
  const REST: Stmt := If(EVEN, Blk(Then(Skip, Continue)), ADD)
  const COUNT: Stmt := Assign(2, Bin(Add, I, Lit(1)))
  const EXIT: Stmt := If(Bin(Gt, I, Var(0)), Blk(Then(Skip, Break)), REST)

  lemma RestSpelled()
    ensures Sayable(REST, Scope(3), 1, ODDS_STYLE)
    ensures SpellIf(REST.c, REST.thn, REST.els, Scope(3), 1, ODDS_STYLE) == REST_TOKENS
  {
    hide Spell, SpellBody, SpellIf, SpellElse, Sayable, SayableBody, Show, Spelled, EnvAfter;
    OddsExpressions();
    OddsSpelled();
    JumpsSpelled();
    AssignSpelled(1, Bin(Add, S, I), 1);
    OneStatement(Continue, Scope(3), 1);
    OneStatement(Assign(1, Bin(Add, S, I)), Scope(3), 1);
    BranchSpelled(EVEN, Then(Skip, Continue), ADD, 1);
    ElseTokens(ADD, REST, 1);
    assert Spell(Blk(Then(Skip, Continue)), Scope(3), 1, ODDS_STYLE) == [TLBrace, TContinue, TRBrace];
    assert Spell(ADD, Scope(3), 1, ODDS_STYLE) == [TLBrace, TId("s"), TAssign, TId("s"), TPlus, TId("i"), TRBrace];
  }

  lemma ExitSpelled()
    ensures Sayable(EXIT, Scope(3), 1, ODDS_STYLE)
    ensures Spell(EXIT, Scope(3), 1, ODDS_STYLE) == [TIf, TId("i"), TGt, TId("n"), TLBrace, TBreak, TRBrace] + ([TElif] + REST_TOKENS)
  {
    hide Spell, SpellBody, SpellIf, SpellElse, Sayable, SayableBody, Show, Spelled, EnvAfter;
    OddsExpressions();
    OddsSpelled();
    JumpsSpelled();
    RestSpelled();
    OneStatement(Break, Scope(3), 1);
    BranchSpelled(Bin(Gt, I, Var(0)), Then(Skip, Break), REST, 1);
    ElseTokens(ADD, EXIT, 1);
    ElseTokens(ADD, REST, 1);
    assert Spell(Blk(Then(Skip, Break)), Scope(3), 1, ODDS_STYLE) == [TLBrace, TBreak, TRBrace];
  }

  /** The loop body. */
  lemma TurnSpelled()
    ensures SayableBody(TURN, Scope(3), 1, ODDS_STYLE)
    ensures SpellBody(TURN, Scope(3), 1, ODDS_STYLE) == TURN_TOKENS
  {
    hide Spell, SpellBody, SpellIf, SpellElse, Sayable, SayableBody, Show, Spelled, EnvAfter;
    var env, y := Scope(3), ODDS_STYLE;
    OddsExpressions();
    OddsSpelled();
    AssignSpelled(2, Bin(Add, I, Lit(1)), 1);
    OneStatement(COUNT, env, 1);
    NoNewNames(COUNT, env);
    ExitSpelled();
    ThenSpelled(Then(Skip, COUNT), EXIT, env, 1, y);
    ThenSaid(Then(Skip, COUNT), EXIT, env, 1);
    assert TURN == Then(Then(Skip, COUNT), EXIT);
    assert Spell(COUNT, env, 1, y) == [TId("i"), TAssign, TId("i"), TPlus, TNum(1)];
  }

  lemma JumpsSpelled()
    ensures Sayable(Break, Scope(3), 1, ODDS_STYLE) && Sayable(Continue, Scope(3), 1, ODDS_STYLE)
    ensures Spell(Break, Scope(3), 1, ODDS_STYLE) == [TBreak] && Spell(Continue, Scope(3), 1, ODDS_STYLE) == [TContinue]
  {
  }

  lemma NoNewNames(s: Stmt, env: Env)
    requires s.Assign?
    ensures EnvAfter(Then(Skip, s), env, ODDS_STYLE) == env
  {
    assert EnvAfter(Skip, env, ODDS_STYLE) == env;
  }

  lemma ElseTokens(b: Stmt, f: Stmt, d: nat)
    requires b.Blk? && f.If?
    ensures SpellElse(b, Scope(3), d, ODDS_STYLE) == [TElse] + Spell(b, Scope(3), d, ODDS_STYLE)
    ensures SpellElse(f, Scope(3), d, ODDS_STYLE) == [TElif] + SpellIf(f.c, f.thn, f.els, Scope(3), d, ODDS_STYLE)
    ensures Spell(f, Scope(3), d, ODDS_STYLE) == [TIf] + SpellIf(f.c, f.thn, f.els, Scope(3), d, ODDS_STYLE)
  {
    hide SpellIf, SpellBody;
  }

  /** The whole body, with the locals that its declarations name. */
  lemma BodySpelled()
    ensures SayableBody(ODDS.body, Scope(1), 0, ODDS_STYLE)
    ensures SpellBody(ODDS.body, Scope(1), 0, ODDS_STYLE) == BODY_TOKENS
  {
    hide Spell, SpellBody, SpellIf, SpellElse, Sayable, SayableBody, Show, Spelled, EnvAfter;
    var y := ODDS_STYLE;
    TurnSpelled();
    DeclSpelled();
    var d, loop := Decl(Lit(0)), Forever(Blk(TURN));
    BlockSpelled(TURN, Scope(3), 1, y);
    LoopSpelled(Blk(TURN));
    ReturnSpelled();
    OneStatement(d, Scope(1), 0);
    var a := Then(Skip, d);
    var b := Then(a, d);
    var c := Then(b, loop);
    ThenSpelled(a, d, Scope(1), 0, y);
    ThenSaid(a, d, Scope(1), 0);
    ThenSpelled(b, loop, Scope(1), 0, y);
    ThenSaid(b, loop, Scope(1), 0);
    ThenSpelled(c, Ret(S), Scope(1), 0, y);
    ThenSaid(c, Ret(S), Scope(1), 0);
    assert ODDS.body == Then(c, Ret(S));
  }

  lemma DeclSpelled()
    ensures Sayable(Decl(Lit(0)), Scope(1), 0, ODDS_STYLE) && Sayable(Decl(Lit(0)), Scope(2), 0, ODDS_STYLE)
    ensures Spell(Decl(Lit(0)), Scope(1), 0, ODDS_STYLE) == [TVar, TId("s"), TAssign, TNum(0)]
    ensures Spell(Decl(Lit(0)), Scope(2), 0, ODDS_STYLE) == [TVar, TId("i"), TAssign, TNum(0)]
    ensures EnvAfter(Then(Skip, Decl(Lit(0))), Scope(1), ODDS_STYLE) == Scope(2)
    ensures EnvAfter(Then(Then(Skip, Decl(Lit(0))), Decl(Lit(0))), Scope(1), ODDS_STYLE) == Scope(3)
    ensures forall b :: EnvAfter(Then(Then(Then(Skip, Decl(Lit(0))), Decl(Lit(0))), Forever(b)), Scope(1), ODDS_STYLE) == Scope(3)
  {
    OddsExpressions();
    OddsSpelled();
    ScopeNames();
    hide Show, Spelled;
    var d := Decl(Lit(0));
    assert EnvAfter(Skip, Scope(1), ODDS_STYLE) == Scope(1);
    assert EnvAfter(d, Scope(1), ODDS_STYLE) == Scope(2) && EnvAfter(d, Scope(2), ODDS_STYLE) == Scope(3);
    assert EnvAfter(Then(Skip, d), Scope(1), ODDS_STYLE) == Scope(2);
    assert EnvAfter(Then(Then(Skip, d), d), Scope(1), ODDS_STYLE) == Scope(3);
  }

  lemma LoopSpelled(b: Stmt)
    requires b.Blk? && Sayable(b, Scope(3), 1, ODDS_STYLE)
    ensures Sayable(Forever(b), Scope(3), 0, ODDS_STYLE)
    ensures Spell(Forever(b), Scope(3), 0, ODDS_STYLE) == [TForever] + Spell(b, Scope(3), 1, ODDS_STYLE)
  {
  }

  lemma ReturnSpelled()
    ensures Sayable(Ret(S), Scope(3), 0, ODDS_STYLE) && Spell(Ret(S), Scope(3), 0, ODDS_STYLE) == [TRet, TId("s")]
  {
    OddsExpressions();
    OddsSpelled();
    hide Show, Spelled;
  }

  lemma ThenSaid(a: Stmt, s: Stmt, env: Env, d: nat)
    ensures SayableBody(Then(a, s), env, d, ODDS_STYLE) == Sayable(Then(a, s), env, d, ODDS_STYLE)
  {
    hide Sayable;
  }

  /** The tokens of odds are read as the program above. */
  lemma OddsParses()
    ensures ParseProgram(ODDS_TOKENS, 0, [], []) == Some([ODDS])
  {
    hide *;
    FuncSpelled();
    ProgramReads([ODDS], ["odds"], [ODDS_STYLE]);
  }

  lemma FuncSpelled()
    ensures ["odds"][..0] == [] && SayableFunc(ODDS, "odds", [], ODDS_STYLE)
    ensures SpellProgram(0, [ODDS], ["odds"], [ODDS_STYLE]) == ODDS_TOKENS
  {
    OneSpelled();
    hide SpellFunc, SayableFunc;
    var y := ODDS_STYLE;
    assert ["odds"][..0] == [];
    assert SpellProgram(1, [ODDS], ["odds"], [y]) == [];
  }

  lemma OneSpelled()
    ensures SayableFunc(ODDS, "odds", [], ODDS_STYLE) && SpellFunc(ODDS, "odds", [], ODDS_STYLE) == ODDS_TOKENS
  {
    hide Spell, SpellBody, Sayable, SayableBody, SpellParams, FuncEnv;
    BodySpelled();
    OneParam();
  }

  lemma OneParam()
    ensures SpellParams(0, 1, ODDS_STYLE) == [TId("n")] && FuncEnv(ODDS, "odds", [], ODDS_STYLE) == Scope(1)
  {
    ScopeNames();
    assert ParamNames(1, ODDS_STYLE) == ["n"] && [] + ["odds"] == ["odds"];
    assert SpellParams(1, 1, ODDS_STYLE) == [];
  }

  // ---- On the machine ----

  /** In any context with three locals the statement is tame, and declares none. */
  ghost predicate Tame(s: Stmt) {
    forall cx: C.Ctx :: cx.locals == 3 ==> Agreement.StmtBound(s, cx, [ODDS], true) && C.After(s, cx).locals == 3
  }

  lemma JumpsTame()
    ensures Tame(Skip) && Tame(Break) && Tame(Continue)
  {
  }

  lemma AssignTame(x: nat, e: Expr)
    requires x < 3 && e.Bin? && Depths.Bound(e, 3, [ODDS])
    ensures Tame(Assign(x, e))
  {
    hide Depths.Bound;
  }

  lemma ThenTame(a: Stmt, b: Stmt)
    requires Tame(a) && Tame(b)
    ensures Tame(Then(a, b))
  {
    forall cx: C.Ctx | cx.locals == 3
      ensures Agreement.StmtBound(Then(a, b), cx, [ODDS], true) && C.After(Then(a, b), cx).locals == 3
    {
      assert Agreement.StmtBound(a, cx, [ODDS], true) && C.After(a, cx).locals == 3;
      assert Agreement.StmtBound(b, C.After(a, cx), [ODDS], true) && C.After(b, C.After(a, cx)).locals == 3;
    }
  }

  lemma BlkTame(b: Stmt)
    requires Tame(b)
    ensures Tame(Blk(b))
  {
    forall cx: C.Ctx | cx.locals == 3 ensures Agreement.StmtBound(Blk(b), cx, [ODDS], true) {
      assert Agreement.StmtBound(b, C.Enter(cx), [ODDS], true);
    }
  }

  lemma IfTame(c: Expr, t: Stmt, e: Stmt)
    requires Depths.Bound(c, 3, [ODDS]) && Tame(t) && Tame(e)
    ensures Tame(If(c, t, e))
  {
    hide Depths.Bound, Agreement.StmtBound, C.After;
    forall cx: C.Ctx | cx.locals == 3
      ensures Agreement.StmtBound(If(c, t, e), cx, [ODDS], true) && C.After(If(c, t, e), cx).locals == 3
    {
      assert Agreement.StmtBound(t, cx, [ODDS], true);
      assert Agreement.StmtBound(e, cx.(depth := C.After(t, cx).depth), [ODDS], true);
      BranchTame(c, t, e, cx);
    }
  }

  lemma BranchTame(c: Expr, t: Stmt, e: Stmt, cx: C.Ctx)
    requires Depths.Bound(c, cx.locals, [ODDS]) && Agreement.StmtBound(t, cx, [ODDS], true)
    requires Agreement.StmtBound(e, cx.(depth := C.After(t, cx).depth), [ODDS], true)
    ensures Agreement.StmtBound(If(c, t, e), cx, [ODDS], true) && C.After(If(c, t, e), cx) == C.After(e, cx.(depth := C.After(t, cx).depth))
  {
    hide Depths.Bound;
  }

  lemma ForeverTame(b: Stmt)
    requires Tame(b)
    ensures Tame(Forever(b))
  {
    forall cx: C.Ctx | cx.locals == 3 ensures Agreement.StmtBound(Forever(b), cx, [ODDS], true) {
      assert Agreement.StmtBound(b, C.InLoop(cx, 0, 0), [ODDS], true);
    }
  }

  lemma OddsBound()
    ensures Depths.Bound(Bin(Add, I, Lit(1)), 3, [ODDS]) && Depths.Bound(Bin(Gt, I, Var(0)), 3, [ODDS])
    ensures Depths.Bound(Bin(Add, S, I), 3, [ODDS]) && Depths.Bound(EVEN, 3, [ODDS])
  {
    assert Depths.Bound(I, 3, [ODDS]) && Depths.Bound(S, 3, [ODDS]) && Depths.Bound(Var(0), 3, [ODDS]);
    assert Depths.Bound(Bin(Mod, I, Lit(2)), 3, [ODDS]);
  }

  lemma TurnTame()
    ensures Tame(TURN)
  {
    hide Tame, Depths.Bound;
    OddsBound();
    JumpsTame();
    AssignTame(1, Bin(Add, S, I));
    ThenTame(Skip, Assign(1, Bin(Add, S, I)));
    BlkTame(Then(Skip, Assign(1, Bin(Add, S, I))));
    ThenTame(Skip, Continue);
    BlkTame(Then(Skip, Continue));
    IfTame(EVEN, Blk(Then(Skip, Continue)), ADD);
    ThenTame(Skip, Break);
    BlkTame(Then(Skip, Break));
    IfTame(Bin(Gt, I, Var(0)), Blk(Then(Skip, Break)), REST);
    AssignTame(2, Bin(Add, I, Lit(1)));
    ThenTame(Skip, COUNT);
    ThenTame(Then(Skip, COUNT), EXIT);
  }

  lemma OddsTame()
    ensures Agreement.StmtBound(ODDS.body, C.BodyCtx(1), [ODDS], true)
  {
    var d, loop, c1 := Decl(Lit(0)), Forever(Blk(TURN)), C.BodyCtx(1);
    var c2, c3 := c1.(locals := 2), c1.(locals := 3);
    TurnTame();
    BlkTame(TURN);
    ForeverTame(Blk(TURN));
    assert Agreement.StmtBound(loop, c3, [ODDS], true) && C.After(loop, c3).locals == 3;
    DeclTame(c1);
    DeclTame(c2);
    hide Agreement.StmtBound, C.After;
    InTurn(Skip, d, c1);
    InTurn(Then(Skip, d), d, c1);
    InTurn(Then(Then(Skip, d), d), loop, c1);
    RetTame(C.After(loop, c3));
    InTurn(Then(Then(Then(Skip, d), d), loop), Ret(S), c1);
    assert ODDS.body == Then(Then(Then(Then(Skip, d), d), loop), Ret(S));
  }

  lemma DeclTame(cx: C.Ctx)
    ensures Agreement.StmtBound(Decl(Lit(0)), cx, [ODDS], true) && C.After(Decl(Lit(0)), cx) == cx.(locals := cx.locals + 1)
    ensures Agreement.StmtBound(Skip, cx, [ODDS], true) && C.After(Skip, cx) == cx
  {
  }

  lemma RetTame(cx: C.Ctx)
    requires cx.locals == 3
    ensures Agreement.StmtBound(Ret(S), cx, [ODDS], true)
  {
  }

  lemma InTurn(a: Stmt, b: Stmt, cx: C.Ctx)
    requires Agreement.StmtBound(a, cx, [ODDS], true) && Agreement.StmtBound(b, C.After(a, cx), [ODDS], true)
    ensures Agreement.StmtBound(Then(a, b), cx, [ODDS], true) && C.After(Then(a, b), cx) == C.After(b, C.After(a, cx))
  {
  }

  /** So the compiler's bytecode for it is linked as `OddsRuns` asks. */
  lemma OddsStraight()
    ensures Drift.Straight(ODDS.body, -1)
  {
    TurnStraight();
    hide Drift.Conds;
    var start := Then(Then(Skip, Decl(Lit(0))), Decl(Lit(0)));
    assert Drift.Straight(start, -1);
    assert Drift.Straight(Forever(Blk(TURN)), -1) by { hide Drift.Later; }
  }

  lemma TurnStraight()
    ensures Drift.Straight(TURN, 0) && Drift.Straight(Blk(TURN), 0)
  {
    ExitStraight();
    assert Drift.Straight(Then(Skip, COUNT), 0) && Drift.Conds(Then(Skip, COUNT)) == 0;
    assert TURN == Then(Then(Skip, COUNT), EXIT);
  }

  lemma ExitStraight()
    ensures Drift.Straight(EXIT, 0)
  {
    RestStraight();
    assert Drift.Straight(Blk(Then(Skip, Break)), 0) && Drift.Conds(Blk(Then(Skip, Break))) == 0;
  }

  lemma RestStraight()
    ensures Drift.Straight(REST, 0)
  {
    assert Drift.Straight(Blk(Then(Skip, Continue)), 0) && Drift.Conds(Blk(Then(Skip, Continue))) == 0;
    assert Drift.Straight(ADD, 0);
  }

  /** Wherever the compiled function is started at the bottom of a machine, it halts with the square on the stack,
      unless something fills up on the way. */
  lemma OddsRuns(p: M.Program, ln: C.Link, s: M.State, n: nat) returns (ok: bool, t: M.State)
    requires Simulation.Linked(p, ln, [ODDS]) && |ln.addrs| == 1 && M.Exact(n + 1) && M.Exact(Odds(n) + n + 1)
    requires Meaning.Entered(p, s, ln.addrs[0], [NumV(n)]) && s.fp == 2 && s.scopes == [] && s.stack[0] == M.Num(|p.code|)
    requires Protection.Guarded(s.heap, s.cur, Protection.NONE, [], s.stack, [NumV(|p.code|), NumV(s.stack[1].val)] + [NumV(n)])
    ensures Frames.Arrives(p, s, ok, t)
    ensures ok ==> M.ValidState(t) && M.Step(p, t) == M.Halted && t.scopes == []
    ensures ok ==> t.stack == [Cell(((n + 1) / 2) * ((n + 1) / 2), T_NUM)]
  {
    hide Simulation.Linked, Agreement.StmtBound, Protection.Guarded, M.Step, Invoke, Odds, Frames.Orderly, Frames.Arrives;
    OddsTame();
    OddsReturns(n, n);
    var d := Agreement.Build(p, ln, [ODDS], true, |p.code|);
    assert Activations.Sound(d);
    var low := [NumV(|p.code|), NumV(s.stack[1].val)];
    Tameness.TameOrderly(d, 0, s, [NumV(n)], Protection.NONE, low);
    ok, t := Meaning.EntryMeans(n, [ODDS], ln, p, 0, s, [NumV(n)], NumV(((n + 1) / 2) * ((n + 1) / 2)));
  }
}
