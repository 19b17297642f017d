/** What every run of linked functions keeps, whether it ends or not: each frame's height and open
    scopes are those noted for the instruction it is at, no instruction takes cells of another
    frame, and frame pointers strictly increase (src/vm.c:1230-1280, 1822-1840). */
module Activations {
  import opened Defines
  import opened Arenas
  import opened Evacuation
  import opened Machine
  import opened Frames
  import opened Calls
  import opened Codegen
  import opened Simulation
  import opened Depths
  import opened Agreement
  import opened Meaning
  import L = Language

  /** Functions in place that agree about their depths, with their calls arity-correct. */
  ghost predicate Sound(d: Build) {
    && Linked(d.p, d.ln, d.fs) && |d.ln.addrs| == |d.fs|
    && forall f :: 0 <= f < |d.fs| ==> StmtBound(d.fs[f].body, BodyCtx(d.fs[f].arity), d.fs, d.tame)
  }

  /** The last scopes were opened by the frame at `fp`, at the local counts `ms`. */
  ghost predicate Open(scopes: seq<Scope>, fp: int, ms: seq<nat>) {
    && |ms| <= |scopes|
    && forall k :: |scopes| - |ms| <= k < |scopes| ==>
         scopes[k].fp == fp && scopes[k].spAtEntry == fp + ms[k - (|scopes| - |ms|)] - 1
  }

  function Outer(scopes: seq<Scope>, ms: seq<nat>): seq<Scope>
    requires |ms| <= |scopes|
  {
    scopes[..|scopes| - |ms|]
  }

  /** The frames below the one at `top`: `ret` and `fp` are what it saved, `stack` and `scopes` lie
      below it. The innermost waits for a result where `ret` is. */
  ghost predicate Waiting(d: Build, under: seq<nat>, ret: int, fp: int, stack: seq<Cell>,
                          scopes: seq<Scope>)
    decreases |under|
  {
    if under == [] then ret == d.home && forall k :: 0 <= k < |scopes| ==> scopes[k].fp < |stack| + 2
    else
      var f := under[|under| - 1];
      && f < |d.fs| && f < |d.ln.addrs| && 2 <= fp <= |stack|
      && var n := NoteAt(ListingOf(d, f), ret);
        && n.Spot? && !n.mild && |stack| + 1 == fp + n.height && Open(scopes, fp, n.marks)
        && Waiting(d, under[..|under| - 1], stack[fp - 2].val, stack[fp - 1].val, stack[..fp - 2], Outer(scopes, n.marks))
  }

  /** `acts` are the functions whose frames are on the stack, the running one last. */
  ghost predicate Consistent(d: Build, s: State, acts: seq<nat>) {
    && ValidState(s) && |acts| > 0
    && var f := acts[|acts| - 1];
      && f < |d.fs| && f < |d.ln.addrs| && 2 <= s.fp <= |s.stack|
      && var n := NoteAt(ListingOf(d, f), s.ip);
        && n.Spot? && |s.stack| == s.fp + n.height && Open(s.scopes, s.fp, n.marks)
        && Waiting(d, acts[..|acts| - 1], s.stack[s.fp - 2].val, s.stack[s.fp - 1].val, s.stack[..s.fp - 2], Outer(s.scopes, n.marks))
  }

  // ---- Scopes of the frames below ----

  /** All scopes of waiting frames belong to frames below. */
  lemma {:induction false} WaitingScopes(d: Build, under: seq<nat>, ret: int, fp: int,
                                         stack: seq<Cell>, scopes: seq<Scope>)
    requires Waiting(d, under, ret, fp, stack, scopes)
    ensures forall k :: 0 <= k < |scopes| ==> scopes[k].fp < |stack| + 2
    decreases |under|
  {
    if under != [] {
      var n := NoteAt(ListingOf(d, under[|under| - 1]), ret);
      var out := Outer(scopes, n.marks);
      WaitingScopes(d, under[..|under| - 1], stack[fp - 2].val, stack[fp - 1].val, stack[..fp - 2], out);
      forall k | 0 <= k < |scopes| ensures scopes[k].fp < |stack| + 2 {
        if k < |out| {
          assert out[k] == scopes[k];
        }
      }
    }
  }

  /** OP_RET leaves exactly the scopes of its own frame. */
  lemma {:induction false} PopsOwn(scopes: seq<Scope>, fp: int, cur: int, h: Heap, rv: Cell, d: nat)
    requires ValidHeap(h) && 0 <= cur < MAX_ARENAS && forall k :: 0 <= k < |scopes| ==> ValidScope(scopes[k])
    requires d <= |scopes| && forall k :: |scopes| - d <= k < |scopes| ==> scopes[k].fp == fp
    requires forall k :: 0 <= k < |scopes| - d ==> scopes[k].fp < fp
    requires PopScopes(scopes, fp, cur, h, rv).Some?
    ensures PopScopes(scopes, fp, cur, h, rv).value.scopes == scopes[..|scopes| - d]
    decreases d
  {
    hide Evac, Off;
    if d > 0 {
      var j := |scopes| - 1;
      var sc, rest := scopes[j], scopes[..j];
      assert rest[..|rest| - (d - 1)] == scopes[..|scopes| - d];
      if sc.arena != cur {
        PopsOwn(rest, fp, cur, h, rv, d - 1);
      } else if rv.tag != T_OBJ {
        PopsOwn(rest, fp, cur, WithHead(h, cur, sc.head), rv, d - 1);
      } else {
        var (h1, q) := Evac(h, rv.val, sc.head).value;
        PopsOwn(rest, fp, cur, if Off(q) < sc.head then WithHead(h1, cur, sc.head) else h1, Cell(q, T_OBJ), d - 1);
      }
    } else {
      assert scopes[..|scopes|] == scopes;
    }
  }

  // ---- Steps inside a frame ----

  /** The cells an instruction without operands takes, and whether it leaves one. */
  function Takes(op: int): nat {
    if op == OP_SLICE then 3
    else if op == OP_ALEN || op == OP_POP || op == OP_RET then 1
    else if op == OP_SCOPE_ENTER || op == OP_SCOPE_EXIT then 0
    else 2
  }

  lemma PlainEffect(p: Program, s: State, op: int, t: State)
    requires ValidState(s) && 0 <= s.ip && Plain(op) && op !in {OP_SCOPE_ENTER, OP_SCOPE_EXIT, OP_RET}
    requires Exec(p, s, op) == Next(t)
    ensures t.ip == s.ip && t.fp == s.fp && t.scopes == s.scopes && Takes(op) <= |s.stack|
    ensures |t.stack| == |s.stack| - Takes(op) + if op == OP_POP then 0 else 1
    ensures t.stack[..|s.stack| - Takes(op)] == s.stack[..|s.stack| - Takes(op)]
  {
    hide Elems, Arith, Holds, Slice, RangeLen, RangeAt, ValidHeap, Append, ArrayBlock, Pack;
  }

  /** What a step inside a frame leaves alone, and where it arrives. */
  ghost predicate Local(g: Listing, s: State, n: Note, t: State)
    requires n.Spot? && |n.marks| <= |s.scopes|
  {
    && 0 <= s.fp <= |s.stack| && t.fp == s.fp && s.fp <= |t.stack| && t.stack[..s.fp] == s.stack[..s.fp]
    && var n' := NoteAt(g, t.ip);
      && n'.Spot? && |t.stack| == s.fp + n'.height && Open(t.scopes, s.fp, n'.marks) && Outer(t.scopes, n'.marks) == Outer(s.scopes, n.marks)
  }

  ghost predicate Inside(s: State, n: Note) {
    && ValidState(s) && 0 <= s.fp && n.Spot? && n.height >= 0 && |s.stack| == s.fp + n.height
    && Open(s.scopes, s.fp, n.marks) && forall k :: 0 <= k < |s.scopes| - |n.marks| ==> s.scopes[k].fp < s.fp
  }

  lemma PlainLocal(p: Program, g: Listing, s: State, n: Note, op: int, t: State)
    requires Inside(s, n) && 0 <= s.ip && Plain(op) && op !in {OP_SCOPE_ENTER, OP_SCOPE_EXIT, OP_RET}
    requires FlowPlain(g, s.ip, op, n.height, n.marks) && Exec(p, s, op) == Next(t)
    ensures Local(g, s, n, t)
  {
    hide Exec, ValidState, NoteAt;
    PlainEffect(p, s, op, t);
    var d := Takes(op);
    assert s.fp <= |s.stack| - d;
    assert t.stack[..s.fp] == t.stack[..|s.stack| - d][..s.fp] == s.stack[..s.fp];
  }

  lemma EnterLocal(p: Program, g: Listing, s: State, n: Note, t: State)
    requires Inside(s, n) && 0 <= s.ip && FlowPlain(g, s.ip, OP_SCOPE_ENTER, n.height, n.marks) && Exec(p, s, OP_SCOPE_ENTER) == Next(t)
    ensures Local(g, s, n, t)
  {
    hide ValidState, NoteAt;
    assert Outer(t.scopes, n.marks + [n.height as nat]) == Outer(s.scopes, n.marks);
  }

  lemma ExitLocal(p: Program, g: Listing, s: State, n: Note, t: State)
    requires Inside(s, n) && 0 <= s.ip && FlowPlain(g, s.ip, OP_SCOPE_EXIT, n.height, n.marks) && Exec(p, s, OP_SCOPE_EXIT) == Next(t)
    ensures Local(g, s, n, t)
  {
    hide ValidHeap, NoteAt;
    var out := n.marks[..|n.marks| - 1];
    assert Outer(t.scopes, out) == Outer(s.scopes, n.marks);
  }

  /** Instructions with operands, other than calls. */
  lemma ArgLocal(p: Program, g: Listing, s: State, n: Note, op: int, t: State)
    requires Inside(s, n) && 0 < s.ip < |p.code| && !Plain(op) && op != OP_CALL
    requires FlowArg(g, s.ip - 1, op, p.code[s.ip], n.height, n.marks, n.mild) && Exec(p, s, op) == Next(t)
    ensures Local(g, s, n, t)
  {
    hide ValidHeap, NoteAt, PushArray, BumpAll, Off;
    if op == OP_SVAR {
      StoreLocal(p, g, s, n, t);
    } else if op == OP_ARR {
      ArrayLocal(p, g, s, n, t);
    }
  }

  lemma ArrayLocal(p: Program, g: Listing, s: State, n: Note, t: State)
    requires Inside(s, n) && 0 < s.ip < |p.code| && Exec(p, s, OP_ARR) == Next(t)
    requires FlowArg(g, s.ip - 1, OP_ARR, p.code[s.ip], n.height, n.marks, n.mild)
    ensures Local(g, s, n, t)
  {
    hide ValidHeap, NoteAt, Append, ArrayBlock, Pack, Opened;
    var k := p.code[s.ip];
    assert t.stack[..|s.stack| - k] == s.stack[..|s.stack| - k];
    assert t.stack[..s.fp] == t.stack[..|s.stack| - k][..s.fp] == s.stack[..s.fp];
  }

  lemma StoreLocal(p: Program, g: Listing, s: State, n: Note, t: State)
    requires Inside(s, n) && 0 < s.ip < |p.code| && Exec(p, s, OP_SVAR) == Next(t)
    requires FlowArg(g, s.ip - 1, OP_SVAR, p.code[s.ip], n.height, n.marks, n.mild)
    ensures Local(g, s, n, t)
  {
    hide ValidHeap, NoteAt, Off;
    assert forall k :: 0 <= k < |s.scopes| ==> t.scopes[k].fp == s.scopes[k].fp && t.scopes[k].spAtEntry == s.scopes[k].spAtEntry;
    assert Outer(t.scopes, n.marks) == Outer(s.scopes, n.marks);
  }

  lemma LocalStep(p: Program, g: Listing, s: State, n: Note, t: State)
    requires Inside(s, n) && g.p == p && Flow(g, s.ip, n) && Step(p, s) == Next(t)
    requires p.code[s.ip] != OP_CALL && p.code[s.ip] != OP_RET
    ensures Local(g, s, n, t)
  {
    hide Exec, FlowPlain, FlowArg, ValidHeap, Plain, Local;
    var op, s1 := p.code[s.ip], s.(ip := s.ip + 1);
    if !Plain(op) {
      ArgLocal(p, g, s1, n, op, t);
    } else if op == OP_SCOPE_ENTER {
      EnterLocal(p, g, s1, n, t);
    } else if op == OP_SCOPE_EXIT {
      ExitLocal(p, g, s1, n, t);
    } else {
      PlainLocal(p, g, s1, n, op, t);
    }
    Relocated(g, s, s1, n, t);
  }

  lemma Relocated(g: Listing, s: State, s1: State, n: Note, t: State)
    requires n.Spot? && |n.marks| <= |s.scopes| && s1 == s.(ip := s1.ip) && Local(g, s1, n, t)
    ensures Local(g, s, n, t)
  {
  }

  // ---- Calls and returns ----

  /** The running frame, its note and what it knows. */
  lemma Running(d: Build, s: State, acts: seq<nat>)
    requires Sound(d) && Consistent(d, s, acts)
    ensures |acts| > 0
    ensures var f := acts[|acts| - 1];
      && f < |d.fs| == |d.ln.addrs|
      && var g := ListingOf(d, f);
        var n := NoteAt(g, s.ip);
        Inside(s, n) && Flow(g, s.ip, n) && 2 <= s.fp && 0 <= s.ip < |d.p.code|
  {
    hide Linked, Waiting, StmtBound, ValidHeap, NoteFunc;
    var f := acts[|acts| - 1];
    var g := ListingOf(d, f);
    var n := NoteAt(g, s.ip);
    FuncAgrees(d, f);
    var out := Outer(s.scopes, n.marks);
    WaitingScopes(d, acts[..|acts| - 1], s.stack[s.fp - 2].val, s.stack[s.fp - 1].val, s.stack[..s.fp - 2], out);
    forall k | 0 <= k < |s.scopes| - |n.marks| ensures s.scopes[k].fp < s.fp {
      assert out[k] == s.scopes[k];
    }
    hide Flow, Clean;
    FlowInCode(g, s.ip, n);
  }

  lemma FlowInCode(g: Listing, pc: int, n: Note)
    requires n.Spot? && Flow(g, pc, n)
    ensures 0 <= pc < |g.p.code|
    ensures g.p.code[pc] == OP_CALL ==>
      && pc + 2 < |g.p.code| && 0 <= g.p.code[pc + 2] <= n.height && IsEntry(g.ln, g.fs, g.p.code[pc + 1], g.p.code[pc + 2])
      && Goes(g, pc + 3, n.height - g.p.code[pc + 2] + 1, n.marks, false)
  {
    hide Goes, IsEntry;
  }

  /** A step inside the running frame. */
  lemma LocalConsistent(d: Build, s: State, acts: seq<nat>, t: State)
    requires Consistent(d, s, acts) && ValidState(t)
    requires var g := ListingOf(d, acts[|acts| - 1]); Local(g, s, NoteAt(g, s.ip), t)
    ensures Consistent(d, t, acts)
  {
    hide ValidState, NoteAt, Waiting, Open;
    assert s.stack[..s.fp][..s.fp - 2] == s.stack[..s.fp - 2] && t.stack[..s.fp][..s.fp - 2] == t.stack[..s.fp - 2];
    assert t.stack[..s.fp][s.fp - 2] == t.stack[s.fp - 2] && t.stack[..s.fp][s.fp - 1] == t.stack[s.fp - 1];
  }

  lemma CallConsistent(d: Build, s: State, acts: seq<nat>, t: State) returns (acts': seq<nat>)
    requires Sound(d) && Consistent(d, s, acts) && Step(d.p, s) == Next(t) && 0 <= s.ip < |d.p.code| && d.p.code[s.ip] == OP_CALL
    ensures |acts'| == |acts| + 1 && acts'[..|acts|] == acts && Consistent(d, t, acts') && Afresh(d, t, acts')
  {
    hide Sound, Consistent, NoteAt, ValidHeap, Flow, Clean, ExecCall, ListingOf;
    Running(d, s, acts);
    var g := ListingOf(d, acts[|acts| - 1]);
    var n := NoteAt(g, s.ip);
    assert g.p == d.p && g.ln == d.ln && g.fs == d.fs by { ListedAs(d, acts[|acts| - 1]); }
    FlowInCode(g, s.ip, n);
    var target, argc := d.p.code[s.ip + 1], d.p.code[s.ip + 2];
    var f' :| 0 <= f' < |d.fs| && f' < |d.ln.addrs| && d.ln.addrs[f'] == target && d.fs[f'].arity == argc;
    EntryBegins(d, f');
    acts' := acts + [f'];
    CallStep(d.p, s, target, argc);
    Called(d, s, acts, f', argc, t);
  }

  lemma ListedAs(d: Build, f: nat)
    requires f < |d.fs| && f < |d.ln.addrs|
    ensures var g := ListingOf(d, f); g.p == d.p && g.ln == d.ln && g.fs == d.fs && g.addr == d.ln.addrs[f]
  {
  }

  lemma EntryBegins(d: Build, f: nat)
    requires Sound(d) && f < |d.fs|
    ensures |d.fs| == |d.ln.addrs| && Begins(ListingOf(d, f), d.ln.addrs[f], d.fs[f].arity, [])
  {
    hide Linked, StmtBound, NoteFunc, Clean;
    FuncAgrees(d, f);
  }

  lemma Called(d: Build, s: State, acts: seq<nat>, f': nat, argc: nat, t: State)
    requires Consistent(d, s, acts) && |d.fs| == |d.ln.addrs| && f' < |d.fs| && d.fs[f'].arity == argc
    requires ExecCall(s.(ip := s.ip + 3), d.ln.addrs[f'], argc) == Next(t) && Begins(ListingOf(d, f'), d.ln.addrs[f'], argc, [])
    requires var g := ListingOf(d, acts[|acts| - 1]);
      var n := NoteAt(g, s.ip);
      argc <= n.height && Goes(g, s.ip + 3, n.height - argc + 1, n.marks, false)
    ensures Consistent(d, t, acts + [f']) && Afresh(d, t, acts + [f'])
  {
    hide ValidHeap, NoteFunc, NoteAt;
    var n := NoteAt(ListingOf(d, acts[|acts| - 1]), s.ip);
    var start := |s.stack| - argc;
    var below := s.stack[..start];
    assert (acts + [f'])[..|acts|] == acts;
    assert t.stack[..t.fp - 2] == below && t.scopes[..|t.scopes|] == s.scopes;
    assert below[..s.fp - 2] == s.stack[..s.fp - 2];
    assert Waiting(d, acts, s.ip + 3, s.fp, below, s.scopes);
  }

  lemma RetConsistent(d: Build, s: State, acts: seq<nat>, t: State)
    requires Sound(d) && Consistent(d, s, acts) && Step(d.p, s) == Next(t) && 0 <= s.ip < |d.p.code| && d.p.code[s.ip] == OP_RET
    requires |acts| > 1
    ensures Consistent(d, t, acts[..|acts| - 1]) && Afresh(d, t, acts[..|acts| - 1])
  {
    hide Linked, StmtBound, ValidHeap, NoteFunc, NoteAt, PopScopes, Flow;
    Running(d, s, acts);
    hide Sound;
    var n := NoteAt(ListingOf(d, acts[|acts| - 1]), s.ip);
    var m, under := s.fp - 2, acts[..|acts| - 1];
    var rv := Top(s, 0);
    assert ExecRet(s.(ip := s.ip + 1)) == Next(t);
    PopsOwn(s.scopes, s.fp, s.cur, s.heap, rv, |n.marks|);
    assert t.scopes == Outer(s.scopes, n.marks);
    var fp0 := s.stack[m + 1].val;
    assert t.stack[..m] == s.stack[..m];
    assert t.stack[..fp0 - 2] == s.stack[..m][..fp0 - 2] && t.stack[fp0 - 2] == s.stack[..m][fp0 - 2] && t.stack[fp0 - 1] == s.stack[..m][fp0 - 1];
  }

  /** Nothing is known of the top of the stack. */
  ghost predicate Afresh(d: Build, t: State, acts: seq<nat>) {
    && |acts| > 0 && acts[|acts| - 1] < |d.fs| && acts[|acts| - 1] < |d.ln.addrs|
    && var n := NoteAt(ListingOf(d, acts[|acts| - 1]), t.ip); n.Spot? && !n.mild
  }

  lemma SpotOf(d: Build, s: State, acts: seq<nat>)
    requires Consistent(d, s, acts)
    ensures ValidState(s) && |acts| > 0 && acts[|acts| - 1] < |d.fs| && acts[|acts| - 1] < |d.ln.addrs|
    ensures NoteAt(ListingOf(d, acts[|acts| - 1]), s.ip).Spot?
  {
    hide Waiting, NoteAt, ValidState;
  }

  lemma SoundSize(d: Build)
    requires Sound(d)
    ensures |d.fs| == |d.ln.addrs|
  {
    hide Linked, StmtBound;
  }

  /** Every step keeps the frames consistent, until the bottom function returns. */
  lemma StepConsistent(d: Build, s: State, acts: seq<nat>, t: State) returns (acts': seq<nat>)
    requires Sound(d) && Consistent(d, s, acts) && Step(d.p, s) == Next(t)
    ensures 0 <= s.ip < |d.p.code|
    ensures Consistent(d, t, acts') || (|acts| == 1 && d.p.code[s.ip] == OP_RET)
    ensures d.p.code[s.ip] != OP_CALL && d.p.code[s.ip] != OP_RET ==> acts' == acts
    ensures d.p.code[s.ip] == OP_CALL || (d.p.code[s.ip] == OP_RET && |acts| > 1) ==> Afresh(d, t, acts')
  {
    hide Sound, Consistent, Local, Step, Afresh;
    Running(d, s, acts);
    var g := ListingOf(d, acts[|acts| - 1]);
    acts' := acts;
    if d.p.code[s.ip] == OP_CALL {
      acts' := CallConsistent(d, s, acts, t);
    } else if d.p.code[s.ip] == OP_RET {
      if |acts| > 1 {
        acts' := acts[..|acts| - 1];
        RetConsistent(d, s, acts, t);
      }
    } else {
      LocalStep(d.p, g, s, NoteAt(g, s.ip), t);
      LocalConsistent(d, s, acts, t);
    }
  }

  // ---- Every run ----

  /** After any number of steps the frames are consistent, or the bottom function has returned. */
  lemma {:induction false} RunConsistent(d: Build, s: State, acts: seq<nat>, n: nat, t: State)
    returns (k: nat, u: State, acts': seq<nat>)
    requires Sound(d) && Consistent(d, s, acts) && Machine.Run(d.p, s, n) == Next(t)
    ensures k <= n && Machine.Run(d.p, s, k) == Next(u) && Consistent(d, u, acts')
    ensures (k == n && u == t) || (k < n && |acts'| == 1 && 0 <= u.ip < |d.p.code| && d.p.code[u.ip] == OP_RET)
    decreases n
  {
    hide Sound, Step, Consistent;
    k, u, acts' := 0, s, acts;
    SpotOf(d, s, acts);
    if n > 0 {
      var s1 := Step(d.p, s).s;
      var a1 := StepConsistent(d, s, acts, s1);
      if Consistent(d, s1, a1) {
        k, u, acts' := RunConsistent(d, s1, a1, n - 1, t);
        k := k + 1;
      }
    }
  }

  /** Calling a function as OP_CALL, for_list or a worker does starts a consistent run. */
  lemma EntryConsistent(d: Build, f: nat, s: State, args: seq<Value>)
    requires Sound(d) && f < |d.fs| && |args| == d.fs[f].arity && |d.ln.addrs| == |d.fs| && Entered(d.p, s, d.ln.addrs[f], args)
    requires s.stack[s.fp - 2].val == d.home
    ensures Consistent(d, s, [f])
  {
    hide Sound, NoteFunc, NoteAt, ValidHeap;
    EntryBegins(d, f);
    assert [f][..0] == [];
    assert s.scopes[..|s.scopes|] == s.scopes;
  }

  /** The cells that the instruction at `pc` takes. */
  ghost function Uses(p: Program, pc: int): int
    requires 0 <= pc < |p.code|
  {
    var op := p.code[pc];
    if Plain(op) then Takes(op)
    else if op == OP_JZ || op == OP_SVAR then 1
    else if op == OP_ARR && pc + 1 < |p.code| then p.code[pc + 1]
    else if op == OP_CALL && pc + 2 < |p.code| then p.code[pc + 2]
    else 0
  }

  /** No run takes a cell or leaves a scope that is not the running frame's own, or reads or writes a
      local beyond its cells. */
  lemma NoUnderflow(d: Build, s: State, acts: seq<nat>)
    requires Sound(d) && Consistent(d, s, acts)
    ensures 0 <= s.ip < |d.p.code| && 0 <= Uses(d.p, s.ip) <= |s.stack| - s.fp
    ensures var op, own := d.p.code[s.ip], |s.stack| - s.fp;
      && (op in {OP_ADD, OP_SUB, OP_MUL, OP_DIV, OP_MOD, OP_LT, OP_GT, OP_LE, OP_GE, OP_EQ, OP_NEQ} ==> own >= 2)
      && (op in {OP_AND, OP_OR, OP_RANGE, OP_AGET, OP_IT_DEF} ==> own >= 2) && (op == OP_SLICE ==> own >= 3)
      && (op in {OP_ALEN, OP_POP, OP_RET, OP_JZ, OP_SVAR} ==> own >= 1)
      && (op == OP_ARR ==> s.ip + 1 < |d.p.code| && 0 <= d.p.code[s.ip + 1] <= own)
      && (op == OP_CALL ==> s.ip + 2 < |d.p.code| && 0 <= d.p.code[s.ip + 2] <= own)
    ensures d.p.code[s.ip] == OP_SCOPE_EXIT ==> |s.scopes| > 0 && s.scopes[|s.scopes| - 1].fp == s.fp
    ensures d.p.code[s.ip] == OP_LVAR || d.p.code[s.ip] == OP_SVAR ==>
      s.ip + 1 < |d.p.code| && 0 <= d.p.code[s.ip + 1] && s.fp + d.p.code[s.ip + 1] + Uses(d.p, s.ip) < |s.stack|
  {
    hide Sound, Consistent, Goes, IsEntry;
    Running(d, s, acts);
    var g := ListingOf(d, acts[|acts| - 1]);
    var n := NoteAt(g, s.ip);
    hide NoteAt, ValidState;
    assert |n.marks| > 0 ==> s.scopes[|s.scopes| - 1].fp == s.fp;
  }

  // ---- Frame pointers ----

  /** The frame pointers of the `n` topmost frames, from the outermost of them to the running one. */
  function Fps(stack: seq<Cell>, fp: int, n: nat): (r: seq<int>)
    ensures |r| <= n
    decreases n
  {
    if n == 0 then []
    else if !(2 <= fp <= |stack|) then [fp]
    else Fps(stack[..fp - 2], stack[fp - 1].val, n - 1) + [fp]
  }

  predicate Increasing(xs: seq<int>) {
    forall i, j :: 0 <= i < j < |xs| ==> xs[i] < xs[j]
  }

  lemma {:induction false} WaitingIncreasing(d: Build, under: seq<nat>, ret: int, fp: int,
                                             stack: seq<Cell>, scopes: seq<Scope>)
    requires Waiting(d, under, ret, fp, stack, scopes)
    ensures var r := Fps(stack, fp, |under|);
      |r| == |under| && Increasing(r) && forall i :: 0 <= i < |r| ==> 2 <= r[i] < |stack| + 2
    decreases |under|
  {
    if under != [] {
      hide NoteAt, Open;
      var n := NoteAt(ListingOf(d, under[|under| - 1]), ret);
      WaitingIncreasing(d, under[..|under| - 1], stack[fp - 2].val, stack[fp - 1].val, stack[..fp - 2], Outer(scopes, n.marks));
    }
  }

  /** In every run of calls the frame pointers on the stack strictly increase. */
  lemma FramesIncrease(d: Build, s: State, acts: seq<nat>)
    requires Consistent(d, s, acts)
    ensures |Fps(s.stack, s.fp, |acts|)| == |acts| && Increasing(Fps(s.stack, s.fp, |acts|))
  {
    hide NoteAt, Waiting, ValidState;
    var n := NoteAt(ListingOf(d, acts[|acts| - 1]), s.ip);
    WaitingIncreasing(d, acts[..|acts| - 1], s.stack[s.fp - 2].val, s.stack[s.fp - 1].val, s.stack[..s.fp - 2], Outer(s.scopes, n.marks));
  }
}
