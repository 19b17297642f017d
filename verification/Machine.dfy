/** The bytecode machine as a step function on its state (src/vm.c:471-544, 993-1024, 1154-1340,
    1381-1402, 1481-1548, 1675-1950). Bytecode is flat: an opcode followed by its operands. */
module Machine {
  import opened Defines
  import opened Arenas
  import opened Evacuation

  const OP_PSH_NUM := 0
  const OP_ADD := 2
  const OP_SUB := 3
  const OP_MUL := 4
  const OP_DIV := 5
  const OP_MOD := 6
  const OP_LT := 7
  const OP_EQ := 8
  const OP_GT := 9
  const OP_GE := 10
  const OP_LE := 11
  const OP_NEQ := 12
  const OP_LVAR := 15
  const OP_SVAR := 16
  const OP_JMP := 17
  const OP_JZ := 18
  const OP_JNZ := 19
  const OP_CALL := 20
  const OP_RET := 21
  const OP_HLT := 23
  const OP_DUP := 28
  const OP_POP := 29
  const OP_ARR := 31
  const OP_AGET := 32
  const OP_ALEN := 33
  const OP_SLICE := 34
  const OP_IT_KEY := 39
  const OP_IT_VAL := 40
  const OP_IT_DEF := 41
  const OP_NEW_ARENA := 44
  const OP_DEL_ARENA := 45
  const OP_SET_CTX := 46
  const OP_OR := 50
  const OP_AND := 51
  const OP_RANGE := 52
  const OP_SCOPE_ENTER := 53
  const OP_SCOPE_EXIT := 54

  datatype Scope = Scope(arena: int, head: int, fp: int, spAtEntry: int)

  /** The live part of the stack is `stack`, so sp = |stack| - 1. */
  datatype State = State(ip: int, fp: int, stack: seq<Cell>, scopes: seq<Scope>, heap: Heap, cur: int)

  datatype Program = Program(code: seq<int>, consts: seq<int>)

  /** Overflow is a full stack, scope stack or region. Stuck is a runtime error, or an operation on
      cells that the machine does not model (strings, packed arrays, maps, structs, fractions). */
  datatype Outcome = Next(s: State) | Halted | Overflow | Stuck

  ghost predicate ValidScope(sc: Scope) {
    0 <= sc.arena < MAX_ARENAS && 0 <= sc.head < MAX_HEAP
  }

  ghost predicate ValidState(s: State) {
    && ValidHeap(s.heap)
    && 0 <= s.cur < MAX_ARENAS
    && |s.stack| <= STACK_SIZE
    && |s.scopes| <= MAX_SCOPES
    && forall k :: 0 <= k < |s.scopes| ==> ValidScope(s.scopes[k])
  }

  function Num(n: int): Cell {
    Cell(n, T_NUM)
  }

  ghost function Push(s: State, c: Cell): (r: Outcome)
    requires ValidState(s)
    ensures r.Next? ==> ValidState(r.s)
  {
    if |s.stack| >= STACK_SIZE then Overflow else Next(s.(stack := s.stack + [c]))
  }

  function Drop(s: State, n: nat): State
    requires n <= |s.stack|
  {
    s.(stack := s.stack[..|s.stack| - n])
  }

  /** The cell `k` places below the top. */
  function Top(s: State, k: nat): Cell
    requires k < |s.stack|
  {
    s.stack[|s.stack| - 1 - k]
  }

  // ---- Arithmetic, comparison and logic on whole numbers ----

  function Abs(a: int): nat {
    if a < 0 then -a else a
  }

  function FMod(a: int, b: int): int
    requires b != 0
  {
    if a < 0 then -(Abs(a) % Abs(b)) else Abs(a) % Abs(b)
  }

  /** Up to 2^53 every whole number is a double of its own. */
  const EXACT: int := 0x20_0000_0000_0000

  predicate Exact(n: int) {
    -EXACT <= n <= EXACT
  }

  /** None where the double result is not the exact one, or not a whole number. */
  function Arith(op: int, a: int, b: int): (r: Option<int>)
    ensures r.Some? ==> Exact(a) && Exact(b) && Exact(r.value)
  {
    if !Exact(a) || !Exact(b) then None
    else if op == OP_ADD then Within(a + b)
    else if op == OP_SUB then Within(a - b)
    else if op == OP_MUL then Within(a * b)
    else if b == 0 then None
    else if op == OP_DIV then (if FMod(a, b) == 0 then Within(a / b) else None)
    else Within(FMod(a, b))
  }

  function Within(n: int): Option<int> {
    if Exact(n) then Some(n) else None
  }

  predicate Holds(op: int, a: int, b: int) {
    if op == OP_LT then a < b
    else if op == OP_EQ then a == b
    else if op == OP_GT then a > b
    else if op == OP_GE then a >= b
    else if op == OP_LE then a <= b
    else a != b
  }

  function Bit(b: bool): int {
    if b then 1 else 0
  }

  predicate IsMath(op: int) {
    OP_ADD <= op <= OP_MOD
  }

  predicate IsCompare(op: int) {
    OP_LT <= op <= OP_NEQ
  }

  ghost function ExecMath(s: State, op: int): (r: Outcome)
    requires ValidState(s)
    ensures r.Next? ==> ValidState(r.s)
  {
    if |s.stack| < 2 then Stuck
    else
      var a, b := Top(s, 1), Top(s, 0);
      if a.tag != T_NUM || b.tag != T_NUM then Stuck
      else
        match Arith(op, a.val, b.val)
        case None => Stuck
        case Some(n) => Push(Drop(s, 2), Num(n))
  }

  ghost function ExecCompare(s: State, op: int): (r: Outcome)
    requires ValidState(s)
    ensures r.Next? ==> ValidState(r.s)
  {
    if |s.stack| < 2 then Stuck
    else if Top(s, 1).tag == T_ENUM || Top(s, 0).tag == T_ENUM then Stuck
    else Push(Drop(s, 2), Num(Bit(Holds(op, Top(s, 1).val, Top(s, 0).val))))
  }

  ghost function ExecLogic(s: State, op: int): (r: Outcome)
    requires ValidState(s)
    ensures r.Next? ==> ValidState(r.s)
  {
    if |s.stack| < 2 then Stuck
    else
      var a, b := Top(s, 1).val != 0, Top(s, 0).val != 0;
      Push(Drop(s, 2), Num(Bit(if op == OP_AND then a && b else a || b)))
  }

  // ---- Locals ----

  /** OP_SVAR's protection of one scope: the frame's own scopes that the variable outlives move
      their rewind point up to the current head, when the object lies above it. */
  function Bumped(sc: Scope, fp: int, idx: int, cur: int, off: int, head: int): Scope {
    if sc.fp == fp && idx <= sc.spAtEntry && sc.arena == cur && off >= sc.head then sc.(head := head) else sc
  }

  function BumpAll(scopes: seq<Scope>, fp: int, idx: int, cur: int, off: int, head: int): (r: seq<Scope>)
    ensures |r| == |scopes|
    ensures forall k :: 0 <= k < |r| ==> r[k] == Bumped(scopes[k], fp, idx, cur, off, head)
  {
    seq(|scopes|, k requires 0 <= k < |scopes| => Bumped(scopes[k], fp, idx, cur, off, head))
  }

  ghost function ExecVar(s: State, op: int, arg: int): (r: Outcome)
    requires ValidState(s)
    ensures r.Next? ==> ValidState(r.s)
  {
    var idx := s.fp + arg;
    if !(0 <= idx < |s.stack|) then Stuck
    else if op == OP_LVAR then Push(s, s.stack[idx])
    else
      var c := Top(s, 0);
      var s1 := Drop(s.(stack := s.stack[idx := c]), 1);
      if c.tag != T_OBJ then Next(s1)
      else Next(s1.(scopes := BumpAll(s.scopes, s.fp, idx, s.cur, Off(c.val), s.heap[s.cur].head)))
  }

  // ---- Control flow ----

  ghost function ExecJump(s: State, op: int, target: int): (r: Outcome)
    requires ValidState(s)
    ensures r.Next? ==> ValidState(r.s)
  {
    if op == OP_JMP then Next(s.(ip := target))
    else if |s.stack| < 1 then Stuck
    else if (Top(s, 0).val == 0) == (op == OP_JZ) then Next(Drop(s, 1).(ip := target))
    else Next(Drop(s, 1))
  }

  /** The return address and the caller's frame pointer slide in beneath the arguments. */
  ghost function ExecCall(s: State, target: int, argc: int): (r: Outcome)
    requires ValidState(s)
    ensures r.Next? ==> ValidState(r.s)
  {
    if argc < 0 || |s.stack| < argc then Stuck
    else if |s.stack| + 2 > STACK_SIZE then Overflow
    else
      var start := |s.stack| - argc;
      Next(s.(stack := s.stack[..start] + [Num(s.ip), Num(s.fp)] + s.stack[start..], fp := start + 2, ip := target))
  }

  /** What remains after OP_RET popped the scopes of its frame, rewinding and evacuating. */
  datatype Unwound = Unwound(scopes: seq<Scope>, heap: Heap, rv: Cell)

  ghost function PopScopes(scopes: seq<Scope>, fp: int, cur: int, h: Heap, rv: Cell): (r: Option<Unwound>)
    requires ValidHeap(h) && 0 <= cur < MAX_ARENAS
    requires forall k :: 0 <= k < |scopes| ==> ValidScope(scopes[k])
    ensures r.Some? ==> ValidHeap(r.value.heap) && r.value.scopes <= scopes
  {
    if |scopes| == 0 || scopes[|scopes| - 1].fp != fp then Some(Unwound(scopes, h, rv))
    else
      var sc, rest := scopes[|scopes| - 1], scopes[..|scopes| - 1];
      assert ValidScope(sc);
      if sc.arena != cur then PopScopes(rest, fp, cur, h, rv)
      else if rv.tag != T_OBJ then PopScopes(rest, fp, cur, WithHead(h, cur, sc.head), rv)
      else
        match Evac(h, rv.val, sc.head)
        case None => None
        case Some((h1, p)) =>
          var h2 := if Off(p) < sc.head then WithHead(h1, cur, sc.head) else h1;
          PopScopes(rest, fp, cur, h2, Cell(p, T_OBJ))
  }

  ghost function ExecRet(s: State): (r: Outcome)
    requires ValidState(s)
    ensures r.Next? ==> ValidState(r.s)
  {
    if !(2 <= s.fp <= |s.stack|) then Stuck
    else
      match PopScopes(s.scopes, s.fp, s.cur, s.heap, Top(s, 0))
      case None => Overflow
      case Some(u) =>
        Next(State(s.stack[s.fp - 2].val, s.stack[s.fp - 1].val, s.stack[..s.fp - 2] + [u.rv], u.scopes, u.heap, s.cur))
  }

  // ---- Arrays ----

  function NextGen(g: int): int {
    if (g + 1) % GEN_SPAN == 0 then 1 else (g + 1) % GEN_SPAN
  }

  /** init_arena on a region whose memory is not allocated. */
  ghost function Opened(h: Heap, a: int): (r: Heap)
    requires ValidHeap(h) && 0 <= a < MAX_ARENAS
    ensures ValidHeap(r) && r[a].active
  {
    h[a := Arena(seq(MAX_HEAP, i => Cell(0, T_NUM)), 0, true, NextGen(h[a].gen))]
  }

  /** An array object: the header's tags are whatever the cells held before. */
  ghost function ArrayBlock(h: Heap, a: int, cells: seq<Cell>): (b: seq<Cell>)
    requires ValidHeap(h) && 0 <= a < MAX_ARENAS && Room(h, a, 2 + |cells|)
    ensures |b| == 2 + |cells|
  {
    var m, k := h[a].mem, h[a].head;
    [Cell(TYPE_ARRAY, m[k].tag), Cell(|cells|, m[k + 1].tag)] + cells
  }

  /** heap_alloc in the current region, opened on demand, filled with an array and pushed. */
  ghost function PushArray(s: State, cells: seq<Cell>): (r: Outcome)
    requires ValidState(s)
    ensures r.Next? ==> ValidState(r.s)
  {
    var h := if s.heap[s.cur].active then s.heap else Opened(s.heap, s.cur);
    if !Room(h, s.cur, 2 + |cells|) then Overflow
    else
      var p := Pack(h[s.cur].gen, s.cur, h[s.cur].head);
      Push(s.(heap := Append(h, s.cur, ArrayBlock(h, s.cur, cells))), Cell(p, T_OBJ))
  }

  /** The elements of the array that `c` points to. */
  ghost function Elems(h: Heap, c: Cell): Option<seq<Cell>>
    requires ValidHeap(h)
  {
    if !Live(h, c.val) || Off(c.val) + 1 >= MAX_HEAP || At(h, c.val, 0).val != TYPE_ARRAY then None
    else
      var n := At(h, c.val, 1).val;
      if n < 0 || Off(c.val) + 2 + n > MAX_HEAP then None
      else Some(h[Region(c.val)].mem[Off(c.val) + 2..Off(c.val) + 2 + n])
  }

  ghost function ExecIndex(s: State): (r: Outcome)
    requires ValidState(s)
    ensures r.Next? ==> ValidState(r.s)
  {
    if |s.stack| < 2 then Stuck
    else
      match Elems(s.heap, Top(s, 1))
      case None => Stuck
      case Some(cells) =>
        var key := Top(s, 0).val;
        var idx := if key < 0 then key + |cells| else key;
        if 0 <= idx < |cells| then Push(Drop(s, 2), cells[idx]) else Stuck
  }

  ghost function ExecIter(s: State, op: int): (r: Outcome)
    requires ValidState(s)
    ensures r.Next? ==> ValidState(r.s)
  {
    if |s.stack| < 2 then Stuck
    else
      match Elems(s.heap, Top(s, 1))
      case None => Stuck
      case Some(cells) =>
        var idx := Top(s, 0).val;
        if !(0 <= idx < |cells|) then Stuck
        else Push(Drop(s, 2), if op == OP_IT_KEY then Num(idx) else cells[idx])
  }

  ghost function ExecLength(s: State): (r: Outcome)
    requires ValidState(s)
    ensures r.Next? ==> ValidState(r.s)
  {
    if |s.stack| < 1 then Stuck
    else
      match Elems(s.heap, Top(s, 0))
      case None => Stuck
      case Some(cells) => Push(Drop(s, 1), Num(|cells|))
  }

  /** Start and length of the slice [s:e] of `len` elements, both ends included. */
  function SliceStart(s: int, len: nat): nat {
    if s >= 0 then s else if s + len < 0 then 0 else s + len
  }

  function SliceEnd(e: int, len: nat): int {
    var e1 := if e < 0 then e + len else e;
    if e1 >= len then len - 1 else e1
  }

  function SliceLen(s: int, e: int, len: nat): (n: nat)
    ensures n > 0 ==> SliceStart(s, len) + n <= len
  {
    var start, end := SliceStart(s, len), SliceEnd(e, len);
    if start >= len || end < start then 0 else end - start + 1
  }

  function Slice<T>(xs: seq<T>, s: int, e: int): (r: seq<T>)
    ensures |r| == SliceLen(s, e, |xs|)
  {
    var start, n := SliceStart(s, |xs|), SliceLen(s, e, |xs|);
    if n == 0 then [] else xs[start..start + n]
  }

  /** The bump pointer cuts through the array, so a copy of it would overwrite cells still to be read. */
  predicate Straddles(s: State, p: int, len: int)
    requires 0 <= s.cur < |s.heap|
  {
    Region(p) == s.cur && Off(p) < s.heap[s.cur].head < Off(p) + 2 + len
  }

  ghost function ExecSlice(s: State): (r: Outcome)
    requires ValidState(s)
    ensures r.Next? ==> ValidState(r.s)
  {
    if |s.stack| < 3 then Stuck
    else
      match Elems(s.heap, Top(s, 2))
      case None => Stuck
      case Some(cells) =>
        if Straddles(s, Top(s, 2).val, |cells|) then Stuck
        else PushArray(Drop(s, 3), Slice(cells, Top(s, 1).val, Top(s, 0).val))
  }

  /** start ... stop: both ends included, counting up or down. */
  function RangeLen(start: int, stop: int): nat {
    Abs(stop - start) + 1
  }

  function RangeAt(start: int, stop: int, i: int): int {
    if stop >= start then start + i else start - i
  }

  ghost function ExecRange(s: State): (r: Outcome)
    requires ValidState(s)
    ensures r.Next? ==> ValidState(r.s)
  {
    if |s.stack| < 2 then Stuck
    else
      var start, stop := Top(s, 1).val, Top(s, 0).val;
      PushArray(Drop(s, 2), seq(RangeLen(start, stop), i => Num(RangeAt(start, stop, i))))
  }

  ghost function ExecArr(s: State, count: int): (r: Outcome)
    requires ValidState(s)
    ensures r.Next? ==> ValidState(r.s)
  {
    if count < 0 || |s.stack| < count then Stuck
    else PushArray(Drop(s, count), s.stack[|s.stack| - count..])
  }

  // ---- Scopes and regions ----

  ghost function ExecEnter(s: State): (r: Outcome)
    requires ValidState(s)
    ensures r.Next? ==> ValidState(r.s)
  {
    if |s.scopes| >= MAX_SCOPES then Overflow
    else Next(s.(scopes := s.scopes + [Scope(s.cur, s.heap[s.cur].head, s.fp, |s.stack| - 1)]))
  }

  ghost function ExecExit(s: State): (r: Outcome)
    requires ValidState(s)
    ensures r.Next? ==> ValidState(r.s)
  {
    if |s.scopes| == 0 then Next(s)
    else
      var sc := s.scopes[|s.scopes| - 1];
      var s1 := s.(scopes := s.scopes[..|s.scopes| - 1]);
      Next(if s.cur == sc.arena then s1.(heap := WithHead(s.heap, s.cur, sc.head)) else s1)
  }

  /** The lowest inactive region from `i` on, or MAX_ARENAS. */
  ghost function FirstInactive(h: Heap, i: nat): (r: nat)
    requires |h| == MAX_ARENAS && i <= MAX_ARENAS
    ensures i <= r <= MAX_ARENAS && (r < MAX_ARENAS ==> !h[r].active)
    decreases MAX_ARENAS - i
  {
    if i == MAX_ARENAS || !h[i].active then i else FirstInactive(h, i + 1)
  }

  ghost function ExecRegion(s: State, op: int): (r: Outcome)
    requires ValidState(s)
    ensures r.Next? ==> ValidState(r.s)
  {
    if op == OP_NEW_ARENA then
      var id := FirstInactive(s.heap, 1);
      if id == MAX_ARENAS then Stuck else Push(s.(heap := Opened(s.heap, id)), Num(id))
    else if |s.stack| < 1 then Stuck
    else
      var id, s1 := Top(s, 0).val, Drop(s, 1);
      if op == OP_DEL_ARENA then
        if id <= 0 then Stuck
        else if id >= MAX_ARENAS then Next(s1)
        else Next(s1.(heap := s.heap[id := Arena([], 0, false, s.heap[id].gen)]))
      else if 0 <= id < MAX_ARENAS && (s.heap[id].active || id == 0) then Next(s1.(cur := id))
      else Stuck
  }

  // ---- The step function ----

  /** Executes opcode `op`; `s.ip` already points past it. */
  ghost function Exec(p: Program, s: State, op: int): (r: Outcome)
    requires ValidState(s) && 0 <= s.ip
    ensures r.Next? ==> ValidState(r.s)
  {
    if IsMath(op) then ExecMath(s, op)
    else if IsCompare(op) then ExecCompare(s, op)
    else if op == OP_OR || op == OP_AND then ExecLogic(s, op)
    else if op == OP_AGET then ExecIndex(s)
    else if op == OP_ALEN then ExecLength(s)
    else if op == OP_SLICE then ExecSlice(s)
    else if op == OP_RANGE then ExecRange(s)
    else if op == OP_IT_KEY || op == OP_IT_VAL || op == OP_IT_DEF then ExecIter(s, op)
    else if op == OP_SCOPE_ENTER then ExecEnter(s)
    else if op == OP_SCOPE_EXIT then ExecExit(s)
    else if op == OP_RET then ExecRet(s)
    else if op == OP_HLT then Halted
    else if op == OP_DUP then (if |s.stack| < 1 then Stuck else Push(s, Top(s, 0)))
    else if op == OP_POP then (if |s.stack| < 1 then Stuck else Next(Drop(s, 1)))
    else if op == OP_NEW_ARENA || op == OP_DEL_ARENA || op == OP_SET_CTX then ExecRegion(s, op)
    else if s.ip >= |p.code| then Stuck
    else
      var arg, s1 := p.code[s.ip], s.(ip := s.ip + 1);
      if op == OP_PSH_NUM then (if 0 <= arg < |p.consts| then Push(s1, Num(p.consts[arg])) else Stuck)
      else if op == OP_LVAR || op == OP_SVAR then ExecVar(s1, op, arg)
      else if op == OP_JMP || op == OP_JZ || op == OP_JNZ then ExecJump(s1, op, arg)
      else if op == OP_ARR then ExecArr(s1, arg)
      else if op == OP_CALL && s1.ip < |p.code| then ExecCall(s1.(ip := s1.ip + 1), arg, p.code[s1.ip])
      else Stuck
  }

  /** One turn of the loop in run_vm_from. */
  ghost function Step(p: Program, s: State): (r: Outcome)
    requires ValidState(s)
    ensures r.Next? ==> ValidState(r.s)
  {
    if s.ip >= |p.code| then Halted
    else if s.ip < 0 then Stuck
    else Exec(p, s.(ip := s.ip + 1), p.code[s.ip])
  }

  ghost function Run(p: Program, s: State, n: nat): (r: Outcome)
    requires ValidState(s)
    ensures r.Next? ==> ValidState(r.s)
    decreases n
  {
    if n == 0 then Next(s)
    else
      var r := Step(p, s);
      if r.Next? then Run(p, r.s, n - 1) else r
  }
}
