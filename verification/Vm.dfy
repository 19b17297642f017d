/** The virtual machine in its own form: a stack pointer moving over fixed arrays, a scope stack, and
    64 regions of memory, updated in place by one method per opcode group. Each method is proved
    against the step function of Machine (src/vm.c:118-226, 265-309, 425-515, 993-1024, 1154-1280,
    1362-1402, 1481-1518, 1685-1972). */
module VirtualMachine {
  import opened Defines
  import opened Arenas
  import opened Evacuation
  import opened Machine

  /** The scalar fields of MemoryArena. */
  datatype Header = Header(head: int, active: bool, generation: int)

  datatype Status = Running | Finished | Full | Failed

  /** `cells` written over region `a` from `at` on. */
  ghost function Overwrite(h: Heap, a: int, at: int, cells: seq<Cell>): Heap
    requires 0 <= a < |h| && 0 <= at && at + |cells| <= |h[a].mem|
  {
    h[a := h[a].(mem := h[a].mem[..at] + cells + h[a].mem[at + |cells|..])]
  }

  lemma OverwriteNext(h: Heap, a: int, at: int, cells: seq<Cell>, n: nat)
    requires 0 <= a < |h| && 0 <= at && at + |cells| <= |h[a].mem| && n < |cells|
    ensures Write(Overwrite(h, a, at, cells[..n]), a, at + n, cells[n]) == Overwrite(h, a, at, cells[..n + 1])
  {
    var m := h[a].mem;
    assert (m[..at] + cells[..n] + m[at + n..])[at + n := cells[n]] == m[..at] + cells[..n + 1] + m[at + n + 1..];
  }

  lemma OverwriteDown(h: Heap, a: int, at: int, cells: seq<Cell>, n: nat)
    requires 0 <= a < |h| && 0 <= at && at + |cells| <= |h[a].mem| && n < |cells|
    ensures Write(Overwrite(h, a, at + n + 1, cells[n + 1..]), a, at + n, cells[n]) == Overwrite(h, a, at + n, cells[n..])
  {
    var m := h[a].mem;
    assert (m[..at + n + 1] + cells[n + 1..] + m[at + |cells|..])[at + n := cells[n]]
        == m[..at + n] + cells[n..] + m[at + |cells|..];
  }

  lemma OverwriteNone(h: Heap, a: int, at: int)
    requires 0 <= a < |h| && 0 <= at <= |h[a].mem|
    ensures Overwrite(h, a, at, []) == h
  {
    assert h[a].mem[..at] + [] + h[a].mem[at..] == h[a].mem;
  }

  /** Room for an array of `n` elements is taken and its header written. */
  ghost function Headed(h: Heap, a: int, n: nat): Heap
    requires ValidHeap(h) && 0 <= a < MAX_ARENAS && Room(h, a, 2 + n)
  {
    var k, m := h[a].head, h[a].mem;
    Write(Write(WithHead(h, a, k + 2 + n), a, k, Cell(TYPE_ARRAY, m[k].tag)), a, k + 1, Cell(n, m[k + 1].tag))
  }

  lemma HeadedSize(h: Heap, a: int, n: nat)
    requires ValidHeap(h) && 0 <= a < MAX_ARENAS && Room(h, a, 2 + n)
    ensures var h2 := Headed(h, a, n);
      && |h2| == MAX_ARENAS && |h2[a].mem| == MAX_HEAP && h2[a].active
      && 0 <= h[a].head && h2[a].head == h[a].head + 2 + n && h2[a].head < MAX_HEAP
  {
  }

  lemma HeadedPart(h: Heap, a: int, n: nat, from: int, src: int, m: nat)
    requires ValidHeap(h) && 0 <= a < MAX_ARENAS && Room(h, a, 2 + n) && 0 <= from < MAX_ARENAS && h[from].active
    requires m > 0 ==> 0 <= src && src + m <= MAX_HEAP
    requires m > 0 && from == a ==> src + m <= h[a].head || h[a].head + 2 <= src
    ensures var h2 := Headed(h, a, n);
      h2[from].active && |h2[from].mem| == MAX_HEAP && PartOf(h2[from].mem, src, m) == PartOf(h[from].mem, src, m)
  {
  }

  lemma BlockWritten(h: Heap, a: int, cells: seq<Cell>)
    requires ValidHeap(h) && 0 <= a < MAX_ARENAS && Room(h, a, 2 + |cells|)
    ensures var k, h2 := h[a].head, Headed(h, a, |cells|);
      && |h2| == MAX_ARENAS && |h2[a].mem| == MAX_HEAP
      && Overwrite(h2, a, k + 2, cells) == Append(h, a, ArrayBlock(h, a, cells))
  {
    var m, k, b := h[a].mem, h[a].head, ArrayBlock(h, a, cells);
    var m2 := m[k := b[0]][k + 1 := b[1]];
    assert m2[..k + 2] + cells + m2[k + 2 + |cells|..] == m[..k] + b + m[k + |b|..];
  }

  /** A block of any cells. */
  lemma BlockMoved(h: Heap, a: int, cells: seq<Cell>)
    requires ValidHeap(h) && 0 <= a < MAX_ARENAS && Room(h, a, |cells|)
    ensures WithHead(Overwrite(h, a, h[a].head, cells), a, h[a].head + |cells|) == Append(h, a, cells)
  {
  }

  ghost function PartOf(m: seq<Cell>, at: int, n: nat): (r: seq<Cell>)
    requires n > 0 ==> 0 <= at && at + n <= |m|
    ensures |r| == n
  {
    if n == 0 then [] else m[at..at + n]
  }

  lemma SliceIsPart(m: seq<Cell>, at: int, len: nat, s: int, e: int)
    requires 0 <= at && at + len <= |m|
    ensures SliceLen(s, e, len) > 0 ==> SliceStart(s, len) + SliceLen(s, e, len) <= len
    ensures Slice(m[at..at + len], s, e) == PartOf(m, at + SliceStart(s, len), SliceLen(s, e, len))
  {
    var n, start := SliceLen(s, e, len), SliceStart(s, len);
    hide SliceLen, SliceStart;
    if n > 0 {
      SubSlice(m, at, len, start, n);
    }
  }

  lemma SubSlice(m: seq<Cell>, at: int, len: nat, start: nat, n: nat)
    requires 0 <= at && at + len <= |m| && start + n <= len
    ensures m[at..at + len][start..start + n] == m[at + start..at + start + n]
  {
    var part := m[at..at + len][start..start + n];
    forall j | 0 <= j < n
      ensures part[j] == m[at + start..at + start + n][j]
    {
    }
    assert part == m[at + start..at + start + n];
  }

  ghost function TargetOf(s: State): (h: Heap)
    requires ValidState(s)
    ensures ValidHeap(h) && h[s.cur].active
    ensures forall i :: 0 <= i < MAX_ARENAS && s.heap[i].active ==> h[i] == s.heap[i]
  {
    if s.heap[s.cur].active then s.heap else Opened(s.heap, s.cur)
  }

  lemma OffInRange(p: int)
    ensures 0 <= Off(p) < OFFSET_SPAN
  {
  }

  predicate OperandOp(op: int) {
    && !IsMath(op) && !IsCompare(op)
    && op !in {OP_OR, OP_AND, OP_AGET, OP_ALEN, OP_SLICE, OP_RANGE, OP_IT_KEY, OP_IT_VAL, OP_IT_DEF, OP_SCOPE_ENTER,
               OP_SCOPE_EXIT, OP_RET, OP_HLT, OP_DUP, OP_POP, OP_NEW_ARENA, OP_DEL_ARENA, OP_SET_CTX}
  }

  class Vm {
    const program: Program
    const stack: array<int>
    const stackTypes: array<int>
    const scopeStack: array<Scope>
    const arenas: array<Header>
    const memory: array2<int>
    const types: array2<int>
    var sp: int
    var fp: int
    var ip: int
    var scopeSp: int
    var currentArena: int

    /** The fixed sizes. */
    ghost predicate Sized() {
      && stack.Length == STACK_SIZE && stackTypes.Length == STACK_SIZE && stack != stackTypes
      && scopeStack.Length == MAX_SCOPES && arenas.Length == MAX_ARENAS
      && memory.Length0 == MAX_ARENAS && memory.Length1 == MAX_HEAP
      && types.Length0 == MAX_ARENAS && types.Length1 == MAX_HEAP && memory != types
    }

    ghost function Stack(): (r: seq<Cell>)
      requires Sized() && -1 <= sp < STACK_SIZE
      reads `sp, stack, stackTypes
      ensures |r| == sp + 1
    {
      var n := sp + 1;
      seq(n, i requires 0 <= i < n && Sized() reads stack, stackTypes => Cell(stack[i], stackTypes[i]))
    }

    ghost function Scopes(): (r: seq<Scope>)
      requires Sized() && 0 <= scopeSp <= MAX_SCOPES
      reads `scopeSp, scopeStack
      ensures |r| == scopeSp
    {
      scopeStack[..scopeSp]
    }

    ghost function Cells(a: int): (r: seq<Cell>)
      requires Sized() && 0 <= a < MAX_ARENAS
      reads memory, types
      ensures |r| == MAX_HEAP && forall j :: 0 <= j < MAX_HEAP ==> r[j] == Cell(memory[a, j], types[a, j])
    {
      seq(MAX_HEAP, j requires 0 <= j < MAX_HEAP reads memory, types => Cell(memory[a, j], types[a, j]))
    }

    ghost function Heap(): (r: Heap)
      requires Sized()
      reads arenas, memory, types
      ensures |r| == MAX_ARENAS
      ensures forall i :: 0 <= i < MAX_ARENAS ==>
        r[i].head == arenas[i].head && r[i].active == arenas[i].active && r[i].gen == arenas[i].generation
      ensures forall i :: 0 <= i < MAX_ARENAS && arenas[i].active ==> r[i].mem == Cells(i)
    {
      seq(MAX_ARENAS, i requires 0 <= i < MAX_ARENAS reads arenas, memory, types =>
        Arena(if arenas[i].active then Cells(i) else [], arenas[i].head, arenas[i].active, arenas[i].generation))
    }

    ghost predicate InBounds()
      reads this
    {
      Sized() && -1 <= sp < STACK_SIZE && 0 <= scopeSp <= MAX_SCOPES
    }

    /** The state of the step function. */
    ghost function View(): State
      requires InBounds()
      reads this, stack, stackTypes, scopeStack, arenas, memory, types
    {
      State(ip, fp, Stack(), Scopes(), Heap(), currentArena)
    }

    ghost predicate Valid()
      reads this, stack, stackTypes, scopeStack, arenas, memory, types
    {
      InBounds() && ValidState(View())
    }

    ghost predicate Refines(r: Status, o: Outcome)
      requires InBounds()
      reads this, stack, stackTypes, scopeStack, arenas, memory, types
    {
      match o
      case Next(s) => r == Running && View() == s
      case Halted => r == Finished
      case Overflow => r == Full
      case Stuck => r == Failed
    }

    /** vm_init: everything is empty and region 0 is open, in its first generation. */
    constructor (p: Program)
      ensures Valid() && program == p && fresh(stack) && fresh(stackTypes) && fresh(scopeStack)
      ensures fresh(arenas) && fresh(memory) && fresh(types)
      ensures View().ip == 0 && View().fp == 0 && View().stack == [] && View().scopes == [] && View().cur == 0
      ensures forall i :: 0 <= i < MAX_ARENAS ==>
        Heap()[i].head == 0 && Heap()[i].active == (i == 0) && Heap()[i].gen == if i == 0 then 1 else 0
    {
      program := p;
      stack := new int[STACK_SIZE](i => 0);
      stackTypes := new int[STACK_SIZE](i => 0);
      scopeStack := new Scope[MAX_SCOPES](i => Scope(0, 0, 0, 0));
      arenas := new Header[MAX_ARENAS](i => Header(0, i == 0, if i == 0 then 1 else 0));
      memory := new int[MAX_ARENAS, MAX_HEAP]((i, j) => 0);
      types := new int[MAX_ARENAS, MAX_HEAP]((i, j) => 0);
      sp, fp, ip, scopeSp, currentArena := -1, 0, 0, 0, 0;
    }

    // ---- The stack ----

    method Push(val: int, ty: int) returns (r: Status)
      requires Valid()
      modifies `sp, stack, stackTypes
      ensures Valid() && Refines(r, Machine.Push(old(View()), Cell(val, ty)))
    {
      if sp >= STACK_SIZE - 1 {
        return Full;
      }
      sp := sp + 1;
      stack[sp], stackTypes[sp] := val, ty;
      assert Stack() == old(Stack()) + [Cell(val, ty)];
      return Running;
    }

    method Pop() returns (r: Status, val: int, ty: int)
      requires Valid()
      modifies `sp
      ensures Valid()
      ensures old(sp) < 0 ==> r == Failed && View() == old(View())
      ensures old(sp) >= 0 ==>
        r == Running && Cell(val, ty) == Top(old(View()), 0) && View() == Machine.Drop(old(View()), 1)
    {
      val, ty := 0, 0;
      if sp < 0 {
        return Failed, 0, 0;
      }
      val, ty := stack[sp], stackTypes[sp];
      sp := sp - 1;
      assert Stack() == old(Stack())[..|old(Stack())| - 1];
      r := Running;
    }

    method ExecMathOp(op: int) returns (r: Status)
      requires Valid() && IsMath(op)
      modifies `sp, stack, stackTypes
      ensures Valid() && Refines(r, ExecMath(old(View()), op))
    {
      if sp < 1 {
        return Failed;
      }
      var b, tb := stack[sp], stackTypes[sp];
      sp := sp - 1;
      var a, ta := stack[sp], stackTypes[sp];
      if ta != T_NUM || tb != T_NUM {
        return Failed;
      }
      var res := Arith(op, a, b);
      if res.None? {
        return Failed;
      }
      stack[sp], stackTypes[sp] := res.value, T_NUM;
      assert Stack() == old(Stack())[..|old(Stack())| - 2] + [Num(res.value)];
      return Running;
    }

    method ExecCompareOp(op: int) returns (r: Status)
      requires Valid() && IsCompare(op)
      modifies `sp, stack, stackTypes
      ensures Valid() && Refines(r, ExecCompare(old(View()), op))
    {
      if sp < 1 {
        return Failed;
      }
      var b, tb := stack[sp], stackTypes[sp];
      sp := sp - 1;
      var a, ta := stack[sp], stackTypes[sp];
      if ta == T_ENUM || tb == T_ENUM {
        return Failed;
      }
      stack[sp], stackTypes[sp] := Bit(Holds(op, a, b)), T_NUM;
      assert Stack() == old(Stack())[..|old(Stack())| - 2] + [Num(Bit(Holds(op, a, b)))];
      return Running;
    }

    method ExecLogicOp(op: int) returns (r: Status)
      requires Valid() && (op == OP_OR || op == OP_AND)
      modifies `sp, stack, stackTypes
      ensures Valid() && Refines(r, ExecLogic(old(View()), op))
    {
      if sp < 1 {
        return Failed;
      }
      var b := stack[sp];
      sp := sp - 1;
      var a := stack[sp];
      var res := if op == OP_AND then Bit(a != 0 && b != 0) else Bit(a != 0 || b != 0);
      stack[sp], stackTypes[sp] := res, T_NUM;
      assert Stack() == old(Stack())[..|old(Stack())| - 2] + [Num(res)];
      return Running;
    }

    // ---- Locals ----

    method ExecVarOp(op: int, arg: int) returns (r: Status)
      requires Valid() && (op == OP_LVAR || op == OP_SVAR)
      modifies `sp, stack, stackTypes, scopeStack
      ensures Valid() && Refines(r, ExecVar(old(View()), op, arg))
    {
      var idx := fp + arg;
      if idx < 0 || idx > sp {
        return Failed;
      }
      if op == OP_LVAR {
        r := Push(stack[idx], stackTypes[idx]);
        return;
      }
      var val, ty := stack[sp], stackTypes[sp];
      stack[idx], stackTypes[idx] := val, ty;
      sp := sp - 1;
      assert Stack() == old(Stack())[idx := Cell(val, ty)][..|old(Stack())| - 1];
      if ty == T_OBJ {
        RaiseBoundaries(idx, Off(val));
      }
      r := Running;
    }

    /** The protection loop of OP_SVAR. */
    method RaiseBoundaries(idx: int, off: int)
      requires Valid()
      modifies scopeStack
      ensures Valid()
      ensures Scopes() == BumpAll(old(Scopes()), fp, idx, currentArena, off, arenas[currentArena].head)
    {
      var head := arenas[currentArena].head;
      ghost var was := Scopes();
      var s := 0;
      while s < scopeSp
        invariant 0 <= s <= scopeSp
        invariant forall k :: 0 <= k < s ==> scopeStack[k] == Bumped(was[k], fp, idx, currentArena, off, head)
        invariant forall k :: s <= k < scopeSp ==> scopeStack[k] == was[k]
      {
        if scopeStack[s].fp == fp && idx <= scopeStack[s].spAtEntry && scopeStack[s].arena == currentArena
          && off >= scopeStack[s].head
        {
          scopeStack[s] := scopeStack[s].(head := head);
        }
        s := s + 1;
      }
      assert Scopes() == BumpAll(was, fp, idx, currentArena, off, head);
    }

    // ---- Control flow ----

    method ExecJumpOp(op: int, target: int) returns (r: Status)
      requires Valid() && (op == OP_JMP || op == OP_JZ || op == OP_JNZ)
      modifies `ip, `sp
      ensures Valid() && Refines(r, ExecJump(old(View()), op, target))
    {
      if op == OP_JMP {
        ip := target;
        return Running;
      }
      var val, ty;
      r, val, ty := Pop();
      if r == Running && (val == 0) == (op == OP_JZ) {
        ip := target;
      }
    }

    /** OP_CALL: the return address and the old frame pointer go beneath the arguments. */
    method ExecCallOp(target: int, argc: int) returns (r: Status)
      requires Valid()
      modifies `ip, `fp, `sp, stack, stackTypes
      ensures Valid() && Refines(r, ExecCall(old(View()), target, argc))
    {
      if argc < 0 || sp + 1 < argc {
        return Failed;
      }
      if sp + 3 > STACK_SIZE {
        return Full;
      }
      var start := sp - argc + 1;
      ShiftArgs(start);
      stack[start], stack[start + 1] := ip, fp;
      stackTypes[start], stackTypes[start + 1] := T_NUM, T_NUM;
      sp := sp + 2;
      Framed(old(Stack()), start, ip, fp);
      fp := start + 2;
      ip := target;
      return Running;
    }

    /** The arguments move up by two places, last one first, since source and target overlap. */
    method ShiftArgs(start: int)
      requires Sized() && 0 <= start <= sp + 1 && sp + 3 <= STACK_SIZE
      modifies stack, stackTypes
      ensures forall k :: 0 <= k < start ==> stack[k] == old(stack[k]) && stackTypes[k] == old(stackTypes[k])
      ensures forall k :: start + 2 <= k < sp + 3 ==> stack[k] == old(stack[k - 2]) && stackTypes[k] == old(stackTypes[k - 2])
    {
      var argc := sp + 1 - start;
      var i := 0;
      while i < argc
        invariant 0 <= i <= argc
        invariant forall k :: 0 <= k <= sp - i ==> stack[k] == old(stack[k]) && stackTypes[k] == old(stackTypes[k])
        invariant forall k :: sp + 2 - i < k < sp + 3 ==> stack[k] == old(stack[k - 2]) && stackTypes[k] == old(stackTypes[k - 2])
      {
        stack[sp + 2 - i] := stack[sp - i];
        stackTypes[sp + 2 - i] := stackTypes[sp - i];
        i := i + 1;
      }
    }

    lemma Framed(was: seq<Cell>, start: int, ip0: int, fp0: int)
      requires Sized() && 0 <= start <= |was| && sp == |was| + 1 < STACK_SIZE
      requires forall k :: 0 <= k < start ==> was[k] == Cell(stack[k], stackTypes[k])
      requires Cell(stack[start], stackTypes[start]) == Num(ip0)
      requires Cell(stack[start + 1], stackTypes[start + 1]) == Num(fp0)
      requires forall k :: start + 2 <= k <= sp ==> Cell(stack[k], stackTypes[k]) == was[k - 2]
      ensures Stack() == was[..start] + [Num(ip0), Num(fp0)] + was[start..]
    {
    }

    /** OP_RET. */
    method ExecRetOp() returns (r: Status)
      requires Valid()
      modifies `ip, `fp, `sp, `scopeSp, stack, stackTypes, arenas, memory, types
      ensures Valid() && Refines(r, ExecRet(old(View())))
    {
      hide Heap, PopScopes;
      if fp < 2 || fp > sp + 1 {
        return Failed;
      }
      var frame, rt := fp, stackTypes[sp];
      var rv;
      r, rv := LeaveFrame(stack[sp], rt);
      if r != Running {
        return Full;
      }
      sp := frame - 3;
      fp := stack[frame - 1];
      ip := stack[frame - 2];
      assert Stack() == old(Stack())[..frame - 2];
      r := Push(rv, rt);
    }

    /** Pops every scope of the current frame, carrying the result out of each. */
    method LeaveFrame(val: int, ty: int) returns (r: Status, rv: int)
      requires Valid()
      modifies `scopeSp, arenas, memory, types
      ensures Valid() && (r == Running || r == Full)
      ensures r == Full ==> PopScopes(old(Scopes()), fp, currentArena, old(Heap()), Cell(val, ty)) == None
      ensures r == Running ==>
        PopScopes(old(Scopes()), fp, currentArena, old(Heap()), Cell(val, ty)) == Some(Unwound(Scopes(), Heap(), Cell(rv, ty)))
    {
      hide Heap, Evac, Off, Region, Gen;
      rv := val;
      while scopeSp > 0
        invariant Valid()
        invariant PopScopes(old(Scopes()), fp, currentArena, old(Heap()), Cell(val, ty))
               == PopScopes(Scopes(), fp, currentArena, Heap(), Cell(rv, ty))
        decreases scopeSp
      {
        var scope := scopeStack[scopeSp - 1];
        ghost var was := Scopes();
        if scope.fp != fp {
          break;
        }
        scopeSp := scopeSp - 1;
        assert Scopes() == was[..|was| - 1] && was[|was| - 1] == scope;
        assert ValidScope(was[|was| - 1]);
        if currentArena == scope.arena {
          if ty == T_OBJ {
            var st;
            st, rv := EvacuateObject(rv, scope.head);
            if st != Running {
              return Full, 0;
            }
          }
          if ty != T_OBJ || Off(rv) < scope.head {
            SetHead(scope.arena, scope.head);
          }
        }
      }
      r := Running;
    }

    // ---- Memory ----

    method SetHead(a: int, head: int)
      requires Sized() && 0 <= a < MAX_ARENAS
      modifies arenas
      ensures Heap() == WithHead(old(Heap()), a, head)
    {
      arenas[a] := arenas[a].(head := head);
    }

    method SetCell(a: int, at: int, val: int, ty: int)
      requires Sized() && 0 <= a < MAX_ARENAS && 0 <= at < MAX_HEAP && arenas[a].active
      modifies memory, types
      ensures Heap() == Write(old(Heap()), a, at, Cell(val, ty))
    {
      memory[a, at], types[a, at] := val, ty;
      assert Cells(a) == old(Cells(a))[at := Cell(val, ty)];
      assert forall i :: 0 <= i < MAX_ARENAS && i != a ==> Cells(i) == old(Cells(i));
    }

    /** init_arena on a region without memory. */
    method InitArena(id: int)
      requires Valid() && 0 <= id < MAX_ARENAS && !arenas[id].active
      modifies arenas, memory, types
      ensures Valid() && Heap() == Opened(old(Heap()), id)
    {
      var gen := (arenas[id].generation + 1) % GEN_SPAN;
      if gen == 0 {
        gen := 1;
      }
      ZeroCells(id);
      arenas[id] := Header(0, true, gen);
    }

    /** The two callocs. */
    method ZeroCells(id: int)
      requires Sized() && 0 <= id < MAX_ARENAS
      modifies memory, types
      ensures Cells(id) == seq(MAX_HEAP, i => Cell(0, T_NUM))
      ensures forall i :: 0 <= i < MAX_ARENAS && i != id ==> Cells(i) == old(Cells(i))
    {
      var j := 0;
      while j < MAX_HEAP
        invariant 0 <= j <= MAX_HEAP
        invariant forall k :: 0 <= k < j ==> Cells(id)[k] == Cell(0, T_NUM)
        invariant forall i :: 0 <= i < MAX_ARENAS && i != id ==> Cells(i) == old(Cells(i))
      {
        ghost var was := Cells(id);
        memory[id, j], types[id, j] := 0, 0;
        assert Cells(id) == was[j := Cell(0, T_NUM)];
        j := j + 1;
      }
    }

    method FreeArena(id: int)
      requires Sized() && 0 <= id < MAX_ARENAS
      modifies arenas
      ensures Heap() == old(Heap())[id := Arena([], 0, false, old(Heap())[id].gen)]
    {
      arenas[id] := Header(0, false, arenas[id].generation);
    }

    /** vm_resolve_ptr_safe. */
    method Resolves(p: int) returns (ok: bool)
      requires Valid()
      ensures ok <==> Live(Heap(), p)
    {
      ok := p >= 0 && arenas[Region(p)].active && arenas[Region(p)].generation == Gen(p) && Off(p) < MAX_HEAP;
    }

    /** Where heap_alloc allocates: the current region, opened on demand. */
    ghost function Target(): (h: Heap)
      requires Valid()
      reads this, stack, stackTypes, scopeStack, arenas, memory, types
      ensures ValidHeap(h) && h[currentArena].active
      ensures forall i :: 0 <= i < MAX_ARENAS && arenas[i].active ==> h[i] == Heap()[i]
    {
      TargetOf(View())
    }

    method HeapAlloc(size: nat) returns (r: Status, ptr: int)
      requires Valid()
      modifies arenas, memory, types
      ensures Valid() && (r == Running || r == Full)
      ensures r == Running <==> Room(old(Target()), currentArena, size)
      ensures r == Running <==> (if old(arenas[currentArena].active) then old(arenas[currentArena].head) else 0) + size < MAX_HEAP
      ensures r == Running ==>
        var h := old(Target());
        && Heap() == WithHead(h, currentArena, h[currentArena].head + size)
        && ptr == Pack(h[currentArena].gen, currentArena, h[currentArena].head)
    {
      var id := currentArena;
      if !arenas[id].active {
        InitArena(id);
      }
      if arenas[id].head + size >= MAX_HEAP {
        return Full, 0;
      }
      ptr := Pack(arenas[id].generation, id, arenas[id].head);
      SetHead(id, arenas[id].head + size);
      r := Running;
    }

    /** memmove of `n` cells to the head of region `a`, which then advances. */
    method MoveBlock(a: int, from: int, off: int, n: nat)
      requires Valid() && 0 <= a < MAX_ARENAS && 0 <= from < MAX_ARENAS && arenas[from].active
      requires 0 <= off && off + n <= MAX_HEAP && Room(Heap(), a, n)
      modifies arenas, memory, types
      ensures Valid() && Heap() == Append(old(Heap()), a, old(Heap())[from].mem[off..off + n])
    {
      hide Heap;
      ghost var h := Heap();
      var cells := ReadCells(from, off, n);
      BlockMoved(h, a, cells);
      WriteCells(a, arenas[a].head, cells);
      SetHead(a, arenas[a].head + n);
    }

    method ReadCells(a: int, off: int, n: nat) returns (cells: seq<Cell>)
      requires Sized() && 0 <= a < MAX_ARENAS && arenas[a].active && 0 <= off && off + n <= MAX_HEAP
      ensures cells == Heap()[a].mem[off..off + n]
    {
      cells := [];
      while |cells| < n
        invariant |cells| <= n && cells == Cells(a)[off..off + |cells|]
      {
        cells := cells + [Cell(memory[a, off + |cells|], types[a, off + |cells|])];
      }
    }

    method WriteCells(a: int, at: int, cells: seq<Cell>)
      requires Sized() && 0 <= a < MAX_ARENAS && arenas[a].active && 0 <= at && at + |cells| <= MAX_HEAP
      modifies memory, types
      ensures Heap() == Overwrite(old(Heap()), a, at, cells)
    {
      hide Heap, Overwrite;
      ghost var h := Heap();
      OverwriteNone(h, a, at);
      var i := 0;
      while i < |cells|
        invariant 0 <= i <= |cells| && Heap() == Overwrite(h, a, at, cells[..i])
      {
        SetCell(a, at + i, cells[i].val, cells[i].tag);
        OverwriteNext(h, a, at, cells, i);
        i := i + 1;
      }
      assert cells[..i] == cells;
    }

    // ---- Evacuation ----

    /** vm_evacuate_object; Full when the copy would run past its region. */
    method EvacuateObject(ptr: int, target: int) returns (r: Status, q: int)
      requires Valid()
      modifies arenas, memory, types
      ensures Valid() && (r == Running || r == Full)
      ensures r == Running ==> Evac(old(Heap()), ptr, target) == Some((Heap(), q))
      ensures r == Full ==> Evac(old(Heap()), ptr, target) == None
      decreases Space(Heap(), MAX_ARENAS), 0, 0
    {
      hide Heap, Append, EvacKids, EvacData, Off, Region, Gen, Pack, Space, Grown, GrownBut, PackedCells;
      ghost var h := Heap();
      var live := Resolves(ptr);
      if ptr == 0 || !live || Off(ptr) < target {
        return Running, ptr;
      }
      var a, off := Region(ptr), Off(ptr);
      OffInRange(ptr);
      if off + 1 >= MAX_HEAP || memory[a, off + 1] < 0 {
        return Full, 0;
      }
      var ty, len := memory[a, off], memory[a, off + 1];
      assert ty == At(h, ptr, 0).val && len == At(h, ptr, 1).val;
      var size := ObjSize(ty, len);
      if size <= 0 {
        return Running, ptr;
      }
      if off + size > MAX_HEAP || arenas[a].head + size >= MAX_HEAP {
        return Full, 0;
      }
      var head := arenas[a].head;
      q := Pack(arenas[a].generation, a, head);
      MoveBlock(a, a, off, size);
      HeadsRisen(h, Heap());
      assert arenas[a].active && arenas[a].head == head + size;
      SpaceShrinks(h, Heap(), MAX_ARENAS, a);
      if ty == TYPE_MAP {
        r := EvacuateData(a, head, target);
      } else if ty == TYPE_ARRAY || ty >= 0 {
        r := EvacuateCells(a, head + 2, len, target);
      } else {
        r := Running;
      }
    }

    /** The loop over the elements of a moved array, struct or map block. */
    method EvacuateCells(a: int, at: int, n: nat, target: int) returns (r: Status)
      requires Valid() && 0 <= a < MAX_ARENAS && arenas[a].active && 0 <= at && at + n <= arenas[a].head
      modifies arenas, memory, types
      ensures Valid() && (r == Running || r == Full)
      ensures r == Running ==> EvacKids(old(Heap()), a, at, n, target) == Some(Heap())
      ensures r == Full ==> EvacKids(old(Heap()), a, at, n, target) == None
      decreases Space(Heap(), MAX_ARENAS), 1, 0
    {
      hide Heap, Evac, EvacKids, Off, Region, Gen, Pack, Space, GrownBut, Write;
      ghost var h := Heap();
      var i := 0;
      while i < n
        invariant 0 <= i <= n && Valid() && arenas[a].active && at + n <= arenas[a].head
        invariant EvacKids(h, a, at, n, target) == EvacKids(Heap(), a, at + i, n - i, target)
        invariant Space(Heap(), MAX_ARENAS) <= Space(h, MAX_ARENAS)
      {
        ghost var was := Heap();
        assert was[a].mem[at + i] == Cell(memory[a, at + i], types[a, at + i]);
        PlainCell(was, a, at + i, n - i, target);
        if types[a, at + i] == T_OBJ {
          FailedCell(was, a, at + i, n - i, target);
          var st, q := EvacuateObject(memory[a, at + i], target);
          if st != Running {
            return Full;
          }
          ghost var moved := Heap();
          HeadsRisen(was, moved);
          SetCell(a, at + i, q, T_OBJ);
          CellEvacuated(was, moved, a, at + i, n - i, target, q);
        }
        i := i + 1;
      }
      NoCells(Heap(), a, at + n, target);
      r := Running;
    }

    lemma NoCells(h: Heap, a: int, at: int, target: int)
      requires ValidHeap(h) && 0 <= a < MAX_ARENAS && h[a].active && 0 <= at <= h[a].head
      ensures EvacKids(h, a, at, 0, target) == Some(h)
    {
    }

    /** The headerless data block of a moved map header at `at`. */
    method EvacuateData(a: int, at: int, target: int) returns (r: Status)
      requires Valid() && 0 <= a < MAX_ARENAS && arenas[a].active && 0 <= at && at + 4 <= arenas[a].head
      modifies arenas, memory, types
      ensures Valid() && (r == Running || r == Full)
      ensures r == Running ==> EvacData(old(Heap()), a, at, target) == Some(Heap())
      ensures r == Full ==> EvacData(old(Heap()), a, at, target) == None
      decreases Space(Heap(), MAX_ARENAS), 2, 0
    {
      hide Heap, EvacKids, Append, Off, Region, Gen, Pack, Space, GrownBut, Grown;
      ghost var h := Heap();
      var n, d := memory[a, at + 1] * 2, memory[a, at + 3];
      assert n == h[a].mem[at + 1].val * 2 && d == h[a].mem[at + 3].val;
      var live := Resolves(d);
      if !live || Off(d) < target {
        return Running;
      }
      OffInRange(d);
      if n < 0 || Off(d) + n > MAX_HEAP || arenas[a].head + n >= MAX_HEAP {
        return Full;
      }
      var head, ty := arenas[a].head, types[a, at + 3];
      MoveBlock(a, Region(d), Off(d), n);
      ghost var moved := Heap();
      HeadsRisen(h, moved);
      SetCell(a, at + 3, Pack(arenas[a].generation, a, head), ty);
      SpaceShrinks(h, Heap(), MAX_ARENAS, a);
      r := EvacuateCells(a, head, n, target);
    }

    /** One cell of the loop: not an object, an object that does not fit, an object moved. */
    lemma PlainCell(h: Heap, a: int, at: int, n: nat, target: int)
      requires ValidHeap(h) && 0 <= a < MAX_ARENAS && h[a].active && 0 <= at && at + n <= h[a].head && n > 0
      ensures h[a].mem[at].tag != T_OBJ ==> EvacKids(h, a, at, n, target) == EvacKids(h, a, at + 1, n - 1, target)
    {
      hide Evac, Space;
    }

    lemma FailedCell(h: Heap, a: int, at: int, n: nat, target: int)
      requires ValidHeap(h) && 0 <= a < MAX_ARENAS && h[a].active && 0 <= at && at + n <= h[a].head && n > 0
      ensures h[a].mem[at].tag == T_OBJ && Evac(h, h[a].mem[at].val, target).None? ==> EvacKids(h, a, at, n, target) == None
    {
      hide Evac, Space;
    }

    lemma CellEvacuated(h: Heap, h1: Heap, a: int, at: int, n: nat, target: int, q: int)
      requires ValidHeap(h) && 0 <= a < MAX_ARENAS && h[a].active && 0 <= at && at + n <= h[a].head && n > 0
      requires h[a].mem[at].tag == T_OBJ && Evac(h, h[a].mem[at].val, target) == Some((h1, q))
      ensures at < |h1[a].mem|
      ensures var h2 := Write(h1, a, at, Cell(q, T_OBJ));
        && ValidHeap(h2) && h2[a].active && h[a].head <= h2[a].head && Space(h2, MAX_ARENAS) <= Space(h, MAX_ARENAS)
        && EvacKids(h, a, at, n, target) == EvacKids(h2, a, at + 1, n - 1, target)
    {
      hide Evac, Space, Off, Region, Gen;
      WriteGrown(h, h1, a, at, Cell(q, T_OBJ));
      HeadsRisen(h, h1);
      SpaceShrinks(h, Write(h1, a, at, Cell(q, T_OBJ)), MAX_ARENAS, a);
    }

    lemma HeadsRisen(h: Heap, h1: Heap)
      requires ValidHeap(h) && ValidHeap(h1) && Grown(h, h1)
      ensures forall i :: 0 <= i < MAX_ARENAS ==> h[i].head <= h1[i].head && SameArena(h[i], h1[i])
    {
    }

    // ---- Arrays ----

    /** vm_resolve_ptr and the reads of an array's header: its length, or -1 for anything else. */
    method ArrayLength(ptr: int, ghost ty: int) returns (n: int)
      requires Valid()
      ensures n >= 0 <==> Elems(Heap(), Cell(ptr, ty)).Some?
      ensures n >= 0 ==>
        && Live(Heap(), ptr) && 0 <= Off(ptr) && Off(ptr) + 2 + n <= MAX_HEAP
        && Elems(Heap(), Cell(ptr, ty)).value == Cells(Region(ptr))[Off(ptr) + 2..Off(ptr) + 2 + n]
    {
      hide Off, Region, Gen;
      var live := Resolves(ptr);
      OffInRange(ptr);
      var a, off := Region(ptr), Off(ptr);
      if !live || off + 1 >= MAX_HEAP {
        return -1;
      }
      assert Heap()[a].mem == Cells(a);
      if memory[a, off] != TYPE_ARRAY {
        return -1;
      }
      n := memory[a, off + 1];
      if n < 0 || off + 2 + n > MAX_HEAP {
        return -1;
      }
    }

    method ExecIndexOp() returns (r: Status)
      requires Valid()
      modifies `sp, stack, stackTypes
      ensures Valid() && Refines(r, ExecIndex(old(View())))
    {
      hide Heap, Off, Region, Gen, Elems, Scopes, ValidHeap;
      if sp < 1 {
        return Failed;
      }
      var key, ptr := stack[sp], stack[sp - 1];
      var len := ArrayLength(ptr, stackTypes[sp - 1]);
      if len < 0 {
        return Failed;
      }
      var idx := if key < 0 then key + len else key;
      if idx < 0 || idx >= len {
        return Failed;
      }
      var a, at := Region(ptr), Off(ptr) + 2 + idx;
      sp := sp - 2;
      assert Stack() == old(Stack())[..|old(Stack())| - 2];
      r := Push(memory[a, at], types[a, at]);
    }

    method ExecIterOp(op: int) returns (r: Status)
      requires Valid()
      modifies `sp, stack, stackTypes
      ensures Valid() && Refines(r, ExecIter(old(View()), op))
    {
      hide Heap, Off, Region, Gen, Elems, Scopes, ValidHeap;
      if sp < 1 {
        return Failed;
      }
      var idx, ptr := stack[sp], stack[sp - 1];
      var len := ArrayLength(ptr, stackTypes[sp - 1]);
      if len < 0 || idx < 0 || idx >= len {
        return Failed;
      }
      var a, at := Region(ptr), Off(ptr) + 2 + idx;
      sp := sp - 2;
      assert Stack() == old(Stack())[..|old(Stack())| - 2];
      if op == OP_IT_KEY {
        r := Push(idx, T_NUM);
      } else {
        r := Push(memory[a, at], types[a, at]);
      }
    }

    method ExecLengthOp() returns (r: Status)
      requires Valid()
      modifies `sp, stack, stackTypes
      ensures Valid() && Refines(r, ExecLength(old(View())))
    {
      hide Heap, Off, Region, Gen, Elems;
      if sp < 0 {
        return Failed;
      }
      var len := ArrayLength(stack[sp], stackTypes[sp]);
      if len < 0 {
        return Failed;
      }
      sp := sp - 1;
      assert Stack() == old(Stack())[..|old(Stack())| - 1];
      r := Push(len, T_NUM);
    }

    /** heap_alloc and the header writes of a new array of `n` elements. */
    method StartArray(n: nat) returns (r: Status, ptr: int)
      requires Valid()
      modifies arenas, memory, types
      ensures Valid() && (r == Running || r == Full)
      ensures r == Running <==> Room(old(Target()), currentArena, 2 + n)
      ensures r == Running ==>
        var h := old(Target());
        && Heap() == Headed(h, currentArena, n)
        && ptr == Pack(h[currentArena].gen, currentArena, h[currentArena].head)
    {
      hide Heap, Pack, Stack, Scopes, Opened;
      r, ptr := HeapAlloc(2 + n);
      if r == Running {
        var a := currentArena;
        var k := arenas[a].head - (2 + n);
        SetCell(a, k, TYPE_ARRAY, types[a, k]);
        SetCell(a, k + 1, n, types[a, k + 1]);
      }
    }

    /** The new array `cells` is complete; its pointer goes onto the stack. */
    method PushNew(ptr: int, ghost s: State, ghost h: Heap, ghost cells: seq<Cell>) returns (r: Status)
      requires Valid() && ValidState(s) && h == TargetOf(s) && Room(h, s.cur, 2 + |cells|)
      requires ptr == Pack(h[s.cur].gen, s.cur, h[s.cur].head)
      requires View() == s.(heap := Append(h, s.cur, ArrayBlock(h, s.cur, cells)))
      modifies `sp, stack, stackTypes
      ensures Valid() && Refines(r, PushArray(s, cells))
    {
      hide Heap, Pack, ArrayBlock, Append;
      r := Push(ptr, T_OBJ);
    }

    /** OP_ARR. */
    method ExecArrayOp(count: int) returns (r: Status)
      requires Valid()
      modifies `sp, stack, stackTypes, arenas, memory, types
      ensures Valid() && Refines(r, ExecArr(old(View()), count))
    {
      hide Heap, Pack, Overwrite, Headed, ArrayBlock, Append, Cells, Opened;
      if count < 0 || sp + 1 < count {
        return Failed;
      }
      ghost var h, cells := Target(), Stack()[sp + 1 - count..];
      var ptr;
      r, ptr := StartArray(count);
      if r != Running {
        return;
      }
      HeadedSize(h, currentArena, count);
      StacksToHeap(currentArena, arenas[currentArena].head - count, count);
      BlockWritten(h, currentArena, cells);
      assert Stack() == old(Stack())[..|old(Stack())| - count];
      r := PushNew(ptr, Machine.Drop(old(View()), count), h, cells);
    }

    /** The elements come off the stack, last one first. */
    method StacksToHeap(a: int, at: int, count: nat)
      requires InBounds() && 0 <= a < MAX_ARENAS && arenas[a].active && 0 <= at && at + count <= MAX_HEAP && count <= sp + 1
      modifies `sp, memory, types
      ensures sp == old(sp) - count
      ensures Heap() == Overwrite(old(Heap()), a, at, old(Stack())[old(sp) + 1 - count..])
    {
      ghost var h, cells := Heap(), Stack()[sp + 1 - count..];
      ghost var top := sp;
      assert forall k :: 0 <= k < count ==> cells[k] == Cell(stack[top + 1 - count + k], stackTypes[top + 1 - count + k]);
      hide Heap, Overwrite, Cells, Stack;
      OverwriteNone(h, a, at + count);
      assert cells[count..] == [];
      var i := count;
      while i > 0
        invariant 0 <= i <= count && sp == old(sp) - (count - i)
        invariant Heap() == Overwrite(h, a, at + i, cells[i..])
      {
        assert cells[i - 1] == Cell(stack[sp], stackTypes[sp]) by {
          assert top + 1 - count + (i - 1) == sp;
        }
        SetCell(a, at + i - 1, stack[sp], stackTypes[sp]);
        OverwriteDown(h, a, at, cells, i - 1);
        sp := sp - 1;
        i := i - 1;
      }
      assert cells[0..] == cells;
    }

    /** OP_RANGE. */
    method ExecRangeOp() returns (r: Status)
      requires Valid()
      modifies `sp, stack, stackTypes, arenas, memory, types
      ensures Valid() && Refines(r, ExecRange(old(View())))
    {
      hide Heap, Pack, Overwrite, Headed, ArrayBlock, Append, Cells, Opened, RangeLen, RangeAt, Scopes, ValidHeap;
      if sp < 1 {
        return Failed;
      }
      var stop, start := stack[sp], stack[sp - 1];
      sp := sp - 2;
      assert Stack() == old(Stack())[..|old(Stack())| - 2];
      var count := RangeLen(start, stop);
      ghost var h := Target();
      ghost var cells := seq(RangeLen(start, stop), i => Num(RangeAt(start, stop, i)));
      var ptr;
      r, ptr := StartArray(count);
      if r != Running {
        return;
      }
      HeadedSize(h, currentArena, count);
      Count(currentArena, arenas[currentArena].head - count, start, stop);
      BlockWritten(h, currentArena, cells);
      r := PushNew(ptr, Machine.Drop(old(View()), 2), h, cells);
    }

    method Count(a: int, at: int, start: int, stop: int)
      requires Sized() && 0 <= a < MAX_ARENAS && arenas[a].active && 0 <= at && at + RangeLen(start, stop) <= MAX_HEAP
      modifies memory, types
      ensures Heap() == Overwrite(old(Heap()), a, at, seq(RangeLen(start, stop), i => Num(RangeAt(start, stop, i))))
    {
      hide Heap, Overwrite, Cells;
      ghost var h, cells := Heap(), seq(RangeLen(start, stop), i => Num(RangeAt(start, stop, i)));
      var step := if stop >= start then 1 else -1;
      var count := Abs(stop - start) + 1;
      OverwriteNone(h, a, at);
      var val, i := start, 0;
      while i < count
        invariant 0 <= i <= count && val == RangeAt(start, stop, i)
        invariant Heap() == Overwrite(h, a, at, cells[..i])
      {
        SetCell(a, at + i, val, T_NUM);
        OverwriteNext(h, a, at, cells, i);
        val := val + step;
        i := i + 1;
      }
      assert cells[..i] == cells;
    }

    /** OP_SLICE. */
    method ExecSliceOp() returns (r: Status)
      requires Valid()
      modifies `sp, stack, stackTypes, arenas, memory, types
      ensures Valid() && Refines(r, ExecSlice(old(View())))
    {
      hide Heap, Cells, Off, Region, Gen, Elems, PushArray, Slice, SliceStart, SliceLen;
      if sp < 2 {
        return Failed;
      }
      var ptr := stack[sp - 2];
      var len := ArrayLength(ptr, stackTypes[sp - 2]);
      if len < 0 {
        return Failed;
      }
      var head := arenas[currentArena].head;
      if Region(ptr) == currentArena && Off(ptr) < head < Off(ptr) + 2 + len {
        return Failed;
      }
      r := CopySlice(len);
    }

    method CopySlice(len: nat) returns (r: Status)
      requires Valid() && sp >= 2
      requires var all := Elems(Heap(), Top(View(), 2));
        all.Some? && |all.value| == len && !Straddles(View(), stack[sp - 2], len)
      modifies `sp, stack, stackTypes, arenas, memory, types
      ensures Valid()
      ensures var s := old(View());
        Refines(r, PushArray(Machine.Drop(s, 3), Slice(Elems(s.heap, Top(s, 2)).value, Top(s, 1).val, Top(s, 0).val)))
    {
      hide Heap, Cells, Region, Gen, PushArray, Slice, SliceStart, SliceLen;
      var e, s, ptr := stack[sp], stack[sp - 1], stack[sp - 2];
      var from, off := Region(ptr), Off(ptr);
      var start, newLen := SliceBounds(s, e, len);
      SliceIsPart(Cells(from), off + 2, len, s, e);
      sp := sp - 3;
      assert Stack() == old(Stack())[..|old(Stack())| - 3];
      r := CopyToNew(from, off + 2 + start, newLen);
    }

    /** Negative bounds count from the end, and both are clamped. */
    method SliceBounds(s: int, e: int, len: nat) returns (start: nat, newLen: nat)
      ensures start == SliceStart(s, len) && newLen == SliceLen(s, e, len)
    {
      var from := if s < 0 then s + len else s;
      var end := if e < 0 then e + len else e;
      start := if from < 0 then 0 else from;
      if end >= len {
        end := len - 1;
      }
      newLen := if end >= start then end - start + 1 else 0;
      if start >= len {
        newLen := 0;
      }
    }

    /** A new array holding a copy of `n` cells, pushed. */
    method CopyToNew(from: int, src: int, n: nat) returns (r: Status)
      requires Valid() && 0 <= from < MAX_ARENAS && arenas[from].active && 0 <= src && (n > 0 ==> src + n <= MAX_HEAP)
      requires n > 0 && from == currentArena ==> src + n <= arenas[from].head || arenas[from].head + 2 <= src
      modifies `sp, stack, stackTypes, arenas, memory, types
      ensures Valid() && Refines(r, PushArray(old(View()), PartOf(old(Cells(from)), src, n)))
    {
      hide Heap, Pack, Overwrite, Headed, ArrayBlock, Append, Cells, Opened;
      ghost var h, cells := Target(), PartOf(Cells(from), src, n);
      var ptr;
      r, ptr := StartArray(n);
      if r != Running {
        return;
      }
      HeadedSize(h, currentArena, n);
      HeadedPart(h, currentArena, n, from, src, n);
      CopyElements(from, src, currentArena, arenas[currentArena].head - n, n);
      BlockWritten(h, currentArena, cells);
      r := PushNew(ptr, old(View()), h, cells);
    }

    /** Element by element, source first: the target never runs ahead of cells still to be read. */
    method CopyElements(from: int, src: int, a: int, at: int, n: nat)
      requires Sized() && 0 <= a < MAX_ARENAS && 0 <= from < MAX_ARENAS && arenas[a].active && arenas[from].active
      requires 0 <= at && at + n <= MAX_HEAP && 0 <= src && (n > 0 ==> src + n <= MAX_HEAP)
      requires n > 0 && from == a ==> src + n <= at || at <= src
      modifies memory, types
      ensures Heap() == Overwrite(old(Heap()), a, at, PartOf(old(Cells(from)), src, n))
    {
      hide Heap, Cells;
      ghost var h, cells := Heap(), PartOf(Cells(from), src, n);
      OverwriteNone(h, a, at);
      var i := 0;
      while i < n
        invariant 0 <= i <= n
        invariant Heap() == Overwrite(h, a, at, cells[..i])
      {
        assert Heap()[from].mem[src + i] == h[from].mem[src + i];
        assert cells[i] == Cell(memory[from, src + i], types[from, src + i]);
        SetCell(a, at + i, memory[from, src + i], types[from, src + i]);
        OverwriteNext(h, a, at, cells, i);
        i := i + 1;
      }
      assert cells[..i] == cells;
    }

    // ---- Scopes and regions ----

    method ExecEnterOp() returns (r: Status)
      requires Valid()
      modifies `scopeSp, scopeStack
      ensures Valid() && Refines(r, ExecEnter(old(View())))
    {
      hide Heap;
      if scopeSp >= MAX_SCOPES {
        return Full;
      }
      scopeStack[scopeSp] := Scope(currentArena, arenas[currentArena].head, fp, sp);
      scopeSp := scopeSp + 1;
      assert Scopes() == old(Scopes()) + [Scope(currentArena, arenas[currentArena].head, fp, sp)];
      return Running;
    }

    method ExecExitOp() returns (r: Status)
      requires Valid()
      modifies `scopeSp, arenas
      ensures Valid() && Refines(r, ExecExit(old(View())))
    {
      hide Heap;
      if scopeSp > 0 {
        scopeSp := scopeSp - 1;
        var scope := scopeStack[scopeSp];
        assert scope == old(Scopes())[scopeSp] && Scopes() == old(Scopes())[..scopeSp];
        if currentArena == scope.arena {
          SetHead(currentArena, scope.head);
        }
      }
      return Running;
    }

    method ExecRegionOp(op: int) returns (r: Status)
      requires Valid() && (op == OP_NEW_ARENA || op == OP_DEL_ARENA || op == OP_SET_CTX)
      modifies `sp, `currentArena, stack, stackTypes, arenas, memory, types
      ensures Valid() && Refines(r, ExecRegion(old(View()), op))
    {
      if op == OP_NEW_ARENA {
        r := NewArena();
      } else if op == OP_DEL_ARENA {
        r := DelArena();
      } else {
        r := SetContext();
      }
    }

    method NewArena() returns (r: Status)
      requires Valid()
      modifies `sp, stack, stackTypes, arenas, memory, types
      ensures Valid() && Refines(r, ExecRegion(old(View()), OP_NEW_ARENA))
    {
      hide Heap, Opened, Stack;
      var id := FindInactive();
      if id == MAX_ARENAS {
        return Failed;
      }
      InitArena(id);
      r := Push(id, T_NUM);
    }

    method DelArena() returns (r: Status)
      requires Valid()
      modifies `sp, arenas
      ensures Valid() && Refines(r, ExecRegion(old(View()), OP_DEL_ARENA))
    {
      hide Heap, Stack;
      var id, ty;
      r, id, ty := Pop();
      if r != Running {
        return;
      }
      if id <= 0 {
        return Failed;
      }
      if id < MAX_ARENAS {
        FreeArena(id);
      }
    }

    method SetContext() returns (r: Status)
      requires Valid()
      modifies `sp, `currentArena
      ensures Valid() && Refines(r, ExecRegion(old(View()), OP_SET_CTX))
    {
      hide Heap, Stack;
      var id, ty;
      r, id, ty := Pop();
      if r != Running {
        return;
      }
      if !(0 <= id < MAX_ARENAS) {
        return Failed;
      }
      if !arenas[id].active && id != 0 {
        return Failed;
      }
      currentArena := id;
    }

    method FindInactive() returns (id: nat)
      requires Valid()
      ensures id == FirstInactive(Heap(), 1)
    {
      id := 1;
      while id < MAX_ARENAS && arenas[id].active
        invariant 1 <= id <= MAX_ARENAS && FirstInactive(Heap(), 1) == FirstInactive(Heap(), id)
      {
        id := id + 1;
      }
    }

    // ---- The loop ----

    /** vm_step. */
    method Step() returns (r: Status)
      requires Valid()
      modifies this, stack, stackTypes, scopeStack, arenas, memory, types
      ensures Valid() && Refines(r, Machine.Step(program, old(View())))
      ensures old(ip) >= |program.code| ==> View() == old(View())
    {
      hide Heap, Stack, Cells, ExecMath, ExecCompare, ExecLogic, ExecIndex, ExecLength, ExecSlice, ExecRange, ExecIter,
        ExecEnter, ExecExit, ExecRet, ExecRegion, ExecVar, ExecJump, ExecArr, ExecCall;
      if ip >= |program.code| {
        return Finished;
      }
      if ip < 0 {
        return Failed;
      }
      var op := program.code[ip];
      ip := ip + 1;
      if IsMath(op) {
        r := ExecMathOp(op);
      } else if IsCompare(op) {
        r := ExecCompareOp(op);
      } else if op == OP_OR || op == OP_AND {
        r := ExecLogicOp(op);
      } else if op == OP_AGET {
        r := ExecIndexOp();
      } else if op == OP_ALEN {
        r := ExecLengthOp();
      } else if op == OP_SLICE {
        r := ExecSliceOp();
      } else if op == OP_RANGE {
        r := ExecRangeOp();
      } else if op == OP_IT_KEY || op == OP_IT_VAL || op == OP_IT_DEF {
        r := ExecIterOp(op);
      } else if op == OP_SCOPE_ENTER {
        r := ExecEnterOp();
      } else if op == OP_SCOPE_EXIT {
        r := ExecExitOp();
      } else if op == OP_RET {
        r := ExecRetOp();
      } else if op == OP_HLT {
        r := Finished;
      } else if op == OP_DUP {
        r := ExecDupOp();
      } else if op == OP_POP {
        var val, ty;
        r, val, ty := Pop();
      } else if op == OP_NEW_ARENA || op == OP_DEL_ARENA || op == OP_SET_CTX {
        r := ExecRegionOp(op);
      } else {
        r := StepOperand(op);
      }
    }

    method ExecDupOp() returns (r: Status)
      requires Valid()
      modifies `sp, stack, stackTypes
      ensures Valid()
      ensures Refines(r, if old(sp) < 0 then Stuck else Machine.Push(old(View()), Top(old(View()), 0)))
    {
      if sp < 0 {
        return Failed;
      }
      r := Push(stack[sp], stackTypes[sp]);
    }

    /** The opcodes that read operands from the code. */
    method StepOperand(op: int) returns (r: Status)
      requires Valid() && 0 <= ip && OperandOp(op)
      modifies this, stack, stackTypes, scopeStack, arenas, memory, types
      ensures Valid() && Refines(r, Exec(program, old(View()), op))
    {
      hide Heap, Stack, Cells, ExecVar, ExecJump, ExecArr, ExecCall;
      if ip >= |program.code| {
        return Failed;
      }
      var arg := program.code[ip];
      ip := ip + 1;
      if op == OP_PSH_NUM {
        if !(0 <= arg < |program.consts|) {
          return Failed;
        }
        r := Push(program.consts[arg], T_NUM);
      } else if op == OP_LVAR || op == OP_SVAR {
        r := ExecVarOp(op, arg);
      } else if op == OP_JMP || op == OP_JZ || op == OP_JNZ {
        r := ExecJumpOp(op, arg);
      } else if op == OP_ARR {
        r := ExecArrayOp(arg);
      } else if op == OP_CALL && ip < |program.code| {
        var argc := program.code[ip];
        ip := ip + 1;
        r := ExecCallOp(arg, argc);
      } else {
        r := Failed;
      }
    }

    /** run_vm_from, cut off after `limit` instructions. */
    method RunFrom(start: int, limit: nat) returns (r: Status, ghost last: State, ghost steps: nat)
      requires Valid()
      modifies this, stack, stackTypes, scopeStack, arenas, memory, types
      ensures Valid() && Refines(r, Machine.Run(program, old(View()).(ip := start), limit))
      ensures r == Finished ==> ValidState(last) && Machine.Step(program, last) == Halted
      ensures r == Finished ==> Machine.Run(program, old(View()).(ip := start), steps) == Next(last)
      ensures r == Finished && last.ip >= |program.code| ==> View() == last
    {
      hide Heap, Stack, Cells, Machine.Step;
      ip := start;
      ghost var s := View();
      r, last, steps := Running, s, 0;
      var left := limit;
      while left > 0
        invariant Valid() && r == Running
        invariant Machine.Run(program, s, limit) == Machine.Run(program, View(), left)
        invariant Machine.Run(program, s, steps) == Next(View())
      {
        last := View();
        r := Step();
        if r != Running {
          return;
        }
        RunNext(program, s, steps, last, View());
        left, steps := left - 1, steps + 1;
      }
    }
  }

  lemma {:induction false} RunNext(p: Program, s: State, n: nat, t: State, u: State)
    requires ValidState(s) && ValidState(t) && ValidState(u) && Machine.Run(p, s, n) == Next(t) && Machine.Step(p, t) == Next(u)
    ensures Machine.Run(p, s, n + 1) == Next(u)
    decreases n
  {
    hide Machine.Step, ValidState;
    if n == 0 {
      assert Machine.Run(p, u, 0) == Next(u);
    } else {
      RunNext(p, Machine.Step(p, s).s, n - 1, t, u);
    }
  }
}
