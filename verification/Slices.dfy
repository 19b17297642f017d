/** Slices for all integer bounds, slice assignment (src/vm.c:1481-1574), and interned strings
    (src/vm.c:529-536). */
module Slices {
  import opened Defines
  import opened Arenas
  import opened Machine
  import opened VirtualMachine

  // ---- Bounds ----

  /** The position a bound denotes: negative ones count from the end. */
  function Position(b: int, len: nat): int {
    if b < 0 then b + len else b
  }

  /** An index belongs to the slice exactly when it lies between the two positions, both included. */
  lemma SliceMembers(s: int, e: int, len: nat, i: nat)
    requires i < len
    ensures SliceStart(s, len) <= i < SliceStart(s, len) + SliceLen(s, e, len) <==> Position(s, len) <= i <= Position(e, len)
  {
  }

  lemma SliceElements<T>(xs: seq<T>, s: int, e: int, k: nat)
    requires k < |Slice(xs, s, e)|
    ensures SliceStart(s, |xs|) + k < |xs| && Slice(xs, s, e)[k] == xs[SliceStart(s, |xs|) + k]
  {
  }

  // ---- Assignment ----

  function Min(a: nat, b: nat): nat {
    if a < b then a else b
  }

  /** The first positions of the slice take the first elements of `ys`; nothing else changes. */
  function Assigned<T>(xs: seq<T>, s: int, e: int, ys: seq<T>): (r: seq<T>)
    ensures |r| == |xs|
  {
    var start, n := SliceStart(s, |xs|), Min(SliceLen(s, e, |xs|), |ys|);
    if n == 0 then xs else xs[..start] + ys[..n] + xs[start + n..]
  }

  lemma AssignedElements<T>(xs: seq<T>, s: int, e: int, ys: seq<T>, i: nat)
    requires i < |xs|
    ensures var start := SliceStart(s, |xs|);
      Assigned(xs, s, e, ys)[i] ==
        if Position(s, |xs|) <= i <= Position(e, |xs|) && start <= i < start + |ys| then ys[i - start] else xs[i]
  {
  }

  /** Assigning a slice to its own range is the identity, and a slice reads back what was assigned. */
  lemma SliceAssignRoundTrip<T>(xs: seq<T>, s: int, e: int, ys: seq<T>)
    ensures Assigned(xs, s, e, Slice(xs, s, e)) == xs
    ensures |ys| == SliceLen(s, e, |xs|) ==> Slice(Assigned(xs, s, e, ys), s, e) == ys
  {
    var start, n := SliceStart(s, |xs|), SliceLen(s, e, |xs|);
    if n > 0 {
      assert Slice(xs, s, e)[..n] == xs[start..start + n];
      assert xs[..start] + xs[start..start + n] + xs[start + n..] == xs;
    }
  }

  ghost predicate ArrayAt(h: Heap, p: int, xs: seq<Cell>)
    requires ValidHeap(h)
  {
    Elems(h, Cell(p, T_OBJ)) == Some(xs) && 0 <= Off(p)
  }

  ghost predicate ApartArrays(p: int, n: nat, q: int, m: nat) {
    Region(p) != Region(q) || Off(p) + 2 + n <= Off(q) || Off(q) + 2 + m <= Off(p)
  }

  /** OP_SLICE_SET on two distinct arrays: every access is in range and the array at `p` becomes the
      assigned one. */
  method SliceSet(vm: Vm, p: int, q: int, s: int, e: int, ghost xs: seq<Cell>, ghost ys: seq<Cell>)
    requires vm.Valid() && ArrayAt(vm.Heap(), p, xs) && ArrayAt(vm.Heap(), q, ys) && ApartArrays(p, |xs|, q, |ys|)
    modifies vm.memory, vm.types
    ensures vm.Valid() && ArrayAt(vm.Heap(), p, Assigned(xs, s, e, ys)) && ArrayAt(vm.Heap(), q, ys)
    ensures ElementsFit(old(vm.Heap()), p, s, e, |xs|, |ys|)
    ensures vm.Heap() == Spliced(old(vm.Heap()), p, s, e, |xs|, ys)
  {
    hide Off, Region, Gen, Vm.Heap, Elems, SliceStart, SliceLen, Assigned, Vm.Cells, Overwrite, PartOf, Spliced, ElementsFit;
    ghost var h := vm.Heap();
    var len := vm.ArrayLength(p, T_OBJ);
    var vlen := vm.ArrayLength(q, T_OBJ);
    var start, sliceLen := vm.SliceBounds(s, e, len);
    var copyLen := if sliceLen < vlen then sliceLen else vlen;
    SliceFits(s, e, len);
    ArrayBounds(h, p, xs);
    ArrayBounds(h, q, ys);
    CopyApart(p, len, q, vlen, start, copyLen);
    ArrayAssigned(h, p, q, xs, ys, s, e);
    SplicedIs(h, p, q, xs, ys, s, e);
    if copyLen > 0 {
      vm.CopyElements(Region(q), Off(q) + 2, Region(p), Off(p) + 2 + start, copyLen);
    } else {
      NothingAssigned(xs, s, e, ys);
    }
  }

  /** The heap with the first elements of `ys` written over the slice, and nothing else changed. */
  ghost function Spliced(h: Heap, p: int, s: int, e: int, len: nat, ys: seq<Cell>): Heap
    requires ValidHeap(h) && ElementsFit(h, p, s, e, len, |ys|)
  {
    var n := Min(SliceLen(s, e, len), |ys|);
    if n == 0 then h else Overwrite(h, Region(p), Off(p) + 2 + SliceStart(s, len), ys[..n])
  }

  /** Slice assignment reaches no head, no other region, and no cell outside the elements of its array. */
  lemma SplicedElsewhere(h: Heap, p: int, s: int, e: int, xs: seq<Cell>, ys: seq<Cell>, a: int, j: int)
    requires ValidHeap(h) && ArrayAt(h, p, xs) && ElementsFit(h, p, s, e, |xs|, |ys|) && 0 <= a < MAX_ARENAS
    ensures var r := Spliced(h, p, s, e, |xs|, ys);
      && |r| == |h| && r[a].head == h[a].head && r[a].active == h[a].active && r[a].gen == h[a].gen && |r[a].mem| == |h[a].mem|
      && (0 <= j < |h[a].mem| && !(a == Region(p) && Off(p) + 2 <= j < Off(p) + 2 + |xs|) ==> r[a].mem[j] == h[a].mem[j])
  {
    hide Off, Region, Gen;
    SliceFits(s, e, |xs|);
  }

  ghost predicate ElementsFit(h: Heap, p: int, s: int, e: int, len: nat, n: nat)
    requires ValidHeap(h)
  {
    Min(SliceLen(s, e, len), n) > 0 ==>
      0 <= Off(p) && Off(p) + 2 + SliceStart(s, len) + Min(SliceLen(s, e, len), n) <= |h[Region(p)].mem|
  }

  lemma SplicedIs(h: Heap, p: int, q: int, xs: seq<Cell>, ys: seq<Cell>, s: int, e: int)
    requires ValidHeap(h) && ArrayAt(h, p, xs) && ArrayAt(h, q, ys)
    ensures ElementsFit(h, p, s, e, |xs|, |ys|)
    ensures var n := Min(SliceLen(s, e, |xs|), |ys|);
      if n == 0 then Spliced(h, p, s, e, |xs|, ys) == h
      else
        && 0 <= Off(q) && Off(q) + 2 + n <= |h[Region(q)].mem|
        && Spliced(h, p, s, e, |xs|, ys) == Overwrite(h, Region(p), Off(p) + 2 + SliceStart(s, |xs|), PartOf(h[Region(q)].mem, Off(q) + 2, n))
  {
    hide Off, Region, Gen, Overwrite, SliceStart, SliceLen, PartOf;
    SliceFits(s, e, |xs|);
    ArrayBounds(h, p, xs);
    var n := Min(SliceLen(s, e, |xs|), |ys|);
    if n > 0 {
      FirstElements(h, q, ys, n);
    }
  }

  lemma NothingAssigned<T>(xs: seq<T>, s: int, e: int, ys: seq<T>)
    requires Min(SliceLen(s, e, |xs|), |ys|) == 0
    ensures Assigned(xs, s, e, ys) == xs
  {
  }

  lemma SliceFits(s: int, e: int, len: nat)
    ensures SliceLen(s, e, len) > 0 ==> SliceStart(s, len) + SliceLen(s, e, len) <= len
    ensures SliceLen(s, e, len) <= len
  {
  }

  lemma ArrayBounds(h: Heap, p: int, xs: seq<Cell>)
    requires ValidHeap(h) && ArrayAt(h, p, xs)
    ensures Live(h, p) && h[Region(p)].active && 0 <= Off(p) && Off(p) + 2 + |xs| <= MAX_HEAP
    ensures h[Region(p)].mem[Off(p) + 2..Off(p) + 2 + |xs|] == xs
  {
  }

  lemma CopyApart(p: int, len: nat, q: int, vlen: nat, start: nat, n: nat)
    requires ApartArrays(p, len, q, vlen) && n <= vlen && (n > 0 ==> start + n <= len)
    ensures n > 0 && Region(q) == Region(p) ==>
      Off(q) + 2 + n <= Off(p) + 2 + start || Off(p) + 2 + start <= Off(q) + 2
  {
    hide Off, Region;
  }

  lemma ArrayAssigned(h: Heap, p: int, q: int, xs: seq<Cell>, ys: seq<Cell>, s: int, e: int)
    requires ValidHeap(h) && ArrayAt(h, p, xs) && ArrayAt(h, q, ys) && ApartArrays(p, |xs|, q, |ys|)
    ensures var a, start, n := Region(p), SliceStart(s, |xs|), Min(SliceLen(s, e, |xs|), |ys|);
      var at := Off(p) + 2 + start;
      n > 0 ==>
        && at + n <= |h[a].mem| && Off(q) + 2 + n <= |h[Region(q)].mem|
        && var h2 := Overwrite(h, a, at, PartOf(h[Region(q)].mem, Off(q) + 2, n));
          ValidHeap(h2) && ArrayAt(h2, p, Assigned(xs, s, e, ys)) && ArrayAt(h2, q, ys)
  {
    hide Off, Region, Gen, Overwrite, SliceStart, SliceLen, PartOf;
    var a, o := Region(p), Off(p);
    var start, n := SliceStart(s, |xs|), Min(SliceLen(s, e, |xs|), |ys|);
    if n > 0 {
      SliceFits(s, e, |xs|);
      FirstElements(h, q, ys, n);
      hide ArrayAt;
      ElementsWritten(h, p, xs, start, ys[..n]);
      ArrayKept(h, q, ys, a, o + 2 + start, ys[..n]);
    }
  }

  lemma FirstElements(h: Heap, q: int, ys: seq<Cell>, n: nat)
    requires ValidHeap(h) && ArrayAt(h, q, ys) && 0 < n <= |ys|
    ensures 0 <= Off(q) && Off(q) + 2 + n <= |h[Region(q)].mem| && PartOf(h[Region(q)].mem, Off(q) + 2, n) == ys[..n]
  {
    hide Off, Region, Gen;
    var m := h[Region(q)].mem;
    assert m[Off(q) + 2..Off(q) + 2 + |ys|][..n] == m[Off(q) + 2..Off(q) + 2 + n];
  }

  lemma ElementsWritten(h: Heap, p: int, xs: seq<Cell>, start: nat, ys: seq<Cell>)
    requires ValidHeap(h) && ArrayAt(h, p, xs) && start + |ys| <= |xs|
    ensures var a, at := Region(p), Off(p) + 2 + start;
      && at + |ys| <= |h[a].mem|
      && ValidHeap(Overwrite(h, a, at, ys))
      && ArrayAt(Overwrite(h, a, at, ys), p, xs[..start] + ys + xs[start + |ys|..])
  {
    hide Off, Region, Gen;
    PartAssigned(h[Region(p)].mem, Off(p) + 2, xs, start, ys);
  }

  /** Cells written elsewhere leave an array alone. */
  lemma ArrayKept(h: Heap, q: int, ys: seq<Cell>, a: int, at: int, cells: seq<Cell>)
    requires ValidHeap(h) && ArrayAt(h, q, ys) && 0 <= a < MAX_ARENAS && h[a].active
    requires 0 <= at && at + |cells| <= |h[a].mem|
    requires a == Region(q) ==> at + |cells| <= Off(q) || Off(q) + 2 + |ys| <= at
    ensures ValidHeap(Overwrite(h, a, at, cells)) && ArrayAt(Overwrite(h, a, at, cells), q, ys)
  {
    hide Off, Region, Gen;
    var o, n := Off(q), 2 + |ys|;
    if a == Region(q) {
      PartElsewhere(h[a].mem, at, cells, o, n);
    }
  }

  lemma PartElsewhere(m: seq<Cell>, at: nat, cells: seq<Cell>, o: nat, n: nat)
    requires at + |cells| <= |m| && o + n <= |m| && n >= 2 && (at + |cells| <= o || o + n <= at)
    ensures var m2 := m[..at] + cells + m[at + |cells|..];
      m2[o] == m[o] && m2[o + 1] == m[o + 1] && m2[o + 2..o + n] == m[o + 2..o + n]
  {
    var m2 := m[..at] + cells + m[at + |cells|..];
    assert forall k :: o <= k < o + n ==> m2[k] == m[k];
  }

  lemma PartAssigned(m: seq<Cell>, o: nat, xs: seq<Cell>, start: nat, ys: seq<Cell>)
    requires o + |xs| <= |m| && m[o..o + |xs|] == xs && start + |ys| <= |xs|
    ensures (m[..o + start] + ys + m[o + start + |ys|..])[o..o + |xs|] == xs[..start] + ys + xs[start + |ys|..]
  {
    var n := |ys|;
    assert xs[..start] == m[o..o + start] && xs[start + n..] == m[o + start + n..o + |xs|];
  }

  // ---- Interned strings ----

  const MAX_STRINGS: nat := 10000

  /** MAX_STRING_LENGTH less its last two characters: what is stored whole, with its terminator. */
  const SHORT: nat := 1023

  function Stored(s: string): string {
    if |s| < SHORT then s else s[..SHORT]
  }

  class StringPool {
    const pool: array<string>
    var count: nat

    /** Short strings are stored once. */
    ghost predicate Valid()
      reads this, pool
    {
      && count <= pool.Length == MAX_STRINGS
      && (forall i :: 0 <= i < count ==> |pool[i]| <= SHORT)
      && (forall i, j :: 0 <= i < j < count && |pool[i]| < SHORT ==> pool[i] != pool[j])
    }

    constructor ()
      ensures Valid() && count == 0 && fresh(pool)
    {
      pool := new string[MAX_STRINGS](i => "");
      count := 0;
    }

    /** make_string; None when the pool is full. */
    method MakeString(s: string) returns (id: Option<nat>)
      requires Valid()
      modifies `count, pool
      ensures Valid() && count >= old(count) && forall k :: 0 <= k < old(count) ==> pool[k] == old(pool[k])
      ensures id.Some? ==> id.value < count && pool[id.value] == Stored(s)
      ensures id.Some? ==> pool[id.value] <= s && |pool[id.value]| == if |s| < 1023 then |s| else 1023
      ensures id.Some? ==> (id.value < old(count) <==> s in old(pool[..count]))
      ensures id.None? <==> old(count) == MAX_STRINGS && s !in old(pool[..count])
      ensures count == old(count) + if s in old(pool[..count]) || id.None? then 0 else 1
    {
      var j := 0;
      while j < count
        invariant 0 <= j <= count && s !in pool[..j]
      {
        if pool[j] == s {
          assert |s| == SHORT ==> s[..SHORT] == s;
          return Some(j);
        }
        j := j + 1;
      }
      if count >= MAX_STRINGS {
        return None;
      }
      pool[count] := Stored(s);
      count := count + 1;
      return Some(count - 1);
    }

    /** For short strings, whenever they were interned, equal ids mean equal strings and conversely. */
    lemma SameIdSameString(s: string, t: string, i: nat, j: nat)
      requires Valid() && i < count && j < count && pool[i] == Stored(s) && pool[j] == Stored(t)
      requires |s| < SHORT && |t| < SHORT
      ensures i == j <==> s == t
    {
      if i < j {
        assert pool[i] != pool[j];
      } else if j < i {
        assert pool[j] != pool[i];
      }
    }

    /** A string that does not fit is never found again: each call makes a new entry. */
    lemma LongNeverFound(s: string)
      requires Valid() && |s| > SHORT
      ensures s !in pool[..count]
    {
      forall i | 0 <= i < count ensures pool[..count][i] != s {
        assert |pool[i]| <= SHORT;
      }
    }
  }
}
