/** When the boundary bumping of OP_SVAR goes wrong: storing an array that an inner scope's boundary
    lies above, in a variable that outlives more than that scope, can lift an outer boundary past an
    inner one (src/vm.c:1191-1217). */
module Aliasing {
  import opened Defines
  import opened Arenas
  import opened Machine
  import opened Protection

  ghost predicate Ordered(scopes: seq<Scope>) {
    forall j, k :: 0 <= j < k < |scopes| ==> scopes[j].head <= scopes[k].head
  }

  /** The boundaries stay in order exactly when the store is safe. The frame's scopes are the last
      ones, and a variable outlives the inner of two scopes if it outlives the outer. */
  lemma BumpOrderedIff(scopes: seq<Scope>, fp: int, idx: int, a: int, off: int, head: int)
    requires Ordered(scopes) && forall k :: 0 <= k < |scopes| ==> scopes[k].arena == a && scopes[k].head <= head
    requires forall j, k :: 0 <= j < k < |scopes| && scopes[j].fp == fp ==> scopes[k].fp == fp && scopes[j].spAtEntry <= scopes[k].spAtEntry
    ensures Ordered(BumpAll(scopes, fp, idx, a, off, head)) <==> OrderSafe(scopes, fp, idx, a, off, head)
  {
    var bs := BumpAll(scopes, fp, idx, a, off, head);
    if !OrderSafe(scopes, fp, idx, a, off, head) {
      var j :| 0 <= j < |scopes| && Outlived(scopes[j], fp, idx, a) && scopes[j].head <= off;
      var k :| 0 <= k < |scopes| && Outlived(scopes[k], fp, idx, a) && off < scopes[k].head && scopes[k].head != head;
      assert j < k;
      assert bs[j].head == head && bs[k].head < head;
    }
  }

  /** Storing an object keeps the invariant that protects the locals if and only if the store is safe. */
  lemma StoreKeepsIff(h: Heap, a: int, z: Hole, scopes: seq<Scope>, stack: seq<Cell>, vs: seq<Value>, fp: int, idx: int)
    requires ValidHeap(h) && Guarded(h, a, z, scopes, stack, vs) && 0 <= idx < |stack| - 1
    requires stack[|stack| - 1].tag == T_OBJ
    requires forall k :: 0 <= k < |scopes| ==> scopes[k].spAtEntry < |stack| - 1
    requires forall k :: 0 <= k < |scopes| && idx <= scopes[k].spAtEntry ==> scopes[k].fp == fp
    requires forall j, k :: 0 <= j < k < |scopes| && scopes[j].fp == fp ==> scopes[k].fp == fp
    ensures var m := |stack| - 1;
      Guarded(h, a, z, StoreScopes(h, a, scopes, fp, idx, stack[m]), stack[idx := stack[m]][..m], vs[idx := vs[m]][..m])
      <==> OrderSafe(scopes, fp, idx, a, Off(stack[m].val), h[a].head)
  {
    hide Kept, Off, OrderSafe;
    BumpOrderedIff(scopes, fp, idx, a, Off(stack[|stack| - 1].val), h[a].head);
    if Storable(h, a, scopes, fp, idx, stack[|stack| - 1]) {
      GuardStore(h, a, z, scopes, stack, vs, fp, idx);
    }
  }

  /** After an unsafe store some outer boundary lies above an inner one. */
  lemma UnsafeStoreCrosses(scopes: seq<Scope>, fp: int, idx: int, a: int, off: int, head: int) returns (j: nat, k: nat)
    requires Ordered(scopes) && forall k :: 0 <= k < |scopes| ==> scopes[k].arena == a && scopes[k].head <= head
    requires !OrderSafe(scopes, fp, idx, a, off, head)
    ensures j < k < |scopes|
    ensures var bs := BumpAll(scopes, fp, idx, a, off, head);
      bs[k] == scopes[k] && bs[k].head < bs[j].head == head && scopes[j].head <= off < scopes[k].head
  {
    var o :| 0 <= o < |scopes| && Outlived(scopes[o], fp, idx, a) && scopes[o].head <= off;
    var i :| 0 <= i < |scopes| && Outlived(scopes[i], fp, idx, a) && off < scopes[i].head && scopes[i].head != head;
    j, k := o, i;
  }

  /** And then memory is lost: once the inner scope is left the head is below the outer boundary, and
      an array allocated across that boundary is cut in two when the outer scope is left. */
  lemma CrossedCuts(h: Heap, a: int, inner: int, outer: int, cells: seq<Cell>, kids: seq<Value>)
    requires ValidHeap(h) && 0 <= a < MAX_ARENAS && h[a].active && 0 <= inner < outer < MAX_HEAP
    requires Room(WithHead(h, a, inner), a, 2 + |cells|) && outer < inner + 2 + |cells| && |kids| == |cells|
    ensures var h1 := WithHead(h, a, inner);
      var p := Pack(h1[a].gen, a, inner);
      var h2 := Append(h1, a, ArrayBlock(h1, a, cells));
      Off(p) < outer < h2[a].head && !Rep(WithHead(h2, a, outer), NoGap(), Cell(p, T_OBJ), Node(TYPE_ARRAY, kids))
  {
    hide Off, Region, Gen, Pack, ArrayBlock;
    PackRoundTrip(h[a].gen, a, inner);
  }
}
