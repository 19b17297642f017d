/** How long a stale pointer stays rejected: the generation of a region cycles through 1 .. 16383
    (src/defines.h:82-96; src/vm.c:277-326, 469-501). */
module Generations {
  import opened Defines
  import opened Arenas
  import opened Machine

  const PERIOD: nat := GEN_SPAN - 1

  /** init_arena and free_arena on one region. */
  datatype Event = Init | Free

  ghost function Applied(h: Heap, a: int, e: Event): (r: Heap)
    requires ValidHeap(h) && 0 <= a < MAX_ARENAS
    ensures ValidHeap(r)
  {
    match e
    case Init => if h[a].active then h[a := h[a].(gen := NextGen(h[a].gen), head := 0)] else Opened(h, a)
    case Free => h[a := Arena([], 0, false, h[a].gen)]
  }

  ghost function AppliedAll(h: Heap, a: int, es: seq<Event>): (r: Heap)
    requires ValidHeap(h) && 0 <= a < MAX_ARENAS
    ensures ValidHeap(r)
    decreases |es|
  {
    if es == [] then h else AppliedAll(Applied(h, a, es[0]), a, es[1..])
  }

  function Inits(es: seq<Event>): nat {
    if es == [] then 0 else (if es[0].Init? then 1 else 0) + Inits(es[1..])
  }

  /** The region is open after the events. */
  predicate OpenAfter(was: bool, es: seq<Event>) {
    if es == [] then was else es[|es| - 1].Init?
  }

  /** The generation after `k` initialisations of a region that was live at generation `g`. */
  function GenAfter(g: int, k: nat): int
    decreases k
  {
    if k == 0 then g else GenAfter(NextGen(g), k - 1)
  }

  lemma {:induction false} GenCycle(g: int, k: nat)
    requires 1 <= g < GEN_SPAN
    ensures GenAfter(g, k) == 1 + (g - 1 + k) % PERIOD
    decreases k
  {
    if k > 0 {
      GenCycle(NextGen(g), k - 1);
      if g == PERIOD {
        assert (g - 1 + k) == (k - 1) + PERIOD;
        WrapOnce(k - 1);
      }
    }
  }

  lemma WrapOnce(n: int)
    ensures (n + PERIOD) % PERIOD == n % PERIOD
  {
    var q, r := n / PERIOD, n % PERIOD;
    assert n + PERIOD == (q + 1) * PERIOD + r;
  }

  /** The generation comes back to where it was after exactly 16383 initialisations, and not before. */
  lemma GenReturns(g: int, k: nat)
    requires 1 <= g < GEN_SPAN
    ensures GenAfter(g, k) == g <==> k % PERIOD == 0
  {
    GenCycle(g, k);
    var q, r := k / PERIOD, k % PERIOD;
    assert g - 1 + k == q * PERIOD + (g - 1 + r);
    Remainder(q, g - 1 + r);
    if g - 1 + r >= PERIOD {
      Remainder(1, g - 1 + r - PERIOD);
    }
  }

  lemma Remainder(q: nat, x: nat)
    requires x < 2 * PERIOD
    ensures (q * PERIOD + x) % PERIOD == if x < PERIOD then x else x - PERIOD
    decreases q
  {
    if q > 0 {
      Remainder(q - 1, x);
      assert q * PERIOD + x == ((q - 1) * PERIOD + x) + PERIOD;
      WrapOnce((q - 1) * PERIOD + x);
    }
  }

  lemma {:induction false} AppliedState(h: Heap, a: int, es: seq<Event>)
    requires ValidHeap(h) && 0 <= a < MAX_ARENAS
    ensures var r := AppliedAll(h, a, es)[a];
      r.gen == GenAfter(h[a].gen, Inits(es)) && r.active == OpenAfter(h[a].active, es)
    decreases |es|
  {
    if es != [] {
      var h1 := Applied(h, a, es[0]);
      AppliedState(h1, a, es[1..]);
      if |es| > 1 { assert es[1..][|es| - 2] == es[|es| - 1]; }
    }
  }

  /** A pointer that resolves now resolves after any frees and initialisations of its region exactly
      when the region is then open and the number of initialisations is a multiple of 16383. */
  lemma PointerLife(h: Heap, p: int, es: seq<Event>)
    requires ValidHeap(h) && Live(h, p)
    ensures Live(AppliedAll(h, Region(p), es), p) <==> OpenAfter(true, es) && Inits(es) % PERIOD == 0
  {
    hide Region, Gen, Off;
    AppliedState(h, Region(p), es);
    GenReturns(h[Region(p)].gen, Inits(es));
  }

  /** So a pointer minted before a free is rejected while the region is free, and through the next
      16382 initialisations. */
  lemma StaleRejected(h: Heap, p: int, es: seq<Event>)
    requires ValidHeap(h) && Live(h, p) && es != [] && es[0].Free?
    requires Inits(es) < PERIOD
    ensures !Live(AppliedAll(h, Region(p), es), p)
  {
    hide Region, Gen, Off, AppliedAll, Live;
    PointerLife(h, p, es);
    if Inits(es) == 0 { NoInits(es); }
  }

  lemma {:induction false} NoInits(es: seq<Event>)
    requires Inits(es) == 0 && es != []
    ensures es[|es| - 1].Free?
    decreases |es|
  {
    if |es| > 1 {
      NoInits(es[1..]);
      assert es[1..][|es| - 2] == es[|es| - 1];
    }
  }
}
