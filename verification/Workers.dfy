/** Handing a region to a worker thread and taking it back (src/mylolib.c:213-269, 274-375, 379-413;
    src/vm.c:277-326). The threads interleave at the steps below; each keeps the invariant, so the
    results hold for every interleaving. */
module Workers {
  import opened Defines
  import opened Arenas
  import opened Machine

  const MAX_WORKERS: nat := 128

  /** A MemoryArena of the main machine: `block` is its memory pointer. */
  datatype Slot = Slot(block: Option<nat>, head: int, active: bool, gen: int)

  /** A worker: `arena` travels between the threads; `held` is the region inside the worker's own
      machine while it runs. */
  datatype Worker = Worker(active: bool, loaded: bool, complete: bool, region: nat, arena: Slot, held: Slot)

  // ---- The invariant ----

  /** All that matters to ownership; `origins[k]` is the slot that worker `k` was created from. */
  datatype Table = Table(regions: seq<Slot>, workers: seq<Worker>, blocks: set<nat>, origins: map<nat, Slot>)

  datatype Owner = Main(region: nat) | Thread(worker: nat)

  ghost predicate Owns(t: Table, o: Owner, b: nat) {
    match o
    case Main(i) => i < |t.regions| && t.regions[i].block == Some(b)
    case Thread(k) => k < |t.workers| && t.workers[k].active && t.workers[k].arena.block == Some(b)
  }

  ghost predicate Sized(t: Table) {
    |t.regions| == MAX_ARENAS && |t.workers| == MAX_WORKERS
  }

  /** A worker's region is its alone, and goes back under the pointer fields it came with. */
  ghost predicate WorkerOk(t: Table, k: nat)
    requires Sized(t) && k < MAX_WORKERS
  {
    var w := t.workers[k];
    w.active ==>
      && 0 < w.region < MAX_ARENAS
      && t.regions[w.region].active && t.regions[w.region].block.None? && t.regions[w.region].gen == w.arena.gen
      && w.arena.block.Some? && w.arena.block.value in t.blocks
      && (w.loaded ==> w.held.block == w.arena.block && w.held.gen == w.arena.gen && !w.complete)
      && k in t.origins && t.origins[k].block == w.arena.block && t.origins[k].gen == w.arena.gen && t.origins[k].active
  }

  ghost predicate RegionOk(t: Table, i: nat)
    requires Sized(t) && i < MAX_ARENAS
  {
    t.regions[i].block.Some? ==> t.regions[i].active && t.regions[i].block.value in t.blocks
  }

  /** No two regions, no two workers, and no region and worker share a block; workers have different regions. */
  ghost predicate Exclusive(t: Table)
    requires Sized(t)
  {
    && (forall i, j :: 0 <= i < j < MAX_ARENAS && t.regions[i].block.Some? ==> t.regions[i].block != t.regions[j].block)
    && (forall j, k :: 0 <= j < k < MAX_WORKERS && t.workers[j].active && t.workers[k].active ==>
          t.workers[j].arena.block != t.workers[k].arena.block && t.workers[j].region != t.workers[k].region)
    && (forall i, k :: 0 <= i < MAX_ARENAS && 0 <= k < MAX_WORKERS && t.regions[i].block.Some? && t.workers[k].active ==>
          t.regions[i].block != t.workers[k].arena.block)
  }

  ghost predicate Covered(t: Table) {
    forall b :: b in t.blocks ==> exists o :: Owns(t, o, b)
  }

  ghost predicate Sound(t: Table) {
    && Sized(t) && Exclusive(t) && Covered(t)
    && (forall k :: 0 <= k < MAX_WORKERS ==> WorkerOk(t, k))
    && (forall i :: 0 <= i < MAX_ARENAS ==> RegionOk(t, i))
  }

  /** Every block has exactly one owner. */
  lemma OneOwner(t: Table, b: nat) returns (o: Owner)
    requires Sound(t) && b in t.blocks
    ensures Owns(t, o, b) && forall o' :: Owns(t, o', b) ==> o' == o
  {
    o :| Owns(t, o, b);
    var oo := o;
    forall o' | Owns(t, o', b) ensures o' == oo {
      SameOwner(t, b, oo, o');
    }
  }

  lemma SameOwner(t: Table, b: nat, o: Owner, o': Owner)
    requires Sound(t) && Owns(t, o, b) && Owns(t, o', b)
    ensures o == o'
  {
    hide Covered, WorkerOk, RegionOk;
    match (o, o')
    case (Main(i), Main(j)) =>
    case (Thread(j), Thread(k)) =>
    case (_, _) =>
  }

  // ---- The steps ----

  function Created(t: Table, slot: nat, region: nat): Table
    requires Sized(t) && slot < MAX_WORKERS && region < MAX_ARENAS
  {
    var arena := t.regions[region];
    t.(workers := t.workers[slot := Worker(true, false, false, region, arena, arena.(block := None))],
       regions := t.regions[region := arena.(block := None)], origins := t.origins[slot := arena])
  }

  lemma CreatedSound(t: Table, slot: nat, region: nat)
    requires Sound(t) && slot < MAX_WORKERS && !t.workers[slot].active
    requires 0 < region < MAX_ARENAS && t.regions[region].block.Some?
    ensures Sound(Created(t, slot, region))
  {
    var t', b := Created(t, slot, region), t.regions[region].block.value;
    HandedOver(t, t', b, Thread(slot));
    assert RegionOk(t, region);
    forall k | 0 <= k < MAX_WORKERS
      ensures WorkerOk(t', k) && (t.workers[k].active ==> t.workers[k].region != region && t.workers[k].arena.block != Some(b))
    {
      assert WorkerOk(t, k);
    }
    forall i | 0 <= i < MAX_ARENAS ensures RegionOk(t', i) {
      assert RegionOk(t, i);
    }
  }

  /** Only the owner of one block changes. */
  lemma HandedOver(t: Table, t': Table, b: nat, to: Owner)
    requires Covered(t) && t'.blocks == t.blocks && Owns(t', to, b)
    requires forall o, c :: c != b && Owns(t, o, c) ==> Owns(t', o, c)
    ensures Covered(t')
  {
    forall c | c in t'.blocks ensures exists o :: Owns(t', o, c) {
      if c != b {
        var o :| Owns(t, o, c);
        assert Owns(t', o, c);
      }
    }
  }

  /** A worker's own steps: its block, region and generation stay what they are. */
  lemma StepSound(t: Table, k: nat, w: Worker)
    requires Sound(t) && k < MAX_WORKERS && t.workers[k].active
    requires w.active && w.region == t.workers[k].region
    requires w.arena.block == t.workers[k].arena.block && w.arena.gen == t.workers[k].arena.gen
    requires w.loaded ==> w.held.block == w.arena.block && w.held.gen == w.arena.gen && !w.complete
    ensures Sound(t.(workers := t.workers[k := w]))
  {
    var t' := t.(workers := t.workers[k := w]);
    assert WorkerOk(t, k);
    HandedOver(t, t', w.arena.block.value, Thread(k));
    forall j | 0 <= j < MAX_WORKERS ensures WorkerOk(t', j) {
      assert WorkerOk(t, j);
    }
    forall i | 0 <= i < MAX_ARENAS ensures RegionOk(t', i) {
      assert RegionOk(t, i);
    }
  }

  function Docked(t: Table, k: nat): Table
    requires Sized(t) && k < MAX_WORKERS && t.workers[k].region < MAX_ARENAS
  {
    var w := t.workers[k];
    t.(regions := t.regions[w.region := w.arena.(active := true)], workers := t.workers[k := w.(active := false)])
  }

  lemma DockedSound(t: Table, k: nat)
    requires Sound(t) && k < MAX_WORKERS && t.workers[k].active
    ensures t.workers[k].region < MAX_ARENAS && Sound(Docked(t, k))
    ensures var w := t.workers[k];
      k in t.origins && w.arena.block == t.origins[k].block && w.arena.gen == t.origins[k].gen && t.origins[k].active
  {
    assert WorkerOk(t, k);
    var t', w := Docked(t, k), t.workers[k];
    HandedOver(t, t', w.arena.block.value, Main(w.region));
    forall j | 0 <= j < MAX_WORKERS ensures WorkerOk(t', j) {
      assert WorkerOk(t, j);
    }
    forall i | 0 <= i < MAX_ARENAS ensures RegionOk(t', i) {
      assert RegionOk(t, i);
    }
    DockedExclusive(t, k);
  }

  lemma DockedExclusive(t: Table, k: nat)
    requires Sized(t) && Exclusive(t) && k < MAX_WORKERS && t.workers[k].active && t.workers[k].region < MAX_ARENAS
    requires t.workers[k].arena.block.Some?
    ensures Exclusive(Docked(t, k))
  {
  }

  function Reopened(t: Table, id: nat, b: nat): Table
    requires Sized(t) && id < MAX_ARENAS
  {
    t.(regions := t.regions[id := Slot(Some(b), 0, true, NextGen(t.regions[id].gen))], blocks := t.blocks + {b})
  }

  lemma ReopenedSound(t: Table, id: nat, b: nat)
    requires Sound(t) && id < MAX_ARENAS && !t.regions[id].active && b !in t.blocks
    ensures Sound(Reopened(t, id, b))
    ensures forall k :: 0 <= k < MAX_WORKERS && t.workers[k].active ==> t.workers[k].region != id
  {
    var t' := Reopened(t, id, b);
    assert RegionOk(t, id);
    forall k | 0 <= k < MAX_WORKERS
      ensures WorkerOk(t', k) && (t.workers[k].active ==> t.workers[k].region != id && t.workers[k].arena.block != Some(b))
    {
      assert WorkerOk(t, k);
    }
    forall i | 0 <= i < MAX_ARENAS ensures RegionOk(t', i) && t.regions[i].block != Some(b) {
      assert RegionOk(t, i);
    }
    forall c | c in t'.blocks ensures exists o :: Owns(t', o, c) {
      if c == b {
        assert Owns(t', Main(id), c);
      } else {
        var o :| Owns(t, o, c);
        assert Owns(t', o, c);
      }
    }
  }

  function Freed(t: Table, id: nat): Table
    requires Sized(t) && id < MAX_ARENAS && t.regions[id].block.Some?
  {
    t.(regions := t.regions[id := Slot(None, 0, false, t.regions[id].gen)], blocks := t.blocks - {t.regions[id].block.value})
  }

  lemma FreedSound(t: Table, id: nat)
    requires Sound(t) && id < MAX_ARENAS && t.regions[id].block.Some?
    ensures Sound(Freed(t, id))
  {
    var t', b := Freed(t, id), t.regions[id].block.value;
    forall k | 0 <= k < MAX_WORKERS ensures WorkerOk(t', k) {
      assert WorkerOk(t, k);
    }
    forall i | 0 <= i < MAX_ARENAS ensures RegionOk(t', i) {
      assert RegionOk(t, i);
      assert i != id ==> t.regions[i].block != Some(b);
    }
    forall c | c in t'.blocks ensures exists o :: Owns(t', o, c) {
      var o :| Owns(t, o, c);
      assert Owns(t', o, c);
    }
  }

  /** free_arena: the region's memory, if it has any, is freed and the slot closed. */
  function Cleared(t: Table, id: nat): Table
    requires Sized(t) && id < MAX_ARENAS
  {
    var r := t.regions[id];
    t.(regions := t.regions[id := Slot(None, 0, false, r.gen)],
       blocks := if r.block.Some? then t.blocks - {r.block.value} else t.blocks)
  }

  /** Clearing keeps the invariant exactly when no worker has the region. */
  lemma ClearedSoundIff(t: Table, id: nat)
    requires Sound(t) && id < MAX_ARENAS
    ensures Sound(Cleared(t, id)) <==> forall k :: 0 <= k < MAX_WORKERS && t.workers[k].active ==> t.workers[k].region != id
  {
    if k: nat :| 0 <= k < MAX_WORKERS && t.workers[k].active && t.workers[k].region == id {
      assert !WorkerOk(Cleared(t, id), k);
    } else if t.regions[id].block.Some? {
      assert RegionOk(t, id);
      FreedSound(t, id);
    } else {
      ClosedSound(t, id);
    }
  }

  lemma ClosedSound(t: Table, id: nat)
    requires Sound(t) && id < MAX_ARENAS && t.regions[id].block.None?
    requires forall k :: 0 <= k < MAX_WORKERS && t.workers[k].active ==> t.workers[k].region != id
    ensures Sound(Cleared(t, id))
  {
    var t' := Cleared(t, id);
    forall k | 0 <= k < MAX_WORKERS ensures WorkerOk(t', k) {
      assert WorkerOk(t, k);
    }
    forall i | 0 <= i < MAX_ARENAS ensures RegionOk(t', i) {
      assert RegionOk(t, i);
    }
    forall c | c in t'.blocks ensures exists o :: Owns(t', o, c) {
      var o :| Owns(t, o, c);
      assert Owns(t', o, c);
    }
  }

  /** What clearing a region that a worker has leads to: its slot is given to a new region, and docking
      the worker then leaves the new block without an owner. */
  lemma ClearedLoses(t: Table, k: nat, b: nat)
    requires Sound(t) && k < MAX_WORKERS && t.workers[k].active && b !in t.blocks
    ensures var id := t.workers[k].region;
      && id < MAX_ARENAS && !Sound(Cleared(t, id))
      && var t3 := Docked(Reopened(Cleared(t, id), id, b), k);
        b in t3.blocks && forall o :: !Owns(t3, o, b)
  {
    assert WorkerOk(t, k);
    ClearedSoundIff(t, t.workers[k].region);
    var id := t.workers[k].region;
    var t3 := Docked(Reopened(Cleared(t, id), id, b), k);
    forall o ensures !Owns(t3, o, b) {
      match o
      case Main(i) => if i < MAX_ARENAS { assert RegionOk(t, i); }
      case Thread(j) => if j < MAX_WORKERS { assert WorkerOk(t, j); }
    }
  }

  /** The same instruction inside the worker frees the block that its record still names. */
  function ClearedInside(t: Table, k: nat): Table
    requires Sized(t) && k < MAX_WORKERS && t.workers[k].held.block.Some?
  {
    var w := t.workers[k];
    t.(workers := t.workers[k := w.(held := Slot(None, 0, false, w.held.gen))], blocks := t.blocks - {w.held.block.value})
  }

  lemma ClearedInsideUnsound(t: Table, k: nat)
    requires Sound(t) && k < MAX_WORKERS && t.workers[k].active && t.workers[k].loaded
    ensures t.workers[k].held.block.Some? && !Sound(ClearedInside(t, k))
  {
    assert WorkerOk(t, k);
    assert !WorkerOk(ClearedInside(t, k), k);
  }

  /** The cells a pointer leads to when its region is in the given slot. */
  function ResolvedIn(s: Slot, p: int): Option<(nat, int)> {
    if p >= 0 && s.active && s.gen == Gen(p) && Off(p) < MAX_HEAP && s.block.Some? then Some((s.block.value, Off(p))) else None
  }

  // ---- The threads ----

  class Exchange {
    const regions: array<Slot>
    const workers: array<Worker>
    /** The allocated memory blocks and their cells. */
    var blocks: map<nat, seq<Cell>>
    ghost var origins: map<nat, Slot>

    ghost function View(): Table
      reads this, regions, workers
    {
      Table(regions[..], workers[..], blocks.Keys, origins)
    }

    ghost predicate Valid()
      reads this, regions, workers
    {
      Sound(View())
    }

    function Resolve(p: int): Option<(nat, int)>
      requires regions.Length == MAX_ARENAS
      reads regions
    {
      ResolvedIn(regions[Region(p)], p)
    }

    /** std_create_worker, on a region that the main machine holds; -1 when all slots are taken. */
    method CreateWorker(region: nat) returns (slot: int)
      requires Valid() && 0 < region < MAX_ARENAS && regions[region].block.Some?
      modifies `origins, regions, workers
      ensures Valid() && -1 <= slot < MAX_WORKERS
      ensures slot == -1 <==> forall k :: 0 <= k < MAX_WORKERS ==> old(workers[k].active)
      ensures slot == -1 ==> View() == old(View())
      ensures slot >= 0 ==> !old(View()).workers[slot].active && View() == Created(old(View()), slot, region)
      ensures slot >= 0 ==>
        && (forall k :: 0 <= k < slot ==> old(workers[k].active))
        && workers[slot].active && !workers[slot].complete && workers[slot].region == region
        && workers[slot].arena == old(regions[region]) && slot in origins && origins[slot] == old(regions[region])
        && regions[region].block.None? && regions[region].active && regions[region].gen == old(regions[region].gen)
        && (forall k :: 0 <= k < MAX_WORKERS && k != slot ==> workers[k] == old(workers[k]))
        && forall i :: 0 <= i < MAX_ARENAS && i != region ==> regions[i] == old(regions[i])
    {
      hide Sound;
      SoundSize(View());
      slot := 0;
      while slot < MAX_WORKERS && workers[slot].active
        invariant 0 <= slot <= MAX_WORKERS && forall k :: 0 <= k < slot ==> workers[k].active
      {
        slot := slot + 1;
      }
      if slot == MAX_WORKERS {
        return -1;
      }
      CreatedSound(View(), slot, region);
      RegionActive(View(), region);
      var arena := regions[region];
      workers[slot] := Worker(true, false, false, region, arena, arena.(block := None));
      regions[region] := arena.(block := None);
      origins := origins[slot := arena];
      assert View() == Created(old(View()), slot, region);
    }

    lemma RegionActive(t: Table, i: nat)
      requires Sound(t) && i < MAX_ARENAS && t.regions[i].block.Some?
      ensures t.regions[i].active
    {
      assert RegionOk(t, i);
    }

    lemma SoundSize(t: Table)
      requires Sound(t)
      ensures Sized(t)
    {
    }

    /** mylo_worker_entry takes the region into its own machine, in the same slot. */
    method StartWorker(k: nat)
      requires Valid() && k < MAX_WORKERS && workers[k].active && !workers[k].complete && !workers[k].loaded
      modifies workers
      ensures Valid() && workers[..] == old(workers[..])[k := old(workers[k]).(loaded := true, held := old(workers[k]).arena)]
    {
      hide Sound;
      SoundSize(View());
      var w := workers[k].(loaded := true, held := workers[k].arena);
      StepSound(View(), k, w);
      workers[k] := w;
      assert View() == old(View()).(workers := old(View()).workers[k := w]);
    }

    /** The worker's program allocates and writes in its region. */
    method WorkerRun(k: nat, head: int, cells: seq<Cell>)
      requires Valid() && k < MAX_WORKERS && workers[k].active && workers[k].loaded && workers[k].arena.block.Some?
      modifies workers, `blocks
      ensures Valid() && workers[..] == old(workers[..])[k := old(workers[k]).(held := old(workers[k]).held.(head := head))]
      ensures blocks == old(blocks)[old(workers[k]).arena.block.value := cells]
    {
      hide Sound;
      SoundSize(View());
      LoadedOk(View(), k);
      var w := workers[k].(held := workers[k].held.(head := head));
      StepSound(View(), k, w);
      blocks := blocks[workers[k].arena.block.value := cells];
      workers[k] := w;
      assert blocks.Keys == old(blocks).Keys;
      assert View() == old(View()).(workers := old(View()).workers[k := w]);
    }

    lemma LoadedOk(t: Table, k: nat)
      requires Sound(t) && k < MAX_WORKERS && t.workers[k].active
      ensures t.workers[k].arena.block.Some? && t.workers[k].arena.block.value in t.blocks
      ensures var w := t.workers[k];
        w.loaded ==> w.held.block == w.arena.block && w.held.gen == w.arena.gen && !w.complete
    {
      assert WorkerOk(t, k);
    }

    /** The end of mylo_worker_entry: the region's state is taken out of the worker's machine, so that
        cleaning it up does not free the block. */
    method CompleteWorker(k: nat)
      requires Valid() && k < MAX_WORKERS && workers[k].active && workers[k].loaded
      modifies workers
      ensures Valid()
      ensures var w := old(workers[k]);
        workers[..] == old(workers[..])[k := w.(arena := w.held, held := w.held.(block := None), loaded := false, complete := true)]
    {
      hide Sound;
      SoundSize(View());
      LoadedOk(View(), k);
      var w := workers[k];
      w := w.(arena := w.held, held := w.held.(block := None), loaded := false, complete := true);
      StepSound(View(), k, w);
      workers[k] := w;
      assert View() == old(View()).(workers := old(View()).workers[k := w]);
    }

    /** std_dock_worker, once the thread has ended: the region is back where it was, under the same
        generation and with the same block, so every pointer minted before the worker was created
        resolves to the same cells. */
    method DockWorker(k: nat)
      requires Valid() && k < MAX_WORKERS && workers[k].active && workers[k].complete
      modifies regions, workers
      ensures Valid() && old(workers[k]).region < MAX_ARENAS && View() == Docked(old(View()), k)
      ensures var w := old(workers[k]);
        && regions[w.region].block == w.arena.block && regions[w.region].head == w.arena.head && regions[w.region].active
        && regions[w.region].gen == w.arena.gen && !workers[k].active
        && (forall j :: 0 <= j < MAX_WORKERS && j != k ==> workers[j] == old(workers[j]))
        && forall i :: 0 <= i < MAX_ARENAS && i != w.region ==> regions[i] == old(regions[i])
      ensures k in old(origins) && forall p: int :: Region(p) == old(workers[k]).region ==> Resolve(p) == ResolvedIn(old(origins)[k], p)
    {
      hide Sound;
      SoundSize(View());
      DockedSound(View(), k);
      var w := workers[k];
      regions[w.region] := w.arena.(active := true);
      workers[k] := w.(active := false);
      assert View() == Docked(old(View()), k);
    }

    /** OP_NEW_ARENA: a handed-over region still counts as active, so its slot is not reused. */
    method NewRegion(b: nat, cells: seq<Cell>) returns (id: int)
      requires Valid() && b !in blocks
      modifies regions, `blocks
      ensures Valid() && (id == -1 || 0 < id < MAX_ARENAS)
      ensures id == -1 <==> forall i :: 0 < i < MAX_ARENAS ==> old(regions[i].active)
      ensures id == -1 ==> View() == old(View())
      ensures id > 0 ==>
        && (forall i :: 0 < i < id ==> old(regions[i].active))
        && regions[id].block == Some(b) && regions[id].head == 0 && regions[id].active
        && (forall i :: 0 <= i < MAX_ARENAS && i != id ==> regions[i] == old(regions[i])) && workers[..] == old(workers[..])
      ensures id > 0 ==>
        && !old(View()).regions[id].active && View() == Reopened(old(View()), id, b) && blocks == old(blocks)[b := cells]
        && forall k :: 0 <= k < MAX_WORKERS && workers[k].active ==> workers[k].region != id
    {
      hide Sound;
      SoundSize(View());
      id := 1;
      while id < MAX_ARENAS && regions[id].active
        invariant 1 <= id <= MAX_ARENAS && forall i :: 0 < i < id ==> regions[i].active
      {
        id := id + 1;
      }
      if id == MAX_ARENAS {
        return -1;
      }
      ReopenedSound(View(), id, b);
      regions[id] := Slot(Some(b), 0, true, NextGen(regions[id].gen));
      blocks := blocks[b := cells];
      assert blocks.Keys == old(blocks).Keys + {b};
      assert View() == Reopened(old(View()), id, b);
    }

    /** free_arena. */
    method FreeRegion(id: nat)
      requires Valid() && id < MAX_ARENAS
      modifies regions, `blocks
      ensures View() == Cleared(old(View()), id)
      ensures regions[id].block.None? && !regions[id].active && regions[id].gen == old(regions[id].gen) && workers[..] == old(workers[..])
      ensures forall i :: 0 <= i < MAX_ARENAS && i != id ==> regions[i] == old(regions[i])
      ensures forall b :: b in blocks <==> b in old(blocks) && Some(b) != old(regions[id].block)
      ensures forall b :: b in blocks ==> blocks[b] == old(blocks)[b]
      ensures Valid() <==> forall k :: 0 <= k < MAX_WORKERS && workers[k].active ==> workers[k].region != id
    {
      hide Sound;
      SoundSize(View());
      ClearedSoundIff(View(), id);
      if regions[id].block.Some? {
        blocks := blocks - {regions[id].block.value};
      }
      regions[id] := Slot(None, 0, false, regions[id].gen);
      assert View() == Cleared(old(View()), id);
    }
  }
}
