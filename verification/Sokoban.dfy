/** The Sokoban program written in Mylo: a grid of cell codes updated in place, against the game it
    stands for (examples/sokoban.mylo:61-73, 107-186). */
module Sokoban {
  const EMPTY := 0
  const WALL := 1
  const BOX := 2
  const GOAL := 3
  const BOX_ON_GOAL := 4
  const PLAYER := 5
  const PLAYER_ON_GOAL := 6

  type Pos = (int, int)

  // ---- The game ----

  /** What stays (walls, goals) and what moves (boxes, player). */
  datatype World = World(width: int, height: int, walls: set<Pos>, goals: set<Pos>, boxes: set<Pos>, player: Pos,
                         steps: int, complete: bool)

  predicate Blocked(w: World, p: Pos) {
    p in w.walls || !(0 <= p.0 < w.width && 0 <= p.1 < w.height)
  }

  function Shift(p: Pos, dx: int, dy: int): Pos {
    (p.0 + dx, p.1 + dy)
  }

  predicate CanMove(w: World, dx: int, dy: int) {
    var next := Shift(w.player, dx, dy);
    var far := Shift(next, dx, dy);
    && !w.complete && !Blocked(w, next)
    && (next in w.boxes ==> !Blocked(w, far) && far !in w.boxes)
  }

  /** One move: a box in the way is pushed; the level is complete once every box is on a goal. */
  function Moved(w: World, dx: int, dy: int): World {
    if !CanMove(w, dx, dy) then w
    else
      var next := Shift(w.player, dx, dy);
      var boxes := if next in w.boxes then w.boxes - {next} + {Shift(next, dx, dy)} else w.boxes;
      w.(player := next, boxes := boxes, steps := w.steps + 1, complete := boxes <= w.goals)
  }

  function Play(w: World, moves: seq<(int, int)>): World
    decreases |moves|
  {
    if moves == [] then w else Play(Moved(w, moves[0].0, moves[0].1), moves[1..])
  }

  /** The number of moves that succeed. */
  function Successes(w: World, moves: seq<(int, int)>): nat
    decreases |moves|
  {
    if moves == [] then 0
    else (if CanMove(w, moves[0].0, moves[0].1) then 1 else 0) + Successes(Moved(w, moves[0].0, moves[0].1), moves[1..])
  }

  ghost predicate Proper(w: World) {
    && w.walls !! w.goals && w.walls !! w.boxes && w.player !in w.walls && w.player !in w.boxes
    && !(Blocked(w, w.player)) && (forall p <- w.boxes :: !Blocked(w, p)) && (forall p <- w.goals :: !Blocked(w, p))
  }

  predicate UnitSteps(moves: seq<(int, int)>) {
    forall m <- moves :: m in [(0, -1), (0, 1), (-1, 0), (1, 0)]
  }

  lemma BlockedStays(w: World, dx: int, dy: int)
    requires !CanMove(w, dx, dy)
    ensures Moved(w, dx, dy) == w
  {
  }

  lemma CompleteBlocks(w: World, dx: int, dy: int)
    requires w.complete
    ensures !CanMove(w, dx, dy)
  {
  }

  lemma MovedProper(w: World, dx: int, dy: int)
    requires Proper(w) && (dx != 0 || dy != 0)
    ensures Proper(Moved(w, dx, dy)) && |Moved(w, dx, dy).boxes| == |w.boxes|
  {
    var next := Shift(w.player, dx, dy);
    if CanMove(w, dx, dy) && next in w.boxes {
      var far := Shift(next, dx, dy);
      assert |w.boxes - {next}| == |w.boxes| - 1;
      assert |w.boxes - {next} + {far}| == |w.boxes|;
    }
  }

  /** Over every sequence of moves nothing is lost: walls and goals stay put, the boxes keep their
      number, there is one player, and `steps` counts the moves that succeeded. */
  lemma {:induction false} PlayConserves(w: World, moves: seq<(int, int)>)
    requires Proper(w) && UnitSteps(moves)
    ensures var z := Play(w, moves);
      && Proper(z) && z.width == w.width && z.height == w.height && z.walls == w.walls && z.goals == w.goals
      && |z.boxes| == |w.boxes| && z.steps == w.steps + Successes(w, moves)
    decreases |moves|
  {
    if moves != [] {
      var m := moves[0];
      assert m in moves;
      MovedProper(w, m.0, m.1);
      assert UnitSteps(moves[1..]);
      PlayConserves(Moved(w, m.0, m.1), moves[1..]);
    }
  }

  /** Completion freezes the game, and comes only with every box on a goal. */
  lemma {:induction false} PlayFrozen(w: World, moves: seq<(int, int)>)
    ensures w.complete ==> Play(w, moves) == w
    ensures (w.complete ==> w.boxes <= w.goals) ==> (Play(w, moves).complete ==> Play(w, moves).boxes <= Play(w, moves).goals)
    decreases |moves|
  {
    if moves != [] {
      PlayFrozen(Moved(w, moves[0].0, moves[0].1), moves[1..]);
    }
  }

  // ---- The cells ----

  /** Cell codes by position. */
  type Cells = map<Pos, int>

  ghost function At(c: Cells, p: Pos): int {
    if p in c then c[p] else WALL
  }

  ghost function Where(c: Cells, codes: set<int>): set<Pos> {
    set p | p in c && c[p] in codes
  }

  /** The game that the cells stand for. */
  ghost function Abstract(w: int, h: int, c: Cells, player: Pos, steps: int, complete: bool): World {
    World(w, h, Where(c, {WALL}), Where(c, {GOAL, BOX_ON_GOAL, PLAYER_ON_GOAL}), Where(c, {BOX, BOX_ON_GOAL}), player, steps, complete)
  }

  /** Known codes, and the one player cell at the recorded coordinates. */
  ghost predicate Coded(w: int, h: int, c: Cells, player: Pos) {
    && (forall p :: p in c <==> 0 <= p.0 < w && 0 <= p.1 < h)
    && (forall p :: p in c ==> EMPTY <= c[p] <= PLAYER_ON_GOAL && (c[p] >= PLAYER <==> p == player))
    && player in c
  }

  ghost predicate Boxed(code: int) {
    code == BOX || code == BOX_ON_GOAL
  }

  /** The cells after a push of the box at `next` to `far`: the box's cell is left to the player. */
  ghost function Pushed(c: Cells, far: Pos): Cells {
    c[far := if At(c, far) == EMPTY then BOX else BOX_ON_GOAL]
  }

  ghost function Floor(code: int): int {
    if code == BOX || code == PLAYER || code == EMPTY then EMPTY else GOAL
  }

  /** The cells after the player steps from `from` to `next`, whose cell held `code`. */
  ghost function Stepped(c: Cells, from: Pos, next: Pos, code: int): Cells {
    c[from := Floor(At(c, from))][next := if Floor(code) == EMPTY then PLAYER else PLAYER_ON_GOAL]
  }

  /** Coded cells always stand for a proper game, so the results about runs apply to them. */
  lemma CodedProper(w: int, h: int, c: Cells, player: Pos, steps: int, complete: bool)
    requires Coded(w, h, c, player)
    ensures Proper(Abstract(w, h, c, player, steps, complete))
  {
    assert player in c;
  }

  lemma MoveCases(w: int, h: int, c: Cells, player: Pos, steps: int, dx: int, dy: int)
    requires Coded(w, h, c, player) && (dx != 0 || dy != 0)
    ensures var a, next := Abstract(w, h, c, player, steps, false), Shift(player, dx, dy);
      var far := Shift(next, dx, dy);
      && (CanMove(a, dx, dy) <==>
            At(c, next) != WALL && (Boxed(At(c, next)) ==> At(c, far) != WALL && !Boxed(At(c, far))))
      && next != player && far != next && far != player
  {
  }

  /** The cells involved in a possible move. */
  lemma PlayerCells(w: int, h: int, c: Cells, player: Pos, steps: int, dx: int, dy: int)
    requires Coded(w, h, c, player) && (dx != 0 || dy != 0)
    requires CanMove(Abstract(w, h, c, player, steps, false), dx, dy)
    ensures var next := Shift(player, dx, dy);
      && player in c && next in c && (c[player] == PLAYER || c[player] == PLAYER_ON_GOAL)
      && c[next] in {EMPTY, GOAL, BOX, BOX_ON_GOAL}
      && (Boxed(c[next]) ==> Shift(next, dx, dy) in c && c[Shift(next, dx, dy)] in {EMPTY, GOAL})
      && next != player && Shift(next, dx, dy) != player && Shift(next, dx, dy) != next
  {
  }

  lemma MoveCells(w: int, h: int, c: Cells, player: Pos, steps: int, dx: int, dy: int)
    requires Coded(w, h, c, player) && (dx != 0 || dy != 0)
    requires CanMove(Abstract(w, h, c, player, steps, false), dx, dy)
    ensures var a, next := Abstract(w, h, c, player, steps, false), Shift(player, dx, dy);
      var code := At(c, next);
      var c1 := if Boxed(code) then Pushed(c, Shift(next, dx, dy)) else c;
      var z := Stepped(c1, player, next, code);
      && Coded(w, h, z, next)
      && Abstract(w, h, z, next, steps + 1, Where(z, {BOX}) == {}) == Moved(a, dx, dy)
  {
    hide CanMove, Where;
    PlayerCells(w, h, c, player, steps, dx, dy);
    var next := Shift(player, dx, dy);
    var far, code := Shift(next, dx, dy), At(c, next);
    var c1 := if Boxed(code) then Pushed(c, far) else c;
    var z := Stepped(c1, player, next, code);
    LayersMoved(c, player, next, far);
    LooseIff(z);
  }

  /** Walls and goals stay where they are; only the pushed box moves. */
  lemma LayersMoved(c: Cells, player: Pos, next: Pos, far: Pos)
    requires player in c && next in c && c[player] in {PLAYER, PLAYER_ON_GOAL} && c[next] in {EMPTY, GOAL, BOX, BOX_ON_GOAL}
    requires Boxed(c[next]) ==> far in c && c[far] in {EMPTY, GOAL}
    requires next != player && far != player && far != next
    ensures var z := Stepped(if Boxed(c[next]) then Pushed(c, far) else c, player, next, c[next]);
      var boxes := Where(c, {BOX, BOX_ON_GOAL});
      && Where(z, {WALL}) == Where(c, {WALL})
      && Where(z, {GOAL, BOX_ON_GOAL, PLAYER_ON_GOAL}) == Where(c, {GOAL, BOX_ON_GOAL, PLAYER_ON_GOAL})
      && (next in boxes <==> Boxed(c[next]))
      && Where(z, {BOX, BOX_ON_GOAL}) == if Boxed(c[next]) then boxes - {next} + {far} else boxes
  {
  }

  lemma StepValues(c: Cells, player: Pos, next: Pos, far: Pos)
    requires player in c && next in c && c[player] in {PLAYER, PLAYER_ON_GOAL} && far != player
    requires c[next] in {EMPTY, GOAL, BOX, BOX_ON_GOAL}
    ensures var c1 := if Boxed(c[next]) then Pushed(c, far) else c;
      player in c1 && c1[player] == c[player] && Floor(c1[player]) == if c1[player] == PLAYER then EMPTY else GOAL
    ensures Floor(c[next]) == if c[next] == BOX then EMPTY else if c[next] == BOX_ON_GOAL then GOAL else c[next]
  {
  }

  /** A step from (x, y) by (dx, dy), cell by cell: the cell left falls back to its floor, the next one holds the
      player, and a box that was there is on the cell beyond. Nothing else changes. */
  lemma StepSeen(w: int, h: int, c: Cells, x: int, y: int, dx: int, dy: int)
    requires Coded(w, h, c, (x, y)) && (dx != 0 || dy != 0)
    requires var ahead, beyond := At(c, (x + dx, y + dy)), At(c, (x + 2 * dx, y + 2 * dy));
      ahead != WALL && (ahead in {BOX, BOX_ON_GOAL} ==> beyond !in {WALL, BOX, BOX_ON_GOAL})
    ensures var here, ahead, beyond := At(c, (x, y)), At(c, (x + dx, y + dy)), At(c, (x + 2 * dx, y + 2 * dy));
      var pushes := ahead in {BOX, BOX_ON_GOAL};
      var z := Stepped(if pushes then Pushed(c, (x + 2 * dx, y + 2 * dy)) else c, (x, y), (x + dx, y + dy), ahead);
      && At(z, (x, y)) == (if here == PLAYER_ON_GOAL then GOAL else EMPTY)
      && At(z, (x + dx, y + dy)) == (if ahead in {GOAL, BOX_ON_GOAL} then PLAYER_ON_GOAL else PLAYER)
      && (pushes ==> At(z, (x + 2 * dx, y + 2 * dy)) == if beyond == GOAL then BOX_ON_GOAL else BOX)
      && forall p :: p !in {(x, y), (x + dx, y + dy)} && !(pushes && p == (x + 2 * dx, y + 2 * dy)) ==> At(z, p) == At(c, p)
  {
  }

  lemma LooseIff(c: Cells)
    ensures Where(c, {BOX}) == {} <==> Where(c, {BOX, BOX_ON_GOAL}) <= Where(c, {GOAL, BOX_ON_GOAL, PLAYER_ON_GOAL})
  {
    if Where(c, {BOX}) == {} {
      forall p | p in Where(c, {BOX, BOX_ON_GOAL}) ensures c[p] == BOX_ON_GOAL {
        assert p !in Where(c, {BOX});
      }
    } else {
      var p :| p in Where(c, {BOX});
      assert p in Where(c, {BOX, BOX_ON_GOAL}) && p !in Where(c, {GOAL, BOX_ON_GOAL, PLAYER_ON_GOAL});
    }
  }

  // ---- The program ----

  lemma {:induction false} MulMono(a: int, b: int, w: int)
    requires a <= b && 0 <= w
    ensures a * w <= b * w && (a < b ==> a * w + w <= b * w)
    decreases b - a
  {
    if a < b {
      MulMono(a, b - 1, w);
      assert b * w == (b - 1) * w + w;
    }
  }

  lemma IndexUnique(w: int, x: int, y: int, x2: int, y2: int)
    requires 0 <= x < w && 0 <= x2 < w && y * w + x == y2 * w + x2
    ensures x == x2 && y == y2
  {
    if y < y2 {
      MulMono(y, y2, w);
    } else {
      MulMono(y2, y, w);
    }
  }

  lemma IndexInRange(w: int, h: int, x: int, y: int)
    requires 0 <= x < w && 0 <= y < h
    ensures 0 <= y * w + x < w * h
  {
    MulMono(y, h, w);
    MulMono(0, y, w);
  }

  lemma RowAndColumn(w: int, h: int, i: int)
    requires 0 <= w && 0 <= h && 0 <= i < w * h
    ensures 0 < w && 0 <= i / w < h && 0 <= i % w < w && i == (i / w) * w + i % w
  {
    assert 0 * h == 0;
    var y := i / w;
    assert i == y * w + i % w;
    assert h * w == w * h;
    if h <= y { MulMono(h, y, w); }
    if y < 0 { MulMono(y, 0, w); }
  }

  class GameState {
    const width: int
    const height: int
    const grid: array<int>
    var playerX: int
    var playerY: int
    var steps: int
    var complete: int

    ghost predicate Shaped() {
      0 <= width && 0 <= height && grid.Length == width * height
    }

    predicate Inside(x: int, y: int) {
      0 <= x < width && 0 <= y < height
    }

    /** get_cell: outside the grid is wall. */
    function GetCell(x: int, y: int): int
      requires Shaped()
      reads grid
    {
      if !Inside(x, y) then WALL
      else
        IndexInRange(width, height, x, y);
        grid[y * width + x]
    }

    ghost function Cells(): (c: Cells)
      requires Shaped()
      reads grid
      ensures forall x, y :: ((x, y) in c <==> Inside(x, y)) && At(c, (x, y)) == GetCell(x, y)
    {
      map x, y | 0 <= x < width && 0 <= y < height :: (x, y) := GetCell(x, y)
    }

    ghost predicate Valid()
      reads this, grid
    {
      Shaped() && Coded(width, height, Cells(), (playerX, playerY))
    }

    ghost function World(): World
      requires Shaped()
      reads this, grid
    {
      Abstract(width, height, Cells(), (playerX, playerY), steps, complete == 1)
    }

    method SetCell(x: int, y: int, val: int)
      requires Shaped() && Inside(x, y)
      modifies grid
      ensures Cells() == old(Cells())[(x, y) := val]
    {
      IndexInRange(width, height, x, y);
      grid[y * width + x] := val;
      forall x2, y2 | Inside(x2, y2) && (x2 != x || y2 != y) ensures GetCell(x2, y2) == old(GetCell(x2, y2)) {
        if y2 * width + x2 == y * width + x { IndexUnique(width, x2, y2, x, y); }
        IndexInRange(width, height, x2, y2);
      }
      assert GetCell(x, y) == val;
    }

    /** check_win: no loose box is left. */
    method CheckWin() returns (won: bool)
      requires Shaped()
      modifies `complete
      ensures won == (Where(Cells(), {BOX}) == {})
      ensures complete == if won then 1 else old(complete)
    {
      var i := 0;
      while i < grid.Length
        invariant 0 <= i <= grid.Length && complete == old(complete)
        invariant forall k :: 0 <= k < i ==> grid[k] != BOX
      {
        if grid[i] == BOX {
          LooseBox(i);
          return false;
        }
        i := i + 1;
      }
      forall x, y | Inside(x, y) ensures GetCell(x, y) != BOX {
        IndexInRange(width, height, x, y);
      }
      forall p | p in Cells() ensures Cells()[p] != BOX {
        assert At(Cells(), (p.0, p.1)) == GetCell(p.0, p.1);
      }
      complete := 1;
      return true;
    }

    lemma LooseBox(i: int)
      requires Shaped() && 0 <= i < grid.Length && grid[i] == BOX
      ensures Where(Cells(), {BOX}) != {}
    {
      RowAndColumn(width, height, i);
      var x, y := i % width, i / width;
      assert At(Cells(), (x, y)) == GetCell(x, y) == BOX;
      assert (x, y) in Where(Cells(), {BOX});
    }

    /** try_move: refines a move of the game, for every step but the empty one. */
    method TryMove(dx: int, dy: int)
      requires Valid() && (dx != 0 || dy != 0)
      modifies this, grid
      ensures Valid() && World() == Moved(old(World()), dx, dy)
      ensures var here, ahead := old(GetCell(playerX, playerY)), old(GetCell(playerX + dx, playerY + dy));
        var beyond, pushes := old(GetCell(playerX + 2 * dx, playerY + 2 * dy)), ahead in {BOX, BOX_ON_GOAL};
        var x, y := old(playerX), old(playerY);
        if old(complete) == 1 || ahead == WALL || (pushes && beyond in {WALL, BOX, BOX_ON_GOAL}) then
          && steps == old(steps) && playerX == x && playerY == y && complete == old(complete)
          && forall i, j :: GetCell(i, j) == old(GetCell(i, j))
        else
          && steps == old(steps) + 1 && playerX == x + dx && playerY == y + dy
          && GetCell(x, y) == (if here == PLAYER_ON_GOAL then GOAL else EMPTY)
          && GetCell(x + dx, y + dy) == (if ahead in {GOAL, BOX_ON_GOAL} then PLAYER_ON_GOAL else PLAYER)
          && (pushes ==> GetCell(x + 2 * dx, y + 2 * dy) == if beyond == GOAL then BOX_ON_GOAL else BOX)
          && (forall i, j :: (i, j) !in {(x, y), (x + dx, y + dy)} && !(pushes && i == x + 2 * dx && j == y + 2 * dy) ==>
                GetCell(i, j) == old(GetCell(i, j)))
          && complete == if forall i, j :: GetCell(i, j) != BOX then 1 else old(complete)
    {
      hide Coded, Moved, CanMove, Where, Cells;
      ghost var was := World();
      if complete == 1 {
        CompleteBlocks(was, dx, dy);
        BlockedStays(was, dx, dy);
        return;
      }
      var nextX, nextY := playerX + dx, playerY + dy;
      var nextCell := GetCell(nextX, nextY);
      ghost var c := Cells();
      MoveCases(width, height, c, (playerX, playerY), steps, dx, dy);
      assert was == Abstract(width, height, c, (playerX, playerY), steps, false);
      CellsAt(nextX, nextY);
      CellsAt(nextX + dx, nextY + dy);
      if nextCell == WALL {
        BlockedStays(was, dx, dy);
        return;
      }
      var ok := true;
      if nextCell == BOX || nextCell == BOX_ON_GOAL {
        ok := PushBox(nextX + dx, nextY + dy);
        nextCell := if nextCell == BOX then EMPTY else GOAL;
      }
      if ok {
        StepSeen(width, height, c, playerX, playerY, dx, dy);
        MovePlayer(nextX, nextY, nextCell, c, dx, dy);
        AllCells();
      } else {
        BlockedStays(was, dx, dy);
      }
    }

    /** The box goes to the far cell, unless that is a wall or holds a box. */
    method PushBox(farX: int, farY: int) returns (ok: bool)
      requires Shaped()
      modifies grid
      ensures var c, far := old(Cells()), (farX, farY);
        && (ok <==> At(c, far) != WALL && !Boxed(At(c, far)))
        && Cells() == if ok then Pushed(c, far) else c
    {
      hide Cells;
      var farCell := GetCell(farX, farY);
      CellsAt(farX, farY);
      if farCell == WALL || farCell == BOX || farCell == BOX_ON_GOAL {
        return false;
      }
      if farCell == EMPTY {
        SetCell(farX, farY, BOX);
      } else {
        SetCell(farX, farY, BOX_ON_GOAL);
      }
      return true;
    }

    lemma AllCells()
      requires Shaped()
      ensures forall i, j :: At(Cells(), (i, j)) == GetCell(i, j)
      ensures Where(Cells(), {BOX}) == {} <==> forall i, j :: GetCell(i, j) != BOX
    {
      hide Cells;
      if i, j :| GetCell(i, j) == BOX {
        assert At(Cells(), (i, j)) == BOX;
        assert (i, j) in Where(Cells(), {BOX});
      } else {
        forall p | p in Cells() ensures Cells()[p] != BOX {
          assert At(Cells(), (p.0, p.1)) == GetCell(p.0, p.1);
        }
      }
    }

    lemma CellsAt(x: int, y: int)
      requires Shaped()
      ensures At(Cells(), (x, y)) == GetCell(x, y) && ((x, y) in Cells() <==> Inside(x, y))
      ensures GetCell(x, y) != WALL ==> Inside(x, y)
    {
    }

    /** The old cell falls back to its floor, the new one takes the player. */
    method MovePlayer(nextX: int, nextY: int, nextCell: int, ghost c: Cells, dx: int, dy: int)
      requires Shaped() && Coded(width, height, c, (playerX, playerY)) && (dx != 0 || dy != 0) && Inside(nextX, nextY)
      requires (nextX, nextY) == Shift((playerX, playerY), dx, dy) && complete != 1
      requires CanMove(Abstract(width, height, c, (playerX, playerY), steps, false), dx, dy)
      requires var next := (nextX, nextY);
        var code := At(c, next);
        && Cells() == (if Boxed(code) then Pushed(c, Shift(next, dx, dy)) else c)
        && nextCell == (if code == BOX then EMPTY else if code == BOX_ON_GOAL then GOAL else code)
      modifies this, grid
      ensures Valid() && World() == Moved(Abstract(width, height, c, old((playerX, playerY)), old(steps), false), dx, dy)
      ensures Cells() == Stepped(old(Cells()), old((playerX, playerY)), (nextX, nextY), At(c, (nextX, nextY)))
      ensures playerX == nextX && playerY == nextY && steps == old(steps) + 1
      ensures complete == if Where(Cells(), {BOX}) == {} then 1 else old(complete)
    {
      hide Moved, CanMove, Where, Cells, Pushed, Floor, Coded;
      ghost var player, next := (playerX, playerY), (nextX, nextY);
      ghost var c1 := Cells();
      MoveCells(width, height, c, player, steps, dx, dy);
      PlayerCells(width, height, c, player, steps, dx, dy);
      StepValues(c, player, next, Shift(next, dx, dy));
      CellsAt(playerX, playerY);
      SetCell(playerX, playerY, if GetCell(playerX, playerY) == PLAYER then EMPTY else GOAL);
      SetCell(nextX, nextY, if nextCell == EMPTY then PLAYER else PLAYER_ON_GOAL);
      playerX, playerY := nextX, nextY;
      steps := steps + 1;
      var won := CheckWin();
    }
  }
}
