/**
 * The board of class `Carte` as a value, and the meaning of its operations:
 * decoding the level rows, the push-aware move, the win test and the text
 * rendering. Class `Board` (board.dfy) runs these operations in place on an
 * array and is proved to agree with the functions here; the properties of the
 * game are proved once, below, about these functions.
 */
module Rules {
  import opened Options
  import opened Directions
  import opened Positions
  import opened Cells

  /** Rows of cells, indexed `[y][x]`. */
  type Grid = seq<seq<Cell>>

  /** At least one row, and every row as long as row 0. */
  predicate Rectangular(g: Grid)
  {
    |g| > 0 && forall i :: 0 <= i < |g| ==> |g[i]| == |g[0]|
  }

  /** The bounds test of `getElement`: 0 <= x < width (row 0's length) and 0 <= y < height. */
  predicate Inside(g: Grid, x: int, y: int)
    requires Rectangular(g)
  {
    0 <= x < |g[0]| && 0 <= y < |g|
  }

  /** `getElement`: the cell, or None (Java's null) outside the grid. */
  function Get(g: Grid, x: int, y: int): Option<Cell>
    requires Rectangular(g)
  {
    if Inside(g, x, y) then Some(g[y][x]) else None
  }

  /** The grid with cell (x, y) replaced by `c`. */
  function Put(g: Grid, x: int, y: int, c: Cell): (r: Grid)
    requires Rectangular(g) && Inside(g, x, y)
    ensures Rectangular(r) && |r| == |g| && |r[0]| == |g[0]|
    ensures forall i, j :: 0 <= i < |g| && 0 <= j < |g[0]| ==>
              r[i][j] == if i == y && j == x then c else g[i][j]
  {
    g[y := g[y][x := c]]
  }

  /** Grids are equal when they have the same rows and the same cells. */
  lemma SameGrid(a: Grid, b: Grid)
    requires |a| == |b| && forall i :: 0 <= i < |a| ==> |a[i]| == |b[i]|
    requires forall i, j :: 0 <= i < |a| && 0 <= j < |a[i]| ==> a[i][j] == b[i][j]
    ensures a == b
  {
    forall i | 0 <= i < |a|
      ensures a[i] == b[i]
    {
    }
  }

  /**
   * The state of one `Carte`: the grid, the robot's stored coordinates,
   * the goal list and the move counter.
   */
  datatype Level = Level(cells: Grid, rx: int, ry: int, goals: seq<Position>, moves: nat)

  /** A rectangular grid with the robot's coordinates inside it. */
  predicate Shaped(l: Level)
  {
    Rectangular(l.cells) && Inside(l.cells, l.rx, l.ry)
  }

  /**
   * Whether a cell is consistent with its position being a goal or not: a
   * goal cell only on a goal, a crate's flag equal to goal membership, a
   * wall, empty or floor cell only off the goals.
   */
  predicate Agrees(c: Cell, isGoal: bool)
  {
    match c
    case Goal => isGoal
    case Crate(onGoal) => onGoal == isGoal
    case Robot(_) => true
    case _ => !isGoal
  }

  /**
   * The board invariant: one robot cell, the one at the stored (rx, ry);
   * goals inside the grid; every cell agreeing with goal membership.
   */
  predicate Inv(l: Level)
  {
    && Shaped(l)
    && l.cells[l.ry][l.rx].Robot?
    && (forall i, j :: 0 <= i < |l.cells| && 0 <= j < |l.cells[i]| && l.cells[i][j].Robot? ==>
          i == l.ry && j == l.rx)
    && (forall k :: 0 <= k < |l.goals| ==> Inside(l.cells, l.goals[k].x, l.goals[k].y))
    && (forall i, j :: 0 <= i < |l.cells| && 0 <= j < |l.cells[i]| ==>
          Agrees(l.cells[i][j], Position(j, i) in l.goals))
  }

  /** `restaurerSolOuDestination`: what a vacated cell becomes. */
  function Restore(goals: seq<Position>, p: Position): Cell
  {
    if Contains(goals, p) then Goal else Floor
  }

  /** The cell the robot moves towards. */
  function Target(l: Level, d: Direction): Position
  {
    Position(l.rx + Dx(d), l.ry + Dy(d))
  }

  /** The cell beyond the target, where a pushed crate goes. */
  function Beyond(l: Level, d: Direction): Position
  {
    Position(l.rx + 2 * Dx(d), l.ry + 2 * Dy(d))
  }

  /**
   * The robot leaves its cell, which is restored, and stands on the target
   * of `d` in grid `g`, facing `d`; the counter goes up by one.
   */
  function Relocate(l: Level, g: Grid, d: Direction): Level
    requires Shaped(l) && Rectangular(g) && |g| == |l.cells| && |g[0]| == |l.cells[0]|
    requires Inside(l.cells, Target(l, d).x, Target(l, d).y)
  {
    var t := Target(l, d);
    var vacated := Put(g, l.rx, l.ry, Restore(l.goals, Position(l.rx, l.ry)));
    l.(cells := Put(vacated, t.x, t.y, Robot(d)), rx := t.x, ry := t.y, moves := l.moves + 1)
  }

  /**
   * `deplacerRobot(d)`: the new state and whether the move happened. A
   * traversable target is walked onto; a crate target is pushed when the
   * cell beyond it is traversable, the crate's flag recomputed against the
   * goals; anything else is rejected with the state unchanged.
   */
  function Move(l: Level, d: Direction): (Level, bool)
    requires Shaped(l)
  {
    var t := Target(l, d);
    var next := Get(l.cells, t.x, t.y);
    if next.Some? && Traversable(next.value) then
      (Relocate(l, l.cells, d), true)
    else if next.Some? && next.value.Crate? then
      var b := Position(t.x + Dx(d), t.y + Dy(d));
      var beyond := Get(l.cells, b.x, b.y);
      if beyond.Some? && Traversable(beyond.value) then
        (Relocate(l, Put(l.cells, b.x, b.y, Crate(Contains(l.goals, b))), d), true)
      else
        (l, false)
    else
      (l, false)
  }

  /** A plain step: the target is inside and traversable. */
  predicate CanWalk(l: Level, d: Direction)
    requires Shaped(l)
  {
    var t := Target(l, d);
    Inside(l.cells, t.x, t.y) && Traversable(l.cells[t.y][t.x])
  }

  /** A push: the target holds a crate and the cell beyond it is inside and traversable. */
  predicate CanPush(l: Level, d: Direction)
    requires Shaped(l)
  {
    var t, b := Target(l, d), Beyond(l, d);
    && Inside(l.cells, t.x, t.y) && l.cells[t.y][t.x].Crate?
    && Inside(l.cells, b.x, b.y) && Traversable(l.cells[b.y][b.x])
  }

  /** Every cell whose position is not in `ps` keeps its old content. */
  predicate UnchangedBut(g: Grid, g': Grid, ps: set<Position>)
  {
    |g'| == |g| &&
    forall i, j :: 0 <= i < |g| && 0 <= j < |g[i]| && Position(j, i) !in ps ==>
      j < |g'[i]| && g'[i][j] == g[i][j]
  }

  /**
   * A plain step succeeds: the robot stands on the target facing `d`, its
   * old cell is a goal if its position is one and floor otherwise, the
   * counter goes up by one, and no other cell changes.
   */
  lemma WalkEffect(l: Level, d: Direction)
    requires Shaped(l) && CanWalk(l, d)
    ensures var (l', ok) := Move(l, d); var t := Target(l, d);
      && ok
      && l'.rx == t.x && l'.ry == t.y
      && Rectangular(l'.cells) && |l'.cells| == |l.cells| && |l'.cells[0]| == |l.cells[0]|
      && l'.cells[t.y][t.x] == Robot(d)
      && l'.cells[l.ry][l.rx] == (if Position(l.rx, l.ry) in l.goals then Goal else Floor)
      && UnchangedBut(l.cells, l'.cells, {t, Position(l.rx, l.ry)})
      && l'.goals == l.goals && l'.moves == l.moves + 1
  {
  }

  /**
   * A push succeeds: the crate stands beyond its old cell with its flag
   * telling whether that is a goal, the robot stands on the crate's old cell
   * facing `d`, the robot's old cell is restored, the counter goes up by
   * exactly one, and no other cell changes.
   */
  lemma PushEffect(l: Level, d: Direction)
    requires Shaped(l) && CanPush(l, d)
    ensures var (l', ok) := Move(l, d); var t, b := Target(l, d), Beyond(l, d);
      && ok
      && l'.rx == t.x && l'.ry == t.y
      && Rectangular(l'.cells) && |l'.cells| == |l.cells| && |l'.cells[0]| == |l.cells[0]|
      && l'.cells[b.y][b.x] == Crate(b in l.goals)
      && l'.cells[t.y][t.x] == Robot(d)
      && l'.cells[l.ry][l.rx] == (if Position(l.rx, l.ry) in l.goals then Goal else Floor)
      && UnchangedBut(l.cells, l'.cells, {b, t, Position(l.rx, l.ry)})
      && l'.goals == l.goals && l'.moves == l.moves + 1
  {
    var t, b := Target(l, d), Beyond(l, d);
    assert b == Position(t.x + Dx(d), t.y + Dy(d));
  }

  /** A plain step is the robot's relocation on the unchanged grid. */
  lemma WalkIs(l: Level, d: Direction)
    requires Shaped(l) && CanWalk(l, d)
    ensures Move(l, d) == (Relocate(l, l.cells, d), true)
  {
  }

  /** A push is the robot's relocation on the grid where the crate already moved. */
  lemma PushIs(l: Level, d: Direction)
    requires Shaped(l) && CanPush(l, d)
    ensures var b := Beyond(l, d);
      Move(l, d) == (Relocate(l, Put(l.cells, b.x, b.y, Crate(Contains(l.goals, b))), d), true)
  {
    var t, b := Target(l, d), Beyond(l, d);
    assert b == Position(t.x + Dx(d), t.y + Dy(d));
  }

  /** A move succeeds exactly when it is a plain step or a push; otherwise nothing changes. */
  lemma MoveOutcome(l: Level, d: Direction)
    requires Shaped(l)
    ensures Move(l, d).1 <==> CanWalk(l, d) || CanPush(l, d)
    ensures !Move(l, d).1 ==> Move(l, d).0 == l
  {
    var t, b := Target(l, d), Beyond(l, d);
    assert b == Position(t.x + Dx(d), t.y + Dy(d));
  }

  /**
   * The rejections: a target outside the grid or a wall, and a crate whose
   * beyond cell is outside the grid, a wall or another crate. Grid, robot
   * position and facing, goals and counter all stay as they were.
   */
  lemma Rejections(l: Level, d: Direction)
    requires Shaped(l)
    ensures var t, b := Target(l, d), Beyond(l, d);
      (|| !Inside(l.cells, t.x, t.y)
       || l.cells[t.y][t.x].Wall?
       || (l.cells[t.y][t.x].Crate? && !Inside(l.cells, b.x, b.y))
       || (l.cells[t.y][t.x].Crate? && l.cells[b.y][b.x].Wall?)
       || (l.cells[t.y][t.x].Crate? && l.cells[b.y][b.x].Crate?))
      ==> Move(l, d) == (l, false)
  {
    MoveOutcome(l, d);
  }

  /** Every move keeps the invariant, the goal list and the grid's size, and never lowers the counter. */
  lemma {:induction false} MovePreservesInv(l: Level, d: Direction)
    requires Inv(l)
    ensures var l' := Move(l, d).0;
      && Inv(l')
      && l'.goals == l.goals
      && l'.moves >= l.moves
      && |l'.cells| == |l.cells| && |l'.cells[0]| == |l.cells[0]|
  {
    if CanWalk(l, d) {
      WalkIs(l, d);
      RelocateKeepsInv(l, l.cells, d);
    } else if CanPush(l, d) {
      PushIs(l, d);
      var b := Beyond(l, d);
      CrateKeepsAgreement(l, b);
      RelocateKeepsInv(l, Put(l.cells, b.x, b.y, Crate(Contains(l.goals, b))), d);
    } else {
      MoveOutcome(l, d);
    }
  }

  /** A crate put on a non-robot cell with its flag set by goal membership keeps every cell in agreement. */
  lemma CrateKeepsAgreement(l: Level, b: Position)
    requires Inv(l) && Inside(l.cells, b.x, b.y) && !l.cells[b.y][b.x].Robot?
    ensures var g := Put(l.cells, b.x, b.y, Crate(Contains(l.goals, b)));
      && (forall i, j :: 0 <= i < |g| && 0 <= j < |g[i]| ==> Agrees(g[i][j], Position(j, i) in l.goals))
      && (forall i, j :: 0 <= i < |g| && 0 <= j < |g[i]| && g[i][j].Robot? ==> i == l.ry && j == l.rx)
  {
    var g := Put(l.cells, b.x, b.y, Crate(Contains(l.goals, b)));
    forall i, j | 0 <= i < |g| && 0 <= j < |g[i]|
      ensures Agrees(g[i][j], Position(j, i) in l.goals)
      ensures g[i][j].Robot? ==> i == l.ry && j == l.rx
    {
      assert |g[i]| == |l.cells[0]|;
    }
  }

  /**
   * Relocating the robot onto a non-robot target of a grid that differs
   * from the board's only in non-robot cells agreeing with the goals keeps
   * the invariant.
   */
  lemma RelocateKeepsInv(l: Level, g: Grid, d: Direction)
    requires Inv(l) && Rectangular(g) && |g| == |l.cells| && |g[0]| == |l.cells[0]|
    requires Inside(l.cells, Target(l, d).x, Target(l, d).y)
    requires forall i, j :: 0 <= i < |g| && 0 <= j < |g[i]| ==> Agrees(g[i][j], Position(j, i) in l.goals)
    requires forall i, j :: 0 <= i < |g| && 0 <= j < |g[i]| && g[i][j].Robot? ==> i == l.ry && j == l.rx
    ensures Inv(Relocate(l, g, d))
  {
    var t := Target(l, d);
    var r := Position(l.rx, l.ry);
    var l' := Relocate(l, g, d);
    assert t != r by {
      assert Dx(d) != 0 || Dy(d) != 0;
    }
    forall i, j | 0 <= i < |l'.cells| && 0 <= j < |l'.cells[i]|
      ensures Agrees(l'.cells[i][j], Position(j, i) in l'.goals)
      ensures l'.cells[i][j].Robot? ==> i == l'.ry && j == l'.rx
    {
      assert |l'.cells[i]| == |g[0]|;
    }
  }

  /**
   * Walls are never written and never made; no move creates an empty cell,
   * so the empty cells only ever become fewer.
   */
  lemma WallsAndEmptiesStable(l: Level, d: Direction)
    requires Inv(l)
    ensures var l' := Move(l, d).0;
      && |l'.cells| == |l.cells|
      && forall i, j :: 0 <= i < |l.cells| && 0 <= j < |l.cells[i]| ==>
           j < |l'.cells[i]|
           && (l'.cells[i][j].Wall? <==> l.cells[i][j].Wall?)
           && (l'.cells[i][j].Empty? ==> l.cells[i][j].Empty?)
  {
    var l' := Move(l, d).0;
    var t, b, r := Target(l, d), Beyond(l, d), Position(l.rx, l.ry);
    if CanWalk(l, d) {
      WalkEffect(l, d);
      forall i, j | 0 <= i < |l.cells| && 0 <= j < |l.cells[i]|
        ensures j < |l'.cells[i]|
        ensures l'.cells[i][j].Wall? <==> l.cells[i][j].Wall?
        ensures l'.cells[i][j].Empty? ==> l.cells[i][j].Empty?
      {
        assert |l'.cells[i]| == |l.cells[i]|;
        if Position(j, i) !in {t, r} {
          assert l'.cells[i][j] == l.cells[i][j];
        }
      }
    } else if CanPush(l, d) {
      PushEffect(l, d);
      forall i, j | 0 <= i < |l.cells| && 0 <= j < |l.cells[i]|
        ensures j < |l'.cells[i]|
        ensures l'.cells[i][j].Wall? <==> l.cells[i][j].Wall?
        ensures l'.cells[i][j].Empty? ==> l.cells[i][j].Empty?
      {
        assert |l'.cells[i]| == |l.cells[i]|;
        if Position(j, i) !in {b, t, r} {
          assert l'.cells[i][j] == l.cells[i][j];
        }
      }
    } else {
      MoveOutcome(l, d);
    }
  }

  /** The cell at `p` exists and holds a crate, whatever its flag. */
  predicate CrateAt(g: Grid, p: Position)
    requires Rectangular(g)
  {
    var c := Get(g, p.x, p.y);
    c.Some? && c.value.Crate?
  }

  /** `finDePartie`: every goal position holds a crate. */
  predicate Complete(l: Level)
    requires Rectangular(l.cells)
  {
    forall k :: 0 <= k < |l.goals| ==> CrateAt(l.cells, l.goals[k])
  }

  /** With no goals the game is won from the start. */
  lemma CompleteWithoutGoals(l: Level)
    requires Rectangular(l.cells) && l.goals == []
    ensures Complete(l)
  {
  }

  // ---------------------------------------------------------------------
  // Construction from level rows

  /** At least one row, no row shorter than row 0 (longer rows are cut to its width). */
  predicate Shape(rows: seq<string>)
  {
    |rows| > 0 && forall i :: 0 <= i < |rows| ==> |rows[i]| >= |rows[0]|
  }

  /** An `@` at column x of row y, within row 0's width. */
  predicate RobotAt(rows: seq<string>, x: int, y: int)
    requires Shape(rows)
  {
    0 <= y < |rows| && 0 <= x < |rows[0]| && rows[y][x] == '@'
  }

  /** What the board constructor relies on: a shape it can read and exactly one `@`. */
  ghost predicate WellFormed(rows: seq<string>)
  {
    && Shape(rows)
    && exists x, y :: RobotAt(rows, x, y) && forall i, j :: RobotAt(rows, j, i) ==> j == x && i == y
  }

  /** The constructor's grid: cell (x, y) decodes character x of row y. */
  function ParseCells(rows: seq<string>): Grid
    requires Shape(rows)
  {
    seq(|rows|, i requires 0 <= i < |rows| =>
      seq(|rows[0]|, j requires 0 <= j < |rows[0]| => FromChar(rows[i][j])))
  }

  /** The goals among the first j characters of `row`, which is row y, left to right. */
  function RowGoals(row: string, y: int, j: nat): seq<Position>
    requires j <= |row|
  {
    if j == 0 then []
    else RowGoals(row, y, j - 1) + (if row[j - 1] == '.' then [Position(j - 1, y)] else [])
  }

  /** The goals of the first i rows, row by row. */
  function RowsGoals(rows: seq<string>, i: nat): seq<Position>
    requires Shape(rows) && i <= |rows|
  {
    if i == 0 then []
    else RowsGoals(rows, i - 1) + RowGoals(rows[i - 1], i - 1, |rows[0]|)
  }

  /** The constructor's goal list. */
  function Goals(rows: seq<string>): seq<Position>
    requires Shape(rows)
  {
    RowsGoals(rows, |rows|)
  }

  /** A `.` at position p, within row 0's width. */
  predicate GoalChar(rows: seq<string>, p: Position)
    requires Shape(rows)
  {
    0 <= p.y < |rows| && 0 <= p.x < |rows[0]| && rows[p.y][p.x] == '.'
  }

  /** Row-major order: an earlier row, or the same row and an earlier column. */
  predicate Before(p: Position, q: Position)
  {
    p.y < q.y || (p.y == q.y && p.x < q.x)
  }

  lemma {:induction false} RowGoalsMembers(row: string, y: int, j: nat, p: Position)
    requires j <= |row|
    ensures p in RowGoals(row, y, j) <==> p.y == y && 0 <= p.x < j && row[p.x] == '.'
  {
    if j > 0 {
      RowGoalsMembers(row, y, j - 1, p);
    }
  }

  lemma {:induction false} RowsGoalsMembers(rows: seq<string>, i: nat, p: Position)
    requires Shape(rows) && i <= |rows|
    ensures p in RowsGoals(rows, i) <==> 0 <= p.y < i && GoalChar(rows, p)
  {
    if i > 0 {
      RowsGoalsMembers(rows, i - 1, p);
      RowGoalsMembers(rows[i - 1], i - 1, |rows[0]|, p);
    }
  }

  /** The goal list holds exactly the positions of the `.` characters. */
  lemma GoalsExact(rows: seq<string>, p: Position)
    requires Shape(rows)
    ensures p in Goals(rows) <==> GoalChar(rows, p)
  {
    RowsGoalsMembers(rows, |rows|, p);
  }

  lemma {:induction false} RowGoalsOrdered(row: string, y: int, j: nat)
    requires j <= |row|
    ensures forall k :: 0 <= k < |RowGoals(row, y, j)| ==>
      RowGoals(row, y, j)[k].y == y && RowGoals(row, y, j)[k].x < j
    ensures forall a, b :: 0 <= a < b < |RowGoals(row, y, j)| ==>
      Before(RowGoals(row, y, j)[a], RowGoals(row, y, j)[b])
  {
    if j > 0 {
      RowGoalsOrdered(row, y, j - 1);
    }
  }

  lemma {:induction false} RowsGoalsOrdered(rows: seq<string>, i: nat)
    requires Shape(rows) && i <= |rows|
    ensures forall k :: 0 <= k < |RowsGoals(rows, i)| ==> RowsGoals(rows, i)[k].y < i
    ensures forall a, b :: 0 <= a < b < |RowsGoals(rows, i)| ==>
      Before(RowsGoals(rows, i)[a], RowsGoals(rows, i)[b])
  {
    if i > 0 {
      RowsGoalsOrdered(rows, i - 1);
      RowGoalsOrdered(rows[i - 1], i - 1, |rows[0]|);
    }
  }

  /** The goal list is in row-major order, each goal listed once. */
  lemma GoalsOrdered(rows: seq<string>)
    requires Shape(rows)
    ensures forall a, b :: 0 <= a < b < |Goals(rows)| ==> Before(Goals(rows)[a], Goals(rows)[b])
  {
    RowsGoalsOrdered(rows, |rows|);
  }

  /** The board right after construction, with the robot bound at (x, y). */
  function Parsed(rows: seq<string>, x: int, y: int): Level
    requires Shape(rows)
  {
    Level(ParseCells(rows), x, y, Goals(rows), 0)
  }

  /**
   * Construction from well-formed rows: height = number of rows, width =
   * length of row 0, counter 0, and the invariant holds with the robot at
   * its `@`.
   */
  lemma ParsedInv(rows: seq<string>, x: int, y: int)
    requires WellFormed(rows) && RobotAt(rows, x, y)
    ensures var l := Parsed(rows, x, y);
      Inv(l) && |l.cells| == |rows| && |l.cells[0]| == |rows[0]| && l.moves == 0
  {
    var l := Parsed(rows, x, y);
    var x0, y0 :| RobotAt(rows, x0, y0) && forall i, j :: RobotAt(rows, j, i) ==> j == x0 && i == y0;
    forall i, j | 0 <= i < |l.cells| && 0 <= j < |l.cells[i]|
      ensures l.cells[i][j].Robot? ==> i == y && j == x
      ensures Agrees(l.cells[i][j], Position(j, i) in l.goals)
    {
      GoalsExact(rows, Position(j, i));
      FromCharOnly(rows[i][j]);
      if l.cells[i][j].Robot? {
        assert RobotAt(rows, j, i);
      }
    }
    forall k | 0 <= k < |l.goals|
      ensures Inside(l.cells, l.goals[k].x, l.goals[k].y)
    {
      GoalsExact(rows, l.goals[k]);
    }
  }

  // ---------------------------------------------------------------------
  // Text rendering

  /** The symbols of a row of cells. */
  function RowText(r: seq<Cell>): string
  {
    if r == [] then "" else RowText(r[..|r| - 1]) + [Symbol(r[|r| - 1])]
  }

  /** `toString`: every row's symbols followed by a newline. */
  function Render(g: Grid): string
  {
    if g == [] then "" else Render(g[..|g| - 1]) + RowText(g[|g| - 1]) + "\n"
  }

  /** The level text: every row followed by a newline. */
  function JoinLines(rows: seq<string>): string
  {
    if rows == [] then "" else JoinLines(rows[..|rows| - 1]) + rows[|rows| - 1] + "\n"
  }

  lemma {:induction false} RowTextIs(r: seq<Cell>, s: string)
    requires |r| == |s| && forall j :: 0 <= j < |r| ==> Symbol(r[j]) == s[j]
    ensures RowText(r) == s
  {
    if r != [] {
      RowTextIs(r[..|r| - 1], s[..|s| - 1]);
    }
  }

  lemma {:induction false} RenderIs(g: Grid, rows: seq<string>)
    requires |g| == |rows| && forall i :: 0 <= i < |g| ==> RowText(g[i]) == rows[i]
    ensures Render(g) == JoinLines(rows)
  {
    if g != [] {
      RenderIs(g[..|g| - 1], rows[..|rows| - 1]);
    }
  }

  /**
   * Rendering a freshly built board gives back its rows, for rows all of
   * the same length made only of `#`, space, `.`, `$` and `@`.
   */
  lemma RenderParsed(rows: seq<string>)
    requires Shape(rows)
    requires forall i :: 0 <= i < |rows| ==> |rows[i]| == |rows[0]|
    requires forall i, j :: 0 <= i < |rows| && 0 <= j < |rows[i]| ==> LevelChar(rows[i][j])
    ensures Render(ParseCells(rows)) == JoinLines(rows)
  {
    var g := ParseCells(rows);
    forall i | 0 <= i < |g|
      ensures RowText(g[i]) == rows[i]
    {
      forall j | 0 <= j < |g[i]|
        ensures Symbol(g[i][j]) == rows[i][j]
      {
        FromCharSymbol(rows[i][j]);
      }
      RowTextIs(g[i], rows[i]);
    }
    RenderIs(g, rows);
  }
}
