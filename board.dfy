/**
 * Class `Carte`: the board as the game mutates it, a fixed-size grid of
 * cells rewritten in place, the robot's coordinates, the goal list and the
 * move counter. Every method is proved against the functions of module
 * Rules, where the game's properties are proved.
 */
module Boards {
  import opened Options
  import opened Directions
  import opened Positions
  import opened Cells
  import Rules

  class Board {
    /** `elements`, indexed `[y, x]`. */
    var grid: array2<Cell>
    /** The robot's stored coordinates; the robot itself is the cell `grid[ry, rx]`. */
    var rx: int
    var ry: int
    /** `destinations`, fixed at construction. */
    var goals: seq<Position>
    /** `nbMouvements`. */
    var moves: nat

    /** The grid as rows of cells. */
    ghost function Contents(): Rules.Grid
      reads this`grid, grid
    {
      var a := grid;
      seq(a.Length0, i requires 0 <= i < a.Length0 reads a =>
        seq(a.Length1, j requires 0 <= j < a.Length1 reads a => a[i, j]))
    }

    /** The whole board as a value. */
    ghost function State(): Rules.Level
      reads this, grid
    {
      Rules.Level(Contents(), rx, ry, goals, moves)
    }

    ghost predicate Valid()
      reads this, grid
    {
      Rules.Inv(State())
    }

    /**
     * `new Carte(lignes)`: row y, character x becomes cell (x, y); every
     * `.` is listed as a goal in reading order; the `@` is the robot.
     */
    constructor (rows: seq<string>)
      requires Rules.WellFormed(rows)
      ensures Valid() && fresh(grid)
      ensures Contents() == Rules.ParseCells(rows)
      ensures goals == Rules.Goals(rows)
      ensures Rules.RobotAt(rows, rx, ry) && moves == 0
    {
      var g, found, x, y := Decode(rows);
      grid := g;
      goals := found;
      rx, ry := x, y;
      moves := 0;
      new;
      Rules.SameGrid(Contents(), Rules.ParseCells(rows));
      Rules.ParsedInv(rows, rx, ry);
    }

    /** The constructor's two nested loops over the rows and their characters. */
    static method Decode(rows: seq<string>) returns (g: array2<Cell>, found: seq<Position>, x: int, y: int)
      requires Rules.WellFormed(rows)
      ensures fresh(g) && g.Length0 == |rows| && g.Length1 == |rows[0]|
      ensures forall a, b :: 0 <= a < g.Length0 && 0 <= b < g.Length1 ==> g[a, b] == FromChar(rows[a][b])
      ensures found == Rules.Goals(rows)
      ensures Rules.RobotAt(rows, x, y)
    {
      var h, w := |rows|, |rows[0]|;
      g := new Cell[h, w];
      found := [];
      x, y := 0, 0;
      for i := 0 to h
        invariant forall a, b :: 0 <= a < i && 0 <= b < w ==> g[a, b] == FromChar(rows[a][b])
        invariant found == Rules.RowsGoals(rows, i)
        invariant Rules.RobotAt(rows, x, y) || forall a, b :: 0 <= a < i && 0 <= b < w ==> rows[a][b] != '@'
      {
        for j := 0 to w
          invariant forall a, b :: 0 <= a < i && 0 <= b < w ==> g[a, b] == FromChar(rows[a][b])
          invariant forall b :: 0 <= b < j ==> g[i, b] == FromChar(rows[i][b])
          invariant found == Rules.RowsGoals(rows, i) + Rules.RowGoals(rows[i], i, j)
          invariant Rules.RobotAt(rows, x, y) ||
            forall a, b :: ((0 <= a < i && 0 <= b < w) || (a == i && 0 <= b < j)) ==> rows[a][b] != '@'
        {
          match rows[i][j]
          case '#' => g[i, j] := Wall;
          case ' ' => g[i, j] := Empty;
          case '.' =>
            g[i, j] := Goal;
            found := found + [Position(j, i)];
          case '$' => g[i, j] := Crate(false);
          case '@' =>
            g[i, j] := Robot(Right);
            x, y := j, i;
          case _ => g[i, j] := Floor;
        }
      }
      var x0, y0 :| Rules.RobotAt(rows, x0, y0);
      assert rows[y0][x0] == '@';
    }

    /** `getHauteur`: the number of rows. */
    function Height(): (r: int)
      reads this, grid
      requires Valid()
      ensures r == |Contents()| && r > 0
    {
      grid.Length0
    }

    /** `getLargeur`: the length of the rows. */
    function Width(): (r: int)
      reads this, grid
      requires Valid()
      ensures r == |Contents()[0]| && r > 0
    {
      grid.Length1
    }

    /** `getNbMouvements`. */
    function MoveCount(): nat
      reads this
    {
      moves
    }

    /** `getDestinations`, as a value that callers cannot change. */
    function Destinations(): seq<Position>
      reads this
    {
      goals
    }

    /** `getElement(x, y)`: the cell when (x, y) is inside the grid, None otherwise; never fails. */
    function Get(x: int, y: int): (r: Option<Cell>)
      reads this, grid
      requires Valid()
      ensures r.Some? <==> 0 <= x < Width() && 0 <= y < Height()
      ensures r.Some? ==> r.value == grid[y, x] == Contents()[y][x]
      ensures r == Rules.Get(Contents(), x, y)
    {
      if 0 <= x < Width() && 0 <= y < Height() then Some(grid[y, x]) else None
    }

    /**
     * One array store, seen on the rows. An internal step of `Move`: on its
     * own it may break `Valid()`.
     */
    method Write(x: int, y: int, c: Cell)
      requires Rules.Rectangular(Contents()) && Rules.Inside(Contents(), x, y)
      modifies grid
      ensures Contents() == Rules.Put(old(Contents()), x, y, c)
    {
      ghost var before := Contents();
      grid[y, x] := c;
      Rules.SameGrid(Contents(), Rules.Put(before, x, y, c));
    }

    /**
     * `restaurerSolOuDestination(x, y)`: a goal if (x, y) is in the goal
     * list, floor otherwise. Private in the class; an internal step of
     * `Move` that may break `Valid()` (restoring the robot's cell removes it).
     */
    method RestoreCell(x: int, y: int)
      requires Rules.Rectangular(Contents()) && Rules.Inside(Contents(), x, y)
      modifies grid
      ensures Contents() == Rules.Put(old(Contents()), x, y, Rules.Restore(goals, Position(x, y)))
    {
      if Contains(goals, Position(x, y)) {
        Write(x, y, Goal);
      } else {
        Write(x, y, Floor);
      }
    }

    /**
     * The common tail of both successful branches of `deplacerRobot`: the
     * robot's cell is restored, the robot is written on the target facing
     * `d`, and the counter goes up. An internal step of `Move` that may
     * break `Valid()` on its own.
     */
    method StepRobot(d: Direction)
      requires Rules.Shaped(State())
      requires Rules.Inside(Contents(), Rules.Target(State(), d).x, Rules.Target(State(), d).y)
      modifies this`rx, this`ry, this`moves, grid
      ensures State() == Rules.Relocate(old(State()), old(Contents()), d)
    {
      ghost var s0 := State();
      var newX, newY := rx + Dx(d), ry + Dy(d);
      RestoreCell(rx, ry);
      ghost var vacated := Contents();
      rx, ry := newX, newY;
      Write(newX, newY, Robot(d));
      moves := moves + 1;
      assert Contents() == Rules.Put(vacated, newX, newY, Robot(d));
    }

    /**
     * `deplacerRobot(d)`: a step onto a traversable cell or a push of one
     * crate, or nothing at all with result false.
     */
    method Move(d: Direction) returns (moved: bool)
      requires Valid()
      modifies this`rx, this`ry, this`moves, grid
      ensures Valid()
      ensures (State(), moved) == Rules.Move(old(State()), d)
    {
      ghost var s0 := State();
      Rules.MovePreservesInv(s0, d);
      var dx, dy := Dx(d), Dy(d);
      var newX, newY := rx + dx, ry + dy;
      var next := Get(newX, newY);
      if next.Some? && Traversable(next.value) {
        Walk(d);
        moved := true;
      } else if next.Some? && next.value.Crate? {
        var nextX, nextY := newX + dx, newY + dy;
        var beyond := Get(nextX, nextY);
        if beyond.Some? && Traversable(beyond.value) {
          Push(d);
          moved := true;
        } else {
          Rules.MoveOutcome(s0, d);
          moved := false;
        }
      } else {
        Rules.MoveOutcome(s0, d);
        moved := false;
      }
    }

    /** The plain-step branch of `deplacerRobot`, inline code there; an internal step of `Move`. */
    method Walk(d: Direction)
      requires Rules.Shaped(State()) && Rules.CanWalk(State(), d)
      modifies this`rx, this`ry, this`moves, grid
      ensures (State(), true) == Rules.Move(old(State()), d)
    {
      Rules.WalkIs(State(), d);
      StepRobot(d);
    }

    /**
     * The push branch of `deplacerRobot`, inline code there: the crate goes
     * first, then the robot. An internal step of `Move`.
     */
    method Push(d: Direction)
      requires Rules.Shaped(State()) && Rules.CanPush(State(), d)
      modifies this`rx, this`ry, this`moves, grid
      ensures (State(), true) == Rules.Move(old(State()), d)
    {
      ghost var s0 := State();
      Rules.PushIs(s0, d);
      var nextX, nextY := rx + 2 * Dx(d), ry + 2 * Dy(d);
      var onGoal := Contains(goals, Position(nextX, nextY));
      Write(nextX, nextY, Crate(onGoal));
      ghost var pushed := Contents();
      assert State() == s0.(cells := pushed);
      StepRobot(d);
      assert State() == Rules.Relocate(s0, pushed, d);
    }

    /** `finDePartie`: every goal position holds a crate, whatever its flag. */
    method IsFinished() returns (done: bool)
      requires Valid()
      ensures done == Rules.Complete(State())
    {
      for k := 0 to |goals|
        invariant forall m :: 0 <= m < k ==> Rules.CrateAt(Contents(), goals[m])
      {
        var e := Get(goals[k].x, goals[k].y);
        if !(e.Some? && e.value.Crate?) {
          return false;
        }
      }
      return true;
    }

    /** `toString`: the symbols of each row, each row followed by a newline. */
    method ToString() returns (s: string)
      requires Valid()
      ensures s == Rules.Render(Contents())
    {
      s := "";
      for i := 0 to Height()
        invariant s == Rules.Render(Contents()[..i])
      {
        ghost var before := s;
        for j := 0 to Width()
          invariant s == before + Rules.RowText(Contents()[i][..j])
        {
          s := s + [Symbol(grid[i, j])];
          assert Contents()[i][..j + 1][..j] == Contents()[i][..j];
        }
        s := s + "\n";
        assert Contents()[i][..Width()] == Contents()[i];
        assert Contents()[..i + 1][..i] == Contents()[..i];
      }
      assert Contents()[..Height()] == Contents();
    }
  }
}
