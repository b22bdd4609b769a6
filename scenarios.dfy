/** Concrete games played on the model. */
module Scenarios {
  import opened Directions
  import opened Positions
  import opened Cells
  import opened Rules

  const WallRow: seq<Cell> := [Wall, Wall, Wall, Wall, Wall]

  /** The rows `#####`, `#@$.#`, `#####` decoded. */
  const PushStart: Grid := [WallRow, [Wall, Robot(Right), Crate(false), Goal, Wall], WallRow]

  /** The same board once the crate is on the goal. */
  const PushEnd: Grid := [WallRow, [Wall, Floor, Robot(Right), Crate(true), Wall], WallRow]

  lemma DecodeBefore()
    ensures var rows := ["#####", "#@$.#", "#####"];
      && WellFormed(rows) && RobotAt(rows, 1, 1)
      && Parsed(rows, 1, 1) == Level(PushStart, 1, 1, [Position(3, 1)], 0)
  {
    var rows := ["#####", "#@$.#", "#####"];
    assert RobotAt(rows, 1, 1);
    forall i, j | RobotAt(rows, j, i)
      ensures j == 1 && i == 1
    {
      assert i == 0 || i == 1 || i == 2;
      assert j == 0 || j == 1 || j == 2 || j == 3 || j == 4;
    }
    SameGrid(ParseCells(rows), PushStart);
    assert RowGoals(rows[0], 0, 5) == [] && RowGoals(rows[2], 2, 5) == [];
    assert RowGoals(rows[1], 1, 5) == [Position(3, 1)];
  }

  lemma PushRight()
    ensures Move(Level(PushStart, 1, 1, [Position(3, 1)], 0), Right) == (Level(PushEnd, 2, 1, [Position(3, 1)], 1), true)
  {
    var l := Level(PushStart, 1, 1, [Position(3, 1)], 0);
    assert CanPush(l, Right);
    PushIs(l, Right);
    assert Restore(l.goals, Position(1, 1)) == Floor;
    assert Contains(l.goals, Position(3, 1));
    var pushed := Put(PushStart, 3, 1, Crate(true));
    assert PushStart[1][3 := Crate(true)] == [Wall, Robot(Right), Crate(false), Crate(true), Wall];
    assert pushed == [WallRow, [Wall, Robot(Right), Crate(false), Crate(true), Wall], WallRow];
    var vacated := Put(pushed, 1, 1, Floor);
    assert pushed[1][1 := Floor] == [Wall, Floor, Crate(false), Crate(true), Wall];
    assert vacated == [WallRow, [Wall, Floor, Crate(false), Crate(true), Wall], WallRow];
    assert vacated[1][2 := Robot(Right)] == PushEnd[1];
    assert Put(vacated, 2, 1, Robot(Right)) == PushEnd;
  }

  lemma ShowAfter()
    ensures Render(PushEnd) == JoinLines(["#####", "# @*#", "#####"])
    ensures Complete(Level(PushEnd, 2, 1, [Position(3, 1)], 1))
  {
    RowTextIs(WallRow, "#####");
    RowTextIs(PushEnd[1], "# @*#");
    RenderIs(PushEnd, ["#####", "# @*#", "#####"]);
  }

  /**
   * One crate between the robot and the only goal: the board renders as
   * its rows; pushing right puts the crate on the goal, counts one move and
   * wins the game.
   */
  lemma PushOntoGoal()
    ensures var rows := ["#####", "#@$.#", "#####"];
      && WellFormed(rows) && RobotAt(rows, 1, 1)
      && Render(ParseCells(rows)) == JoinLines(rows)
      && var (l, ok) := Move(Parsed(rows, 1, 1), Right);
         ok && l.moves == 1 && Complete(l)
         && Render(l.cells) == JoinLines(["#####", "# @*#", "#####"])
  {
    var rows := ["#####", "#@$.#", "#####"];
    DecodeBefore();
    RenderParsed(rows);
    PushRight();
    ShowAfter();
  }

  const WallRow3: seq<Cell> := [Wall, Wall, Wall]

  /** The rows `###`, `#@#`, `###` decoded. */
  const Boxed: Grid := [WallRow3, [Wall, Robot(Right), Wall], WallRow3]

  lemma DecodeBoxed()
    ensures var rows := ["###", "#@#", "###"];
      && WellFormed(rows)
      && Parsed(rows, 1, 1) == Level(Boxed, 1, 1, [], 0)
  {
    var rows := ["###", "#@#", "###"];
    assert RobotAt(rows, 1, 1);
    forall i, j | RobotAt(rows, j, i)
      ensures j == 1 && i == 1
    {
      assert i == 0 || i == 1 || i == 2;
      assert j == 0 || j == 1 || j == 2;
    }
    SameGrid(ParseCells(rows), Boxed);
    assert RowGoals(rows[0], 0, 3) == [] && RowGoals(rows[1], 1, 3) == [] && RowGoals(rows[2], 2, 3) == [];
  }

  /** A robot walled in on all four sides cannot move, and the counter stays at 0. */
  lemma BoxedIn(d: Direction)
    ensures var rows := ["###", "#@#", "###"];
      && WellFormed(rows)
      && Move(Parsed(rows, 1, 1), d) == (Parsed(rows, 1, 1), false)
  {
    DecodeBoxed();
    var l := Level(Boxed, 1, 1, [], 0);
    var t := Target(l, d);
    assert l.cells[t.y][t.x] == Wall;
    Rejections(l, d);
  }
}
