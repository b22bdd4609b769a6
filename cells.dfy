/**
 * The cell kinds of a board: the abstract class `Element` and its
 * subclasses `Mur`, `Vide`, `Sol`, `Destination`, `Caisse` and `Robot`.
 * The subclass hierarchy is one datatype; the crate's on-goal flag and the
 * robot's facing are its only variable parts. Class `Element` below keeps
 * the per-object fields: the final symbol and the mutable coordinates.
 */
module Cells {
  import opened Directions

  /**
   * `Mur`, `Vide`, `Sol`, `Destination`, `Caisse` (with its
   * `estSurDestination` flag) and `Robot` (with its direction).
   * `Vide` (Empty) and `Sol` (Floor) look alike but are made in different
   * places: only a space in a level gives Empty, and a vacated cell gives Floor.
   */
  datatype Cell = Wall | Empty | Floor | Goal | Crate(onGoal: bool) | Robot(facing: Direction)

  /** The symbol each subclass passes to the `Element` constructor. */
  function BaseSymbol(c: Cell): char
  {
    match c
    case Wall => '#'
    case Empty => ' '
    case Floor => ' '
    case Goal => '.'
    case Crate(_) => '$'
    case Robot(_) => '@'
  }

  /** `getSymbole`: the base symbol, except that `Caisse` overrides it with `*` on a goal. */
  function Symbol(c: Cell): char
  {
    if c.Crate? && c.onGoal then '*' else BaseSymbol(c)
  }

  /** `peutTraverser`: constant per subclass, reading no state. */
  function Traversable(c: Cell): bool
  {
    match c
    case Wall => false
    case Empty => true
    case Floor => true
    case Goal => true
    case Crate(_) => false
    case Robot(_) => false
  }

  /** The state a freshly constructed element has: a crate off goal, a robot facing right. */
  predicate Initial(c: Cell)
  {
    (c.Crate? ==> !c.onGoal) && (c.Robot? ==> c.facing == Right)
  }

  /** Two cells of the same subclass, whatever their flag or facing. */
  predicate SameKind(a: Cell, b: Cell)
  {
    match (a, b)
    case (Wall, Wall) => true
    case (Empty, Empty) => true
    case (Floor, Floor) => true
    case (Goal, Goal) => true
    case (Crate(_), Crate(_)) => true
    case (Robot(_), Robot(_)) => true
    case _ => false
  }

  /**
   * The level-text decoding of the board constructor: `#` wall, space
   * empty, `.` goal, `$` new crate, `@` new robot, anything else floor.
   */
  function FromChar(ch: char): (c: Cell)
    ensures Initial(c)
  {
    match ch
    case '#' => Wall
    case ' ' => Empty
    case '.' => Goal
    case '$' => Crate(false)
    case '@' => Robot(Right)
    case _ => Floor
  }

  /** The five level characters, each the symbol of the cell it decodes to. */
  predicate LevelChar(ch: char)
  {
    ch == '#' || ch == ' ' || ch == '.' || ch == '$' || ch == '@'
  }

  /** Traversable are exactly Empty, Floor and Goal; walls, crates and robots block. */
  lemma TraversableKinds(c: Cell)
    ensures Traversable(c) <==> c.Empty? || c.Floor? || c.Goal?
  {
  }

  /** Traversability depends on the subclass only, never on the flag or the facing. */
  lemma TraversableByKind(a: Cell, b: Cell)
    requires SameKind(a, b)
    ensures Traversable(a) == Traversable(b)
  {
  }

  /**
   * The symbols: `#`, space, space, `.`, `$` or `*` by the flag, and `@`
   * whatever the robot faces.
   */
  lemma Symbols(b: bool, d: Direction)
    ensures Symbol(Wall) == '#' && Symbol(Empty) == ' ' && Symbol(Floor) == ' ' && Symbol(Goal) == '.'
    ensures Symbol(Crate(b)) == (if b then '*' else '$')
    ensures Symbol(Robot(d)) == '@'
  {
  }

  /** Only a crate on a goal shows something other than its base symbol. */
  lemma SymbolOverride(c: Cell)
    ensures Symbol(c) != BaseSymbol(c) <==> c == Crate(true)
  {
  }

  /** Each variant comes from exactly one level character; every other character gives floor. */
  lemma FromCharOnly(ch: char)
    ensures FromChar(ch).Wall? <==> ch == '#'
    ensures FromChar(ch).Empty? <==> ch == ' '
    ensures FromChar(ch).Goal? <==> ch == '.'
    ensures FromChar(ch).Crate? <==> ch == '$'
    ensures FromChar(ch).Robot? <==> ch == '@'
    ensures FromChar(ch).Floor? <==> !LevelChar(ch)
  {
  }

  /** Decoding a level character and showing the cell gives the character back. */
  lemma FromCharSymbol(ch: char)
    requires LevelChar(ch)
    ensures Symbol(FromChar(ch)) == ch
  {
  }

  /**
   * One `Element` object: its final symbol, its variant with the variant's
   * own mutable state, and its mutable coordinates.
   */
  class Element {
    const symbol: char
    var cell: Cell
    var x: int
    var y: int

    /** The final symbol is the one of the object's subclass. */
    ghost predicate Valid()
      reads this
    {
      symbol == BaseSymbol(cell)
    }

    /** `new Mur()`, `new Caisse()`, `new Robot()`, ...; coordinates start at 0. */
    constructor (c: Cell)
      requires Initial(c)
      ensures Valid() && cell == c && x == 0 && y == 0
    {
      symbol := BaseSymbol(c);
      cell := c;
      x, y := 0, 0;
    }

    /** `getSymbole`, with the crate's override. */
    function GetSymbol(): (r: char)
      requires Valid()
      reads this
      ensures r == Symbol(cell)
      ensures r == symbol || (cell.Crate? && r == '*')
    {
      if cell.Crate? && cell.onGoal then '*' else symbol
    }

    /** `peutTraverser`. */
    function CanCross(): (r: bool)
      reads this
      ensures r <==> cell.Empty? || cell.Floor? || cell.Goal?
    {
      Traversable(cell)
    }

    /** `setX`: only x changes. */
    method SetX(v: int)
      modifies this`x
      ensures x == v
    {
      x := v;
    }

    /** `setY`: only y changes. */
    method SetY(v: int)
      modifies this`y
      ensures y == v
    {
      y := v;
    }

    /** `Caisse.setEstSurDestination`: the crate's flag, and nothing else, changes. */
    method SetOnGoal(b: bool)
      requires Valid() && cell.Crate?
      modifies this`cell
      ensures Valid() && cell == Crate(b) && SameKind(old(cell), cell)
    {
      cell := Crate(b);
    }

    /** `Robot.setDirection`: the robot's facing, and nothing else, changes. */
    method SetDirection(d: Direction)
      requires Valid() && cell.Robot?
      modifies this`cell
      ensures Valid() && cell == Robot(d) && SameKind(old(cell), cell)
    {
      cell := Robot(d);
    }
  }
}
