/**
 * The four moving directions of the robot (enum `Direction`) and the unit
 * offset that the board's move operation gives each of them.
 */
module Directions {

  /** `HAUT`, `BAS`, `GAUCHE`, `DROITE`, in the enum's declaration order. */
  datatype Direction = Up | Down | Left | Right

  /**
   * The (dx, dy) step of a direction, with y growing downwards: up is
   * (0, -1), down (0, 1), left (-1, 0), right (1, 0).
   */
  function Offset(d: Direction): (delta: (int, int))
    ensures (delta.0 == 0) != (delta.1 == 0)
    ensures -1 <= delta.0 <= 1 && -1 <= delta.1 <= 1
  {
    match d
    case Up => (0, -1)
    case Down => (0, 1)
    case Left => (-1, 0)
    case Right => (1, 0)
  }

  /** Column step of a direction. */
  function Dx(d: Direction): int { Offset(d).0 }

  /** Row step of a direction. */
  function Dy(d: Direction): int { Offset(d).1 }

  /** There are exactly four directions. */
  lemma ExactlyFour(d: Direction)
    ensures d == Up || d == Down || d == Left || d == Right
    ensures |{Up, Down, Left, Right}| == 4
  {
  }

  /** Up and down, left and right, step in opposite directions. */
  lemma OppositeOffsets()
    ensures Dx(Up) == -Dx(Down) && Dy(Up) == -Dy(Down)
    ensures Dx(Left) == -Dx(Right) && Dy(Left) == -Dy(Right)
    ensures Dy(Up) == -1 && Dy(Down) == 1 && Dx(Left) == -1 && Dx(Right) == 1
  {
  }
}
