/**
 * Class `Position`: a pair of integer coordinates compared by value. The
 * goal list of a board is a list of positions searched with `equals`.
 */
module Positions {

  /** A column `x` and a row `y`. */
  datatype Position = Position(x: int, y: int)

  /**
   * The argument of `equals`, which Java types as any object: either a
   * position or some object of another class.
   */
  datatype Object = PositionObject(p: Position) | OtherObject

  /** `equals`: another position with the same x and the same y. */
  predicate Equals(p: Position, o: Object)
  {
    match o
    case PositionObject(q) => p.x == q.x && p.y == q.y
    case OtherObject => false
  }

  /** `equals` is value equality on positions. */
  lemma EqualsIsCoordinateEquality(p: Position, q: Position)
    ensures Equals(p, PositionObject(q)) <==> p.x == q.x && p.y == q.y
    ensures Equals(p, PositionObject(q)) <==> p == q
  {
  }

  /** `equals` is reflexive and symmetric. */
  lemma EqualsReflexiveSymmetric(p: Position, q: Position)
    ensures Equals(p, PositionObject(p))
    ensures Equals(p, PositionObject(q)) == Equals(q, PositionObject(p))
  {
  }

  /** A position never equals an object of another class. */
  lemma NeverEqualsOther(p: Position)
    ensures !Equals(p, OtherObject)
  {
  }

  const TwoTo31: int := 0x8000_0000
  const TwoTo32: int := 0x1_0000_0000

  /** Java `int` arithmetic: the value reduced into [-2^31, 2^31). */
  function Int32(v: int): (r: int)
    ensures -TwoTo31 <= r < TwoTo31
    ensures (r - v) % TwoTo32 == 0
  {
    (v + TwoTo31) % TwoTo32 - TwoTo31
  }

  /** `hashCode`: 31 * x + y in 32-bit arithmetic. */
  function HashCode(p: Position): int
  {
    Int32(31 * p.x + p.y)
  }

  /** Equal positions have equal hash codes, as `HashSet` and `HashMap` require. */
  lemma EqualsImpliesSameHash(p: Position, o: Object)
    requires Equals(p, o)
    ensures o.PositionObject? && HashCode(p) == HashCode(o.p)
  {
  }

  /** The hash is not unique: (1, 0) and (0, 31) differ but both hash to 31. */
  lemma HashCollision()
    ensures !Equals(Position(1, 0), PositionObject(Position(0, 31)))
    ensures HashCode(Position(1, 0)) == HashCode(Position(0, 31)) == 31
  {
  }

  /**
   * `List.contains`: some element `e` of the list with `p.equals(e)`,
   * searched from the front.
   */
  function Contains(list: seq<Position>, p: Position): (r: bool)
    ensures r <==> p in list
  {
    if list == [] then false
    else
      EqualsIsCoordinateEquality(p, list[0]);
      Equals(p, PositionObject(list[0])) || Contains(list[1..], p)
  }
}
