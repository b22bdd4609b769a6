/**
 * Class `GestionnaireDeLevels`: the fixed list of level file paths and the
 * index of the level being played. Paths are plain strings here; reading
 * the files is not part of this model.
 */
module Levels {
  import opened Options

  class LevelManager {
    /** `cheminsDesCartes`, filled once by the constructor. */
    const paths: seq<string>
    /** `niveauCourant`, counted from 0. */
    var current: int

    ghost predicate Valid()
      reads this
    {
      current >= 0
    }

    /** The three levels map1, map2, map3 in that order, starting at the first. */
    constructor ()
      ensures Valid() && current == 0
      ensures paths == ["./src/map/map1.txt", "./src/map/map2.txt", "./src/map/map3.txt"]
    {
      paths := ["./src/map/map1.txt", "./src/map/map2.txt", "./src/map/map3.txt"];
      current := 0;
    }

    /** `getNiveauCourant`: the path at the cursor, or None (Java's null) past the end. */
    function CurrentLevel(): (r: Option<string>)
      reads this
      requires Valid()
      ensures r.Some? <==> current < |paths|
      ensures r.Some? ==> r.value == paths[current]
    {
      if current < |paths| then Some(paths[current]) else None
    }

    /**
     * `passerAuNiveauSuivant`: the cursor always moves on, also past the
     * end; the result says whether there is a level there.
     */
    method Advance() returns (more: bool)
      requires Valid()
      modifies this
      ensures Valid() && current == old(current) + 1
      ensures more <==> CurrentLevel().Some?
    {
      current := current + 1;
      more := current < |paths|;
    }

    /** `estDernierNiveau`: the current level exists and is the last one. */
    function IsLast(): (r: bool)
      reads this
      requires Valid()
      ensures r <==> CurrentLevel().Some? && current + 1 >= |paths|
    {
      current == |paths| - 1
    }

    /** `reinitialiserNiveaux`: back to the first level. */
    method Reset()
      requires Valid()
      modifies this
      ensures Valid() && current == 0
      ensures |paths| > 0 ==> CurrentLevel() == Some(paths[0])
    {
      current := 0;
    }
  }

  /** On the last level, the cursor is size - 1 and the current path is the last one. */
  lemma {:induction false} LastThenNoMore(m: LevelManager)
    requires m.Valid() && m.IsLast()
    ensures m.CurrentLevel() == Some(m.paths[|m.paths| - 1])
    ensures m.current + 1 == |m.paths|
  {
  }
}
