# Sokoban game model, verified in Dafny

This project models the game core of a Java Sokoban (package `modele`): the
board `Carte` with its push-aware move `deplacerRobot`, its win test
`finDePartie` and its text rendering; the cell classes `Element`, `Mur`,
`Vide`, `Sol`, `Destination`, `Caisse` and `Robot`; the value class
`Position`; the enum `Direction`; and the level cursor
`GestionnaireDeLevels`.

Layout, one module per file:

- `options.dfy` (`Options`): `Option`, standing for a Java reference that may be null.
- `directions.dfy` (`Directions`): `HAUT`, `BAS`, `GAUCHE`, `DROITE` as `Up`, `Down`, `Left`, `Right`, and their unit offsets.
- `positions.dfy` (`Positions`): `Position`, its `equals` and `hashCode`, and `List.contains` over positions.
- `cells.dfy` (`Cells`): the datatype `Cell = Wall | Empty | Floor | Goal | Crate(onGoal) | Robot(facing)` for the subclasses of `Element` (Wall = `Mur`, Empty = `Vide`, Floor = `Sol`, Goal = `Destination`, Crate = `Caisse`), their symbols and traversability, the decoding of level characters, and a class `Element` with the per-object final symbol and mutable coordinates.
- `rules.dfy` (`Rules`): the board as a value (`Level`), and the meaning of construction, of the move, of the win test and of rendering. The game's properties are proved here.
- `board.dfy` (`Boards`): class `Board` (`Carte`). It has a fixed-size `array2<Cell>` rewritten in place, the robot's coordinates `rx, ry`, the goal list and the move counter. Every method is proved against the functions of `Rules`; `Valid()` is `Rules.Inv` of the board's value.
- `levels.dfy` (`Levels`): class `LevelManager` (`GestionnaireDeLevels`).
- `scenarios.dfy` (`Scenarios`): two concrete games.

The board invariant `Rules.Inv` says:
- exactly one cell holds the robot, and it is the cell at the stored `(rx, ry)`;
- every goal lies inside the grid;
- a `Goal` cell lies only on a goal position;
- `Wall`, `Empty` and `Floor` cells lie only off the goals;
- a crate's flag equals the membership of its position in the goal list.

Cells are values. In Java, each element object stores its own `x`, `y`. Here a
cell's coordinates are its grid indices, and the robot object that the
board aliases becomes the fields `rx, ry` plus the invariant above. The
constructor, `Decode` and `ParsedInv` establish that invariant;
`MovePreservesInv` keeps it.

Points where the code's behaviour may surprise, and which the model follows:
- the robot's symbol is always `@`, whatever it faces;
- a board without an `@` is not rejected by the code: it later fails with a null robot. Here this is a precondition, `WellFormed`;
- `finDePartie` looks only at whether a goal holds a `Caisse`, never at the crate's flag.

The doc comment of `Position.hashCode` calls the hash unique. It is not: `HashCollision`
shows that (1, 0) and (0, 31) hash alike. Only "equal positions hash alike"
(`EqualsImpliesSameHash`) holds, and that is what hash-based collections need.

The operations `getNbMouvements` and `getDestinations` are the functions
`Board.MoveCount` and `Board.Destinations`, which return the fields. The
getters `getX`, `getY`, `getDirection` and `isEstSurDestination` are reads
of the fields `x`, `y` and of the datatype fields `facing` and `onGoal`.

## Model

| member | source | states |
|---|---|---|
| `Directions.Offset` | src/modele/Carte.java:129-135 | each direction's offset has exactly one non-zero component, and it is -1 or 1 |
| `Directions.ExactlyFour` | src/modele/Direction.java:8-27 | there are exactly four directions |
| `Directions.OppositeOffsets` | src/modele/Carte.java:129-135 | up/down and left/right have negated offsets; up is dy = -1, down dy = 1, left dx = -1, right dx = 1 |
| `Positions.Equals` | src/modele/Position.java:40-47 | definition of `equals` over a position and any object; its properties are stated by the `EqualsIsCoordinateEquality`, `EqualsReflexiveSymmetric` and `NeverEqualsOther` rows |
| `Positions.EqualsIsCoordinateEquality` | src/modele/Position.java:40-47 | `equals` holds iff both x and y match, i.e. iff the positions are the same value |
| `Positions.EqualsReflexiveSymmetric` | src/modele/Position.java:41-46 | `equals` is reflexive and symmetric |
| `Positions.NeverEqualsOther` | src/modele/Position.java:43-44 | a position never equals an object of another class |
| `Positions.Int32` | src/modele/Position.java:55-57 | Java int arithmetic: the result lies in [-2^31, 2^31) and is congruent to the exact value modulo 2^32 |
| `Positions.HashCode` | src/modele/Position.java:55-57 | definition of `hashCode`, 31 * x + y in 32-bit arithmetic; its properties are stated by the `Int32`, `EqualsImpliesSameHash` and `HashCollision` rows |
| `Positions.EqualsImpliesSameHash` | src/modele/Position.java:55-57 | equal positions have equal `hashCode` (31 * x + y in 32 bits) |
| `Positions.HashCollision` | src/modele/Position.java:50-57 | the hash is not unique: (1, 0) and (0, 31) are unequal and both hash to 31 |
| `Positions.Contains` | src/modele/Carte.java:115-116 | `destinations.contains(pos)`, searched with `equals`, is true iff the position is in the list |
| `Cells.BaseSymbol` | src/modele/Element.java:14 | definition of the symbol each subclass passes to the `Element` constructor; its properties are stated by the `Symbols`, `SymbolOverride` and `Element.constructor` rows |
| `Cells.Symbol` | src/modele/Caisse.java:48-51 | definition of `getSymbole` with the crate's override; its properties are stated by the `Symbols`, `SymbolOverride`, `FromCharSymbol` and `Element.GetSymbol` rows |
| `Cells.Traversable` | src/modele/Element.java:51 | definition of `peutTraverser` per subclass; its properties are stated by the `TraversableKinds`, `TraversableByKind` and `Element.CanCross` rows |
| `Cells.FromChar` | src/modele/Carte.java:51-64 | every cell the constructor creates is in its initial state: a crate off goal, a robot facing right |
| `Cells.FromCharOnly` | src/modele/Carte.java:51-64 | only `#` gives a wall, only space an empty cell, only `.` a goal, only `$` a crate, only `@` the robot; every other character, `*` and `+` included, gives floor |
| `Cells.FromCharSymbol` | src/modele/Carte.java:51-64 | for the five level characters, the decoded cell's symbol is the character itself |
| `Cells.TraversableKinds` | src/modele/Element.java:46-51 | exactly `Vide`, `Sol` and `Destination` are traversable; `Mur`, `Caisse` and `Robot` are not |
| `Cells.TraversableByKind` | src/modele/Element.java:46-51 | traversability depends on the subclass only, never on the crate's flag or the robot's facing |
| `Cells.Symbols` | src/modele/Element.java:41-43 | symbols `#`, space (empty and floor), `.`, `$` or `*` by the flag, and `@` whatever the robot faces |
| `Cells.SymbolOverride` | src/modele/Caisse.java:48-51 | the displayed symbol differs from the constructor's symbol exactly for a crate on a goal (`*`) |
| `Cells.Element.constructor` | src/modele/Element.java:32-34 | a new element holds its subclass's symbol in the final field and starts at coordinates (0, 0); only initial cells (a crate off goal, a robot facing right) can be made |
| `Cells.Element.GetSymbol` | src/modele/Caisse.java:48-51 | `getSymbole` is the final symbol, or `*` for a crate on a goal |
| `Cells.Element.CanCross` | src/modele/Element.java:51 | `peutTraverser` is true exactly for empty, floor and goal cells, and reads no mutable state beyond the variant |
| `Cells.Element.SetX` | src/modele/Element.java:67-69 | afterwards x is the new value; y, the symbol and the variant are untouched |
| `Cells.Element.SetY` | src/modele/Element.java:85-87 | afterwards y is the new value; x, the symbol and the variant are untouched |
| `Cells.Element.SetOnGoal` | src/modele/Caisse.java:38-40 | afterwards the crate's flag is the new value; it is still a crate and its coordinates are untouched |
| `Cells.Element.SetDirection` | src/modele/Robot.java:50-52 | afterwards the robot faces the new direction; it is still a robot and its coordinates are untouched |
| `Rules.Restore` | src/modele/Carte.java:114-121 | definition of what `restaurerSolOuDestination` writes: `Destination` on a goal position, `Sol` elsewhere; its use is stated by the `WalkEffect`, `PushEffect` and `Board.RestoreCell` rows |
| `Rules.Move` | src/modele/Carte.java:128-179 | definition of `deplacerRobot` on the board's value; its properties are stated by the `WalkEffect`, `PushEffect`, `MoveOutcome`, `Rejections`, `MovePreservesInv` and `WallsAndEmptiesStable` rows, and `Board.Move` is proved equal to it |
| `Rules.WalkEffect` | src/modele/Carte.java:142-151 | a step onto an inside, traversable target puts the robot there facing the direction; the old cell becomes `Destination` iff its position is a goal, else `Sol`; the counter goes up by 1; no other cell changes |
| `Rules.PushEffect` | src/modele/Carte.java:152-175 | a push moves the crate one cell on, with its flag equal to goal membership there; the robot takes the crate's old cell and its own old cell is restored; the counter goes up by exactly 1; no other cell changes |
| `Rules.MoveOutcome` | src/modele/Carte.java:142-178 | a move succeeds iff it is a plain step or a push; a failed move returns false and leaves the whole state (grid, robot position and facing, goals, counter) unchanged |
| `Rules.Rejections` | src/modele/Carte.java:142-178 | a target outside or a wall, or a crate whose next cell is outside, a wall or another crate, is rejected with nothing changed |
| `Rules.MovePreservesInv` | src/modele/Carte.java:137-175 | every move keeps one robot at its stored coordinates, crate flags equal to goal membership, the goal list and the grid size; the counter never decreases |
| `Rules.WallsAndEmptiesStable` | src/modele/Carte.java:128-179 | no move overwrites or creates a wall, and no move creates an empty (`Vide`) cell |
| `Rules.Complete` | src/modele/Carte.java:186-194 | definition of `finDePartie`: every goal position holds a crate, whatever its flag; its properties are stated by the `CompleteWithoutGoals`, `Board.IsFinished` and `PushOntoGoal` rows |
| `Rules.CompleteWithoutGoals` | src/modele/Carte.java:186-194 | with no goals the game is won from the start |
| `Rules.ParseCells` | src/modele/Carte.java:47-64 | definition of the grid the constructor builds, cell by cell from `FromChar`; its properties are stated by the `ParsedInv`, `RenderParsed`, `Board.Decode` and `Board.constructor` rows |
| `Rules.Goals` | src/modele/Carte.java:54-57 | definition of the goal list the constructor builds; its properties are stated by the `GoalsExact`, `GoalsOrdered` and `ParsedInv` rows |
| `Rules.GoalsExact` | src/modele/Carte.java:54-57 | a position is in the goal list iff the input has a `.` there (within row 0's width) |
| `Rules.GoalsOrdered` | src/modele/Carte.java:47-57 | the goal list is in row-major order, without repetition |
| `Rules.ParsedInv` | src/modele/Carte.java:38-67 | the constructed board has height = number of rows, width = length of row 0, counter 0, and satisfies the board invariant with the robot at its `@` |
| `Rules.Render` | src/modele/Carte.java:209-219 | definition of `toString`: each row's symbols followed by a newline; its properties are stated by the `RenderParsed`, `Board.ToString` and `PushOntoGoal` rows |
| `Rules.RenderParsed` | src/modele/Carte.java:209-219 | right after construction, rendering gives back the input rows, each followed by a newline, for rows of one length made of `#`, space, `.`, `$`, `@` |
| `Boards.Board.constructor` | src/modele/Carte.java:38-69 | the grid decodes the rows cell by cell, the goals are the `.` positions in reading order, the robot is at the `@`, the counter is 0, and the invariant holds |
| `Boards.Board.Decode` | src/modele/Carte.java:47-68 | the nested loops fill every cell (x, y) from character x of row y, collect the goal list, and find the `@` |
| `Boards.Board.Height` | src/modele/Carte.java:88-90 | the number of rows, at least 1 |
| `Boards.Board.Width` | src/modele/Carte.java:96-98 | the length of the rows, at least 1 |
| `Boards.Board.MoveCount` | src/modele/Carte.java:200-202 | definition of `getNbMouvements`, the counter field; how moves change it is stated by the `WalkEffect`, `PushEffect`, `MoveOutcome` and `MovePreservesInv` rows |
| `Boards.Board.Destinations` | src/modele/Carte.java:225-227 | definition of `getDestinations`, the goal list as a value; its contents are stated by the `GoalsExact`, `GoalsOrdered` and `Board.constructor` rows, and `MovePreservesInv` keeps it |
| `Boards.Board.Get` | src/modele/Carte.java:77-82 | returns the cell iff 0 <= x < width and 0 <= y < height, otherwise None; it never fails |
| `Boards.Board.RestoreCell` | src/modele/Carte.java:114-121 | the cell becomes `Destination` if its position is in the goal list, `Sol` otherwise; no other cell changes |
| `Boards.Board.StepRobot` | src/modele/Carte.java:143-150 | restores the robot's cell, writes the robot on the target facing the direction, moves the stored coordinates and adds one move |
| `Boards.Board.Walk` | src/modele/Carte.java:142-151 | the plain-step branch produces exactly the value-level step |
| `Boards.Board.Push` | src/modele/Carte.java:152-176 | the push branch produces exactly the value-level push |
| `Boards.Board.Move` | src/modele/Carte.java:128-179 | the new board and the result are those of `Rules.Move`, so every property proved of it holds; the invariant is kept |
| `Boards.Board.IsFinished` | src/modele/Carte.java:186-194 | true iff every goal position currently holds a crate, whatever its flag |
| `Boards.Board.ToString` | src/modele/Carte.java:209-219 | the symbols of each row, each row followed by a newline |
| `Levels.LevelManager.constructor` | src/modele/GestionnaireDeLevels.java:28-34 | the paths are map1, map2, map3 in that order, and the cursor is 0 |
| `Levels.LevelManager.CurrentLevel` | src/modele/GestionnaireDeLevels.java:42-47 | the path at the cursor when the cursor is below the number of levels, else None |
| `Levels.LevelManager.Advance` | src/modele/GestionnaireDeLevels.java:55-58 | the cursor always goes up by one, even past the end; the result is true iff a level exists at the new cursor |
| `Levels.LevelManager.IsLast` | src/modele/GestionnaireDeLevels.java:65-67 | true iff the current level exists and no level follows it |
| `Levels.LevelManager.Reset` | src/modele/GestionnaireDeLevels.java:72-74 | the cursor is 0 again, so the current level is the first path |
| `Levels.LastThenNoMore` | src/modele/GestionnaireDeLevels.java:65-67 | on the last level, the current path is the last one and the cursor is size - 1 |
| `Scenarios.PushOntoGoal` | src/modele/Carte.java:152-194 | `#####`, `#@$.#`, `#####`: the board renders as its rows; one move right succeeds and gives `#####`, `# @*#`, `#####`, 1 move, and a won game |
| `Scenarios.BoxedIn` | src/modele/Carte.java:142-178 | a robot walled in on all sides cannot move in any direction and the counter stays 0 |

## Left out

- Reading level files (`Lecture`), the console and Swing front ends, key handling and dialogs: the board takes its rows as a `seq<string>`, and level paths are plain strings.
- Java object identity: a vacated cell gets fresh `Sol`/`Destination` objects, and the `robot` field aliases a grid entry. Cells are values here; the alias becomes the fields `rx, ry` and the invariant. The fresh `Sol`/`Destination` objects made by `restaurerSolOuDestination` never get `setX`/`setY`, so their stored coordinates stay (0, 0) in the code. Only the robot's coordinates are ever read, so nothing observes this; the model uses grid indices for every cell instead.
- `Board.Move`: the push and plain-step branches are the helper methods `Push` and `Walk` rather than inline code; the order of the array writes is the code's own.
- Ill-formed level input: an empty row list, a row shorter than row 0, no `@` (null robot) or several `@` (only the last is bound). These are excluded by the constructor's precondition `WellFormed`.
- `getRobot`: there is no robot object; the robot is the cell at `(rx, ry)`, with `facing` for `getDirection`.
- `getDestinations` returns the live list in Java, so a caller could change it. Here it returns a value copy, and the goal list is fixed.
- The move counter, cell coordinates and the level cursor are unbounded integers; Java `int` overflow after 2^31 moves or calls is not modelled. `hashCode` does model the 32-bit wrap.
- `Positions.Equals`: the identity shortcut `this == o` is folded into the coordinate comparison, which it implies.
