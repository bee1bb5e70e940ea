# Mabula board engine in Dafny

This project models the rule engine of a student implementation of the board
game Mabula. The engine is the struct `Jeu` in `Mabula/jeuProtocole.swift`.
It moves the marble class `Bille` of
`Mabula/A01_Amzert-Nouguier/billeProtocole.swift`.

The engine holds two things:

- an 8 x 8 grid of optional marbles, `board[verticale][horizontale]`;
- a table from colour to that colour's marbles.

It answers placement, border and movement questions. It also performs the
recursive move `moveBilleAtPos`. That move first calls itself on the marble
found in the target cell, aimed one step further, and then writes the moved
marble into the target.

The model follows what the code does, slips included. Where its doc comments
promise something else, lemmas state what the code guarantees instead.

Files:

- `bille.dfy`: module `BilleProtocole`.
  - `class Bille`: a constant colour and two mutable coordinates.
  - `Settable`: the documented precondition of `setPosition`.
- `jeu.dfy`: module `JeuProtocole`.
  - `class Jeu`: fields `board` and `playerBalls`, with every operation of the
    engine.
  - Pure specification functions that the methods are proved against:
    - what `ballChainX` counts;
    - what the move checks answer;
    - the board and positions after a push (`PushBoard`, `PushPositions`).
- `jeu_properties.dfy`: module `JeuProprietes`. Lemmas that relate several
  operations, and statements of where the code departs from its
  documentation.

Modelling choices:

- The board is a `seq<seq<Bille?>>` field that the methods reassign, as
  Swift's value array `[[Bille?]]` is.
- Rows may have any length. Every subscript the code makes is a
  precondition, because Swift traps on an out-of-range index. So is every
  closed range `lo...hi` with `lo > hi`.
- A marble is a Dafny object. Board cells, the `playerBalls` sets and the
  push recursion all share it by reference.
- The loops of `ballChainX` are the methods `ScanNeighbours` and `ScanEdge`.
- The body of `moveBilleAtPos` is split at its guard into `MoveBilleAtPos`,
  `PushAndPlace`, `PushDisplaced` and `Place`. The statements and their
  order are unchanged.
- The push recursion takes two ghost parameters:
  - `pos`: a record of the marble positions at the call.
  - `depth`: a bound on the nesting.

  The source reads everything before it writes anything: every guard, every
  displaced marble and every step. So the whole descent is decided by the
  board and the positions at the top-level call, and `PushBoard` and
  `PushPositions` compute it from those.

## Model

| member | source | states |
|---|---|---|
| BilleProtocole.Settable | Mabula/A01_Amzert-Nouguier/billeProtocole.swift:23-24 | (predicate, precondition of `setPosition`) coordinates in 0..7 and none of the four corners |
| BilleProtocole.Bille.constructor | Mabula/A01_Amzert-Nouguier/billeProtocole.swift:50-54 | the new marble reports the given colour and both given coordinates through its getters |
| BilleProtocole.Bille.GetCouleur | Mabula/A01_Amzert-Nouguier/billeProtocole.swift:33-35 | returns the colour; it reads no mutable state, so no operation can change what it returns (`couleur` is a `let`) |
| BilleProtocole.Bille.GetPosHorizontale | Mabula/A01_Amzert-Nouguier/billeProtocole.swift:37-39 | returns the current horizontal coordinate; a read with no effect, so two calls with no `setPosition` between them agree |
| BilleProtocole.Bille.GetPosVerticale | Mabula/A01_Amzert-Nouguier/billeProtocole.swift:41-43 | returns the current vertical coordinate; a read with no effect |
| BilleProtocole.Bille.SetPosition | Mabula/A01_Amzert-Nouguier/billeProtocole.swift:45-48 | requires a settable cell; afterwards the getters report the new coordinates; only this marble changes and its colour stays |
| JeuProtocole.LeftHits | Mabula/jeuProtocole.swift:130-136 | the left matches in the first n steps of the first loop number at most n |
| JeuProtocole.RightHits | Mabula/jeuProtocole.swift:137-142 | the right matches in the first n steps number at most n |
| JeuProtocole.CountL | Mabula/jeuProtocole.swift:124-143 | `countL` after the first loop lies in 0..2 |
| JeuProtocole.CountR | Mabula/jeuProtocole.swift:122-143 | `countR` after the first loop lies in 0..2 |
| JeuProtocole.EdgeHits | Mabula/jeuProtocole.swift:145-167 | the same-colour marbles found in the first n rows scanned on column 0 or 7 number at most n |
| JeuProtocole.SameNbL | Mabula/jeuProtocole.swift:123-155 | final `sameNbL`: both row neighbours' matches plus the column-0 matches; since column 0 is scanned only `countL = 2 - leftMatches` times, at most 4 |
| JeuProtocole.SameNbR | Mabula/jeuProtocole.swift:121-167 | final `sameNbR`: only incremented inside `1...countR`, so it never exceeds 2 |
| JeuProtocole.ColumnDefinedCell | Mabula/jeuProtocole.swift:248-250 | when the column scan is defined, every cell `board[i][col]` it visits exists |
| JeuProtocole.ColumnHasEmptyIff | Mabula/jeuProtocole.swift:246-250 | the column-scan flag is set iff some scanned cell `board[k][col]` is empty |
| JeuProtocole.RowHasEmptyIff | Mabula/jeuProtocole.swift:251-254 | the row-scan flag is set iff some scanned cell of the row is empty |
| JeuProtocole.Step | Mabula/jeuProtocole.swift:275-277 | `abs(t-s)/(t-s)` (0 when equal) is 1 exactly when s < t, -1 exactly when t < s, 0 exactly when s == t |
| JeuProtocole.PushBoard | Mabula/jeuProtocole.swift:268-282 | the board after the push keeps its shape; when the guard passes the target cell holds the moved marble; when it fails the board is unchanged |
| JeuProtocole.PushPositions | Mabula/jeuProtocole.swift:268-282 | the record keeps its marbles; when the guard passes the moved marble's position is the target; when it fails nothing changes |
| JeuProtocole.Jeu.constructor | Mabula/jeuProtocole.swift:85-93 | `init` leaves an empty board (no rows) and an empty colour table |
| JeuProtocole.Jeu.IsOnBorder | Mabula/jeuProtocole.swift:99-110 | the three guards as written accept exactly (0,0) and (7,7) |
| JeuProtocole.Jeu.CanBeSetOnBorder | Mabula/jeuProtocole.swift:95-97 | answers false for every input on which it does not trap |
| JeuProtocole.Jeu.BallChain | Mabula/jeuProtocole.swift:113-115 | answers false for every input on which it does not trap, because `ballChainY` is false |
| JeuProtocole.Jeu.BallChainX | Mabula/jeuProtocole.swift:120-169 | true without reading the board when y is not 0 or 7; otherwise true iff `sameNbL <= 2` (the `sameNbR <= 2` half always holds) |
| JeuProtocole.Jeu.ScanNeighbours | Mabula/jeuProtocole.swift:130-143 | the first loop leaves `countL`, `countR` as CountL, CountR and `sameNbL` as the number of matches on both sides, which equals `(2-countL)+(2-countR)` |
| JeuProtocole.Jeu.ScanEdge | Mabula/jeuProtocole.swift:145-167 | a loop `for i in 1...n` on column col counts EdgeHits matches, between 0 and n; it requires n >= 1, as the closed range traps otherwise |
| JeuProtocole.Jeu.BallChainY | Mabula/jeuProtocole.swift:174-191 | the loop reads nothing and the result is false for every input |
| JeuProtocole.Jeu.CanPlayerMove | Mabula/jeuProtocole.swift:197-209 | false for a colour that is not a key; otherwise true iff some marble of that colour passes `canBilleMove`, whatever the order the set is visited in |
| JeuProtocole.Jeu.CanBilleMove | Mabula/jeuProtocole.swift:211-229 | true iff the marble passes `isOnBorder` and its row has an empty cell; the column branch is unreachable; changes nothing |
| JeuProtocole.Jeu.IsBorder | Mabula/jeuProtocole.swift:231-237 | true iff the cell holds a marble and is (0,0) or (7,7) |
| JeuProtocole.Jeu.CanBilleMoveAtPos | Mabula/jeuProtocole.swift:239-258 | the answer is MovableAtPos: the guard `(x==h or y==v) and isOnBorder(x,y)` plus an empty cell in the scanned range; changes nothing |
| JeuProtocole.Jeu.GetRange | Mabula/jeuProtocole.swift:260-266 | the range contains the target and lies within 0..7 when pos does; it is `0...target` when pos > target and `target...7` otherwise |
| JeuProtocole.Jeu.MoveBilleAtPos | Mabula/jeuProtocole.swift:268-282 | the new board is PushBoard and the new marble positions are PushPositions of the board and positions at the call; `playerBalls` is unchanged |
| JeuProtocole.Jeu.PushAndPlace | Mabula/jeuProtocole.swift:273-281 | once the guard has passed: makes the recursive call on the target's occupant, if any, then places the marble, giving PushBoard and PushPositions; `playerBalls` is unchanged |
| JeuProtocole.Jeu.PushDisplaced | Mabula/jeuProtocole.swift:274-278 | the recursive call on the target's occupant, aimed one step on from that marble's recorded position, yields the inner PushBoard and PushPositions (a no-op when that position fails the guard); `playerBalls` is unchanged |
| JeuProtocole.Jeu.Place | Mabula/jeuProtocole.swift:280-281 | writes the marble into the target cell, the only cell this call writes, and sets its position to the target; no other marble moves and `playerBalls` is unchanged |
| JeuProtocole.Jeu.GetBilleAtPos | Mabula/jeuProtocole.swift:284-286 | returns the cell `board[verticale][horizontale]` |
| JeuProtocole.Jeu.FreshGameCannotMove | Mabula/jeuProtocole.swift:91-92 | right after `init` no colour is a key of `playerBalls`, so `canPlayerMove` is false for every colour |
| JeuProprietes.IsOnBorderMissesDocumentedBorder | Mabula/jeuProtocole.swift:34-38 | `isOnBorder` accepts no interior cell and no non-corner border cell (the border the doc comment means); the cells it accepts are corners |
| JeuProprietes.BallChainXTrapsOnTopRowLeft | Mabula/jeuProtocole.swift:157-160 | on row 0 with x < 5 the column-7 loop reads a negative row index, so `ballChainX` traps on every board |
| JeuProprietes.MovableIff | Mabula/jeuProtocole.swift:211-229 | `canBilleMove`'s answer stated directly: `isOnBorder` and some cell `board[y][i]`, 0 <= i < 8, is empty |
| JeuProprietes.MovableAtPosIff | Mabula/jeuProtocole.swift:239-266 | `canBilleMoveAtPos`'s answer stated directly: the guard, and some cell of `getRange` on the move axis is empty (on a row, a cell of row x) |
| JeuProprietes.EmptyTargetIsMovable | Mabula/jeuProtocole.swift:246-266 | a move along the line to an empty cell passes the guard, since the target is in the scanned range |
| JeuProprietes.RowMoveImpliesMovable | Mabula/jeuProtocole.swift:239-258 | a marble that can move along its row also passes `canBilleMove` |
| JeuProprietes.PushStepOnOneAxis | Mabula/jeuProtocole.swift:273-278 | when the guard passes, target and start differ and exactly one of `xStep`, `yStep` is non-zero |
| JeuProprietes.PushWritesOnlySettableCells | Mabula/jeuProtocole.swift:268-282 | every cell the whole push chain changes is settable: inside 0..7 and not a corner |
| JeuProprietes.PushSetsOnlySettablePositions | Mabula/jeuProtocole.swift:268-282 | every position the whole push chain sets is settable: inside 0..7 and not a corner; every other recorded position is unchanged |
| JeuProprietes.MoveLeavesStartCell | Mabula/jeuProtocole.swift:280-281 | the start cell is never cleared: after a move it still holds what it held, and the moved marble is in the target cell as well |
| JeuProprietes.MoveToEmptyCell | Mabula/jeuProtocole.swift:273-281 | a move along the line to an empty cell writes exactly that cell and changes only the moved marble's position |
| JeuProprietes.OccupantAtItsCellIsOverwritten | Mabula/jeuProtocole.swift:273-281 | when the target's occupant is recorded at its own cell, nothing is pushed: only the target cell is written, the occupant is overwritten and keeps its recorded position |
| JeuProprietes.MoveSeenThroughPlayerBalls | Mabula/jeuProtocole.swift:268-282 | after a legal move, the moved marble as reached through `playerBalls[couleur]` reports the target as its position |
| JeuProprietes.MovedMarbleFoundAtTarget | Mabula/jeuProtocole.swift:268-286 | after a legal move, `getBilleAtPos` on the target returns the moved marble |
| JeuProprietes.PushDefinedReturns | Mabula/jeuProtocole.swift:268-282 | every call the model covers returns: its recursion ends within `depth` nested calls |
| JeuProprietes.SelfMoveOnlyAtOrigin | Mabula/jeuProtocole.swift:239-266 | an occupied cell moved onto itself passes the guard only at (0,0); at (7,7) `getRange(7,7)` is the marble's own cell |
| JeuProprietes.SelfMoveNeverReturns | Mabula/jeuProtocole.swift:268-278 | a marble at (0,0) sent to (0,0) that passes the guard finds itself in the target, its recursive call repeats the same marble and target on the same state, and the call returns within no depth |

## Where the code and its documentation differ

The model follows the code in each case below.

- `isOnBorder` (Mabula/jeuProtocole.swift:99-110): `&&` binds tighter than
  `||` in the first two guards. So the function accepts only the corners
  (0,0) and (7,7). The doc comment of `isBorder` (:37) says the border
  excludes the corners. Consequences:
  - `canBilleMove`'s column branch (:223-225) can never run.
  - The row scan of `canBilleMoveAtPos` reads `board[x][i]` (:253), not
    `board[y][i]`. This is harmless, since x == y at both accepted cells.
- `ballChainY` (:174-191) always answers false. So `ballChain` and
  `canBeSetOnBorder` answer false for every input instead of checking
  alignments.
- `ballChainX` (:157-160) indexes row `x+i-6` on the top row, which is
  negative for every x < 5. So `canBeSetOnBorder` traps at (0,0), the one
  top-row cell `isOnBorder` accepts, on every board.
- `moveBilleAtPos` (:268-282) writes the moved marble into the target cell
  but never clears the cell it came from.
- `moveBilleAtPos` pushes nothing in practice. Its recursive call (:278) is
  guarded by `canBilleMoveAtPos`, which accepts only a marble at (0,0) or
  (7,7). When the target is not a corner and its occupant's recorded
  position is its own cell, as on a consistent board, that call does
  nothing. Then :280 overwrites the occupant, which leaves the board.
- `moveBilleAtPos(p, 0, 0)` for a marble at (0,0) never returns once column
  0 has an empty cell, even on a consistent board. `getRange(0, 0)` is
  `0...7` (:264), so the guard passes. The marble finds itself in the
  target (:273), both steps are 0 (:275-277), and :278 repeats the call with
  the same arguments before anything is written. The recursion goes on
  until the stack is exhausted. At (7,7) the same move scans only the
  marble's own cell and is refused.
- The doc comment of `init` (:4-8) promises marbles on the 24 border cells.
  The code builds an empty board (:91-92). Every board read a method makes
  right after `init` would trap.
- `Bille.init`'s documented preconditions (billeProtocole.swift:7-8) cannot
  both hold, and the code checks neither. The constructor has no
  precondition.

## Left out

- The `print` diagnostics inside the guards (:199, :214, :233, :242, :270).
  They have no effect on the result or the state.
- `biggestGroup`, `multGroup`, `getGroup` (:288-298): stubs that return 0.
  No scoring rule exists to model.
- `placeBalls` (:193-195): its body is empty.
- The commented-out code in `init` and `ballChainY`.
- `Mabula/main.swift` and `SpecifA/*`: console I/O, a random starting
  player, and protocol declarations with no implementation. They are not
  part of this model.
- The protocol declarations of `jeuProtocole.swift` (:1-78): their content
  is the doc comments discussed above.
- The struct `Bille` at jeuProtocole.swift:343-370. With a struct, the call
  `bille.setPosition` on a `let` parameter (:281) is ill-formed. Only the
  class of billeProtocole.swift is modelled.
- `Hashable` identity for `Set<Bille>`: the sets hold object references, so
  membership is identity.
- Swift's 64-bit `Int` overflow: integers are unbounded. Coordinates and step
  sums stay far from the limits on any board the code can index.
- MoveBilleAtPos: proved only for push chains that end within the ghost bound
  `depth`, whose marbles all appear in the ghost record `pos` with their
  current positions, and whose every target (whenever the guard passes) is
  settable, i.e. in 0..7 and not a corner. That last condition is the
  documented precondition of `setPosition` (billeProtocole.swift:23-24),
  which the class does not check (:45-48). So moves onto a corner are left
  out. The source runs some of them to completion, such as a marble at
  (7,7) sent to an empty (7,0). Others never return, such as a marble at
  (0,0) sent to (0,0); `SelfMoveNeverReturns` states that case. Calls whose
  recursion does not end are outside the model.
- String comparison: Swift compares `String` values by Unicode canonical
  equivalence, both in `color == couleur` (:132, :138, :147, :151, :159,
  :163) and in the `playerBalls` key lookups (:198, :204). The model
  compares `string` values character by character. The two agree on the
  ASCII colour names the program uses.
- CanPlayerMove: the iteration order of Swift's `Set` is not modelled. The
  model picks marbles in an arbitrary order, and the proved result does not
  depend on it.
