/** Properties of the Jeu model that relate several operations, or state
    what the code as written guarantees where its doc comments promise
    something else. */
module JeuProprietes {
  import opened BilleProtocole
  import opened JeuProtocole

  // ---------------------------------------------------------------------
  // isOnBorder and isBorder

  /** The border the doc comment of isBorder describes: a cell of the outer
      ring of the 8 x 8 board that is not a corner. */
  predicate DocumentedBorder(x: int, y: int) {
    0 <= x < MaxLength && 0 <= y < MaxLength &&
    (x == 0 || x == MaxLength - 1 || y == 0 || y == MaxLength - 1) &&
    !((x == 0 || x == MaxLength - 1) && (y == 0 || y == MaxLength - 1))
  }

  /** isOnBorder accepts no interior cell and no cell of the documented
      border: the two cells it does accept are corners, which the
      documentation excludes. */
  lemma IsOnBorderMissesDocumentedBorder(x: int, y: int)
    ensures Jeu.IsOnBorder(x, y) ==> !DocumentedBorder(x, y)
    ensures 1 <= x <= MaxLength - 2 && 1 <= y <= MaxLength - 2 ==> !Jeu.IsOnBorder(x, y)
    ensures Jeu.IsOnBorder(x, y) ==> (x == 0 || x == MaxLength - 1) && (y == 0 || y == MaxLength - 1)
  {
  }

  // ---------------------------------------------------------------------
  // ballChainX

  /** On the top row, ballChainX traps whenever x < 5: countR is at least 1,
      and the first step of the loop over column 7 reads row x - 5 < 0. */
  lemma BallChainXTrapsOnTopRowLeft(b: Board, couleur: string, x: int)
    requires x < 5
    ensures !BallChainXDefined(b, couleur, x, 0)
  {
    assert !InBounds(b, EdgeRow(MaxLength - 1, x, 0, 1), MaxLength - 1);
  }

  // ---------------------------------------------------------------------
  // canBilleMove and canBilleMoveAtPos

  /** canBilleMove's answer, stated directly: the marble passes isOnBorder
      and one of the eight cells of its row is empty. */
  lemma MovableIff(b: Board, x: int, y: int)
    requires MovableDefined(b, x, y)
    ensures Movable(b, x, y) <==>
            Jeu.IsOnBorder(x, y) && exists i :: 0 <= i < MaxLength && b[y][i] == null
  {
    if Jeu.IsOnBorder(x, y) {
      RowHasEmptyIff(b[y], 0, MaxLength);
    }
  }

  /** canBilleMoveAtPos's answer, stated directly: the guard holds and some
      cell of getRange along the move axis is empty (along a row, a cell of
      row x). */
  lemma MovableAtPosIff(b: Board, x: int, y: int, h: int, v: int)
    requires MovableAtPosDefined(b, x, y, h, v)
    ensures MovableAtPos(b, x, y, h, v) <==>
            AtPosGuard(x, y, h, v) &&
            if x == h then
              exists i :: Jeu.GetRange(y, v).lo <= i <= Jeu.GetRange(y, v).hi && InBounds(b, i, x) && b[i][x] == null
            else
              exists i :: Jeu.GetRange(x, h).lo <= i <= Jeu.GetRange(x, h).hi && b[x][i] == null
  {
    if AtPosGuard(x, y, h, v) {
      if x == h {
        ColumnHasEmptyIff(b, x, Jeu.GetRange(y, v).lo, Jeu.GetRange(y, v).hi + 1);
      } else {
        RowHasEmptyIff(b[x], Jeu.GetRange(x, h).lo, Jeu.GetRange(x, h).hi + 1);
      }
    }
  }

  /** A move along the marble's row or column to an empty cell passes the
      guard of moveBilleAtPos: the target itself lies in the scanned range. */
  lemma EmptyTargetIsMovable(b: Board, x: int, y: int, h: int, v: int)
    requires MovableAtPosDefined(b, x, y, h, v) && AtPosGuard(x, y, h, v)
    requires InBounds(b, v, h) && b[v][h] == null
    ensures MovableAtPos(b, x, y, h, v)
  {
    MovableAtPosIff(b, x, y, h, v);
    if x == h {
      assert Jeu.GetRange(y, v).lo <= v <= Jeu.GetRange(y, v).hi && InBounds(b, v, x) && b[v][x] == null;
    } else {
      assert Jeu.GetRange(x, h).lo <= h <= Jeu.GetRange(x, h).hi && b[x][h] == null;
    }
  }

  /** A marble that can be moved along its row passes canBilleMove too: the
      range scanned lies within the eight cells of that row. (A move along a
      column gives no such guarantee, since canBilleMove scans only the row.) */
  lemma RowMoveImpliesMovable(b: Board, x: int, y: int, h: int, v: int)
    requires MovableAtPosDefined(b, x, y, h, v) && MovableDefined(b, x, y)
    requires MovableAtPos(b, x, y, h, v) && x != h
    ensures Movable(b, x, y)
  {
    MovableAtPosIff(b, x, y, h, v);
    MovableIff(b, x, y);
    var i :| Jeu.GetRange(x, h).lo <= i <= Jeu.GetRange(x, h).hi && b[x][i] == null;
    assert 0 <= i < MaxLength && b[y][i] == null;
  }

  // ---------------------------------------------------------------------
  // moveBilleAtPos

  /** When the guard passes, target and start differ and lie on exactly one
      common axis, so exactly one of xStep, yStep is non-zero: the target is
      settable, hence not a corner, while the start passes isOnBorder, hence
      is one. The recursion therefore never repeats its arguments. */
  lemma PushStepOnOneAxis(b: Board, pos: Positions, p: Bille, h: int, v: int, depth: nat)
    requires PushDefined(b, pos, p, h, v, depth)
    requires MovableAtPos(b, pos[p].0, pos[p].1, h, v)
    ensures (h, v) != pos[p]
    ensures (Step(pos[p].0, h) == 0) != (Step(pos[p].1, v) == 0)
  {
  }

  /** Every cell moveBilleAtPos writes is a settable cell: none of the four
      corners, all within 0..7. */
  lemma {:induction false} PushWritesOnlySettableCells(b: Board, pos: Positions, p: Bille, h: int, v: int, depth: nat)
    requires PushDefined(b, pos, p, h, v, depth)
    ensures forall r, c :: InBounds(b, r, c) && PushBoard(b, pos, p, h, v, depth)[r][c] != b[r][c] ==> Settable(c, r)
    decreases depth
  {
    if MovableAtPos(b, pos[p].0, pos[p].1, h, v) && b[v][h] != null {
      var t := Pushed(pos[b[v][h]], pos[p], h, v);
      PushWritesOnlySettableCells(b, pos, b[v][h], t.0, t.1, depth - 1);
    }
  }

  /** Every position moveBilleAtPos sets is a settable cell; every other
      recorded position is unchanged. */
  lemma {:induction false} PushSetsOnlySettablePositions(b: Board, pos: Positions, p: Bille, h: int, v: int, depth: nat)
    requires PushDefined(b, pos, p, h, v, depth)
    ensures forall q :: q in pos ==>
              PushPositions(b, pos, p, h, v, depth)[q] == pos[q] ||
              Settable(PushPositions(b, pos, p, h, v, depth)[q].0, PushPositions(b, pos, p, h, v, depth)[q].1)
    decreases depth
  {
    if MovableAtPos(b, pos[p].0, pos[p].1, h, v) && b[v][h] != null {
      var t := Pushed(pos[b[v][h]], pos[p], h, v);
      PushSetsOnlySettablePositions(b, pos, b[v][h], t.0, t.1, depth - 1);
    }
  }

  /** moveBilleAtPos never clears the cell the marble starts from: after a
      move from (x, y) the target holds the marble and the start cell still
      holds what it held, so a marble that was in its start cell is now in
      two cells. */
  lemma MoveLeavesStartCell(b: Board, pos: Positions, p: Bille, h: int, v: int, depth: nat)
    requires PushDefined(b, pos, p, h, v, depth)
    requires MovableAtPos(b, pos[p].0, pos[p].1, h, v)
    requires InBounds(b, pos[p].1, pos[p].0)
    ensures PushBoard(b, pos, p, h, v, depth)[pos[p].1][pos[p].0] == b[pos[p].1][pos[p].0]
    ensures PushBoard(b, pos, p, h, v, depth)[v][h] == p
    ensures (h, v) != pos[p]
  {
    PushWritesOnlySettableCells(b, pos, p, h, v, depth);
  }

  /** A move to an empty cell pushes nothing: one cell is written and only
      the moved marble's position changes. */
  lemma MoveToEmptyCell(b: Board, pos: Positions, p: Bille, h: int, v: int, depth: nat)
    requires PushDefined(b, pos, p, h, v, depth)
    requires AtPosGuard(pos[p].0, pos[p].1, h, v)
    requires InBounds(b, v, h) && b[v][h] == null
    ensures PushBoard(b, pos, p, h, v, depth) == b[v := b[v][h := p]]
    ensures PushPositions(b, pos, p, h, v, depth) == pos[p := (h, v)]
  {
    EmptyTargetIsMovable(b, pos[p].0, pos[p].1, h, v);
  }

  /** The marble found in the target cell is pushed only if its own recorded
      position passes the guard. When that position is its cell (h, v), as on
      any board whose cells and marble positions agree, the target is
      settable and so not one of the two cells isOnBorder accepts: nothing
      is pushed, the marble is overwritten and leaves the board, and its
      recorded position stays (h, v). */
  lemma OccupantAtItsCellIsOverwritten(b: Board, pos: Positions, p: Bille, h: int, v: int, depth: nat)
    requires PushDefined(b, pos, p, h, v, depth)
    requires MovableAtPos(b, pos[p].0, pos[p].1, h, v)
    requires b[v][h] != null && pos[b[v][h]] == (h, v)
    ensures PushBoard(b, pos, p, h, v, depth) == b[v := b[v][h := p]]
    ensures PushPositions(b, pos, p, h, v, depth) == pos[p := (h, v)]
    ensures b[v][h] != p ==> PushPositions(b, pos, p, h, v, depth)[b[v][h]] == (h, v)
  {
  }

  /** Marbles are shared by reference: after a move, the marble as reached
      through the colour table reports its new position. */
  method MoveSeenThroughPlayerBalls(jeu: Jeu, bille: Bille, couleur: string, horizontale: int, verticale: int,
                                    ghost pos: Positions, ghost depth: nat)
    requires Accurate(pos) && PushDefined(jeu.board, pos, bille, horizontale, verticale, depth)
    requires MovableAtPos(jeu.board, pos[bille].0, pos[bille].1, horizontale, verticale)
    requires couleur in jeu.playerBalls && bille in jeu.playerBalls[couleur]
    modifies jeu, pos.Keys
    ensures couleur in jeu.playerBalls && bille in jeu.playerBalls[couleur]
    ensures forall q :: q in jeu.playerBalls[couleur] && q == bille ==>
              q.GetPosHorizontale() == horizontale && q.GetPosVerticale() == verticale
  {
    jeu.MoveBilleAtPos(bille, horizontale, verticale, pos, depth);
  }

  /** After a legal move, getBilleAtPos on the target returns the moved
      marble. */
  method MovedMarbleFoundAtTarget(jeu: Jeu, bille: Bille, horizontale: int, verticale: int,
                                  ghost pos: Positions, ghost depth: nat) returns (r: Bille?)
    requires Accurate(pos) && PushDefined(jeu.board, pos, bille, horizontale, verticale, depth)
    requires MovableAtPos(jeu.board, pos[bille].0, pos[bille].1, horizontale, verticale)
    modifies jeu, pos.Keys
    ensures r == bille
  {
    jeu.MoveBilleAtPos(bille, horizontale, verticale, pos, depth);
    r := jeu.GetBilleAtPos(horizontale, verticale);
  }

  // ---------------------------------------------------------------------
  // moveBilleAtPos onto a corner

  /** moveBilleAtPos(p, h, v) as the code runs it returns within `depth`
      nested calls: PushDefined without the precondition of setPosition,
      which the class never checks. */
  ghost predicate CallReturns(b: Board, pos: Positions, p: Bille, h: int, v: int, depth: nat)
    decreases depth
  {
    p in pos &&
    MovableAtPosDefined(b, pos[p].0, pos[p].1, h, v) &&
    (MovableAtPos(b, pos[p].0, pos[p].1, h, v) ==>
      InBounds(b, v, h) &&
      (b[v][h] != null ==>
        depth > 0 && b[v][h] in pos &&
        var t := Pushed(pos[b[v][h]], pos[p], h, v);
        CallReturns(b, pos, b[v][h], t.0, t.1, depth - 1)))
  }

  /** Every call the model covers does return. */
  lemma {:induction false} PushDefinedReturns(b: Board, pos: Positions, p: Bille, h: int, v: int, depth: nat)
    requires PushDefined(b, pos, p, h, v, depth)
    ensures CallReturns(b, pos, p, h, v, depth)
    decreases depth
  {
    if MovableAtPos(b, pos[p].0, pos[p].1, h, v) && b[v][h] != null {
      var t := Pushed(pos[b[v][h]], pos[p], h, v);
      PushDefinedReturns(b, pos, b[v][h], t.0, t.1, depth - 1);
    }
  }

  /** A move of an occupied cell onto itself passes the guard only at
      (0,0): at (7,7) getRange(7, 7) is 7...7, the occupied cell alone. */
  lemma SelfMoveOnlyAtOrigin(b: Board, h: int, v: int)
    requires InBounds(b, v, h) && b[v][h] != null
    requires MovableAtPosDefined(b, h, v, h, v) && MovableAtPos(b, h, v, h, v)
    ensures (h, v) == (0, 0)
  {
    if h != 0 {
      assert ColumnHasEmpty(b, h, v, v + 1) == (b[v][h] == null);
    }
  }

  /** A marble sent to its own cell that passes the guard finds itself in
      the target and, with both steps 0, calls moveBilleAtPos again with the
      same marble and the same target before anything is written: the call
      never returns, however deep the recursion may go. The only such cell
      is (0,0), where getRange(0, 0) is 0...7, so any empty cell of column 0
      lets the guard pass; at (7,7) the range is the marble's own cell. */
  lemma {:induction false} SelfMoveNeverReturns(b: Board, pos: Positions, p: Bille, h: int, v: int, depth: nat)
    requires p in pos && pos[p] == (h, v)
    requires InBounds(b, v, h) && b[v][h] == p
    requires MovableAtPosDefined(b, h, v, h, v) && MovableAtPos(b, h, v, h, v)
    ensures (h, v) == (0, 0)
    ensures Pushed(pos[b[v][h]], pos[p], h, v) == (h, v)
    ensures !CallReturns(b, pos, p, h, v, depth)
    decreases depth
  {
    SelfMoveOnlyAtOrigin(b, h, v);
    if depth > 0 {
      SelfMoveNeverReturns(b, pos, p, h, v, depth - 1);
    }
  }
}
