/** The Mabula board-rule engine `Jeu`: an 8 x 8 grid of optional marbles,
    indexed board[verticale][horizontale], and a colour-to-marbles table.
    The model follows the code as written, including its slips; the doc
    comments promised more than the code does, and the lemmas at the end of
    the module state what the code actually guarantees. */
module JeuProtocole {
  import opened BilleProtocole

  /** Jeu.maxLength: the side of the board. */
  const MaxLength := 8

  /** Swift's [[Bille?]]: a value array of rows, each a value array of cells. */
  type Board = seq<seq<Bille?>>

  /** Swift's ClosedRange lo...hi; building one with lo > hi traps. */
  datatype Interval = Interval(lo: int, hi: int)

  predicate InBounds(b: Board, r: int, c: int) {
    0 <= r < |b| && 0 <= c < |b[r]|
  }

  predicate SameShape(b: Board, b': Board) {
    |b'| == |b| && forall r :: 0 <= r < |b| ==> |b'[r]| == |b[r]|
  }

  /** The cell holds a marble of colour `couleur`. */
  predicate Holds(b: Board, couleur: string, r: int, c: int)
    requires InBounds(b, r, c)
  {
    b[r][c] != null && b[r][c].couleur == couleur
  }

  // ---------------------------------------------------------------------
  // What ballChainX reads and counts

  /** Step i of the first loop of ballChainX reads board[y][x-i] when
      x-i > 1 and board[y][x+i] when x+i < 7. */
  predicate NeighboursDefined(b: Board, x: int, y: int, i: int) {
    (x - i > 1 ==> InBounds(b, y, x - i)) &&
    (x + i < MaxLength - 1 ==> InBounds(b, y, x + i))
  }

  /** Same-colour marbles found on the left in the first n steps. */
  function LeftHits(b: Board, couleur: string, x: int, y: int, n: nat): (k: nat)
    requires n <= 2 && NeighboursDefined(b, x, y, 1) && NeighboursDefined(b, x, y, 2)
    ensures k <= n
  {
    if n == 0 then 0
    else LeftHits(b, couleur, x, y, n - 1) + (if x - n > 1 && Holds(b, couleur, y, x - n) then 1 else 0)
  }

  /** Same-colour marbles found on the right in the first n steps. */
  function RightHits(b: Board, couleur: string, x: int, y: int, n: nat): (k: nat)
    requires n <= 2 && NeighboursDefined(b, x, y, 1) && NeighboursDefined(b, x, y, 2)
    ensures k <= n
  {
    if n == 0 then 0
    else RightHits(b, couleur, x, y, n - 1) + (if x + n < MaxLength - 1 && Holds(b, couleur, y, x + n) then 1 else 0)
  }

  /** countL after the first loop: 2 minus the left hits. */
  function CountL(b: Board, couleur: string, x: int, y: int): (k: int)
    requires NeighboursDefined(b, x, y, 1) && NeighboursDefined(b, x, y, 2)
    ensures 0 <= k <= 2
  {
    2 - LeftHits(b, couleur, x, y, 2)
  }

  /** countR after the first loop: 2 minus the right hits. */
  function CountR(b: Board, couleur: string, x: int, y: int): (k: int)
    requires NeighboursDefined(b, x, y, 1) && NeighboursDefined(b, x, y, 2)
    ensures 0 <= k <= 2
  {
    2 - RightHits(b, couleur, x, y, 2)
  }

  /** Row read at step i of the loop over column col (0 or 7). */
  function EdgeRow(col: int, x: int, y: int, i: int): int {
    if col == 0 then (if y == 0 then x + i - 1 else x - i + 1)
    else (if y == 0 then x + i - MaxLength + 2 else x - i + 1)
  }

  predicate EdgeDefined(b: Board, x: int, y: int, col: int, n: int) {
    forall i :: 1 <= i <= n ==> InBounds(b, EdgeRow(col, x, y, i), col)
  }

  /** Same-colour marbles found in the first n steps down column col. */
  function EdgeHits(b: Board, couleur: string, x: int, y: int, col: int, n: nat): (k: nat)
    requires EdgeDefined(b, x, y, col, n)
    ensures k <= n
  {
    if n == 0 then 0
    else EdgeHits(b, couleur, x, y, col, n - 1) + (if Holds(b, couleur, EdgeRow(col, x, y, n), col) then 1 else 0)
  }

  /** ballChainX runs without trapping: every subscript in range and both
      closed ranges 1...countL and 1...countR non-empty. */
  predicate BallChainXDefined(b: Board, couleur: string, x: int, y: int) {
    (y == 0 || y == MaxLength - 1) ==>
      NeighboursDefined(b, x, y, 1) && NeighboursDefined(b, x, y, 2) &&
      1 <= CountL(b, couleur, x, y) && EdgeDefined(b, x, y, 0, CountL(b, couleur, x, y)) &&
      1 <= CountR(b, couleur, x, y) && EdgeDefined(b, x, y, MaxLength - 1, CountR(b, couleur, x, y))
  }

  /** Final sameNbL: both row neighbours (left and right hits both land
      here) plus the hits on column 0. */
  function SameNbL(b: Board, couleur: string, x: int, y: int): (k: nat)
    requires (y == 0 || y == MaxLength - 1) && BallChainXDefined(b, couleur, x, y)
    ensures k <= 4
  {
    LeftHits(b, couleur, x, y, 2) + RightHits(b, couleur, x, y, 2) + EdgeHits(b, couleur, x, y, 0, CountL(b, couleur, x, y))
  }

  /** Final sameNbR: only the hits on column 7, at most countR <= 2. */
  function SameNbR(b: Board, couleur: string, x: int, y: int): (k: nat)
    requires (y == 0 || y == MaxLength - 1) && BallChainXDefined(b, couleur, x, y)
    ensures k <= 2
  {
    EdgeHits(b, couleur, x, y, MaxLength - 1, CountR(b, couleur, x, y))
  }

  // ---------------------------------------------------------------------
  // What the move checks read

  /** getRange does not trap: 0...target needs target >= 0, target...7 needs target <= 7. */
  predicate RangeDefined(pos: int, target: int) {
    if pos - target > 0 then 0 <= target else target <= MaxLength - 1
  }

  /** Every cell board[i][col] with lo <= i < hi exists. */
  predicate ColumnDefined(b: Board, col: int, lo: int, hi: int)
    decreases hi - lo
  {
    hi <= lo || (ColumnDefined(b, col, lo, hi - 1) && InBounds(b, hi - 1, col))
  }

  lemma {:induction false} ColumnDefinedCell(b: Board, col: int, lo: int, hi: int, i: int)
    requires ColumnDefined(b, col, lo, hi) && lo <= i < hi
    ensures InBounds(b, i, col)
    decreases hi - lo
  {
    if i < hi - 1 {
      ColumnDefinedCell(b, col, lo, hi - 1, i);
    }
  }

  /** Some cell board[k][col] with lo <= k < hi is empty. */
  predicate ColumnHasEmpty(b: Board, col: int, lo: int, hi: int)
    requires ColumnDefined(b, col, lo, hi)
    decreases hi - lo
  {
    lo < hi && (ColumnHasEmpty(b, col, lo, hi - 1) || b[hi - 1][col] == null)
  }

  lemma {:induction false} ColumnHasEmptyIff(b: Board, col: int, lo: int, hi: int)
    requires ColumnDefined(b, col, lo, hi)
    ensures ColumnHasEmpty(b, col, lo, hi) <==>
            exists k :: lo <= k < hi && InBounds(b, k, col) && b[k][col] == null
    decreases hi - lo
  {
    if lo < hi {
      ColumnHasEmptyIff(b, col, lo, hi - 1);
      if b[hi - 1][col] == null {
        assert InBounds(b, hi - 1, col);
      }
    }
  }

  /** Some cell row[k] with lo <= k < hi is empty. */
  predicate RowHasEmpty(row: seq<Bille?>, lo: int, hi: int)
    requires 0 <= lo && hi <= |row|
    decreases hi - lo
  {
    lo < hi && (RowHasEmpty(row, lo, hi - 1) || row[hi - 1] == null)
  }

  lemma {:induction false} RowHasEmptyIff(row: seq<Bille?>, lo: int, hi: int)
    requires 0 <= lo && hi <= |row|
    ensures RowHasEmpty(row, lo, hi) <==> exists k :: lo <= k < hi && row[k] == null
    decreases hi - lo
  {
    if lo < hi {
      RowHasEmptyIff(row, lo, hi - 1);
    }
  }

  /** Every cell board[row][i] with i in r exists. */
  predicate RowDefined(b: Board, row: int, r: Interval) {
    0 <= row < |b| && 0 <= r.lo && r.hi < |b[row]|
  }

  /** canBilleMove does not trap for a marble at (x, y): if it passes
      isOnBorder, its row board[y] has at least 8 cells. */
  predicate MovableDefined(b: Board, x: int, y: int) {
    Jeu.IsOnBorder(x, y) ==> 0 <= y < |b| && MaxLength <= |b[y]|
  }

  /** What canBilleMove answers for a marble at (x, y): it passes isOnBorder
      and its row has an empty cell. (The column scan of the source is
      unreachable: isOnBorder forces x to be 0 or 7.) */
  predicate Movable(b: Board, x: int, y: int)
    requires MovableDefined(b, x, y)
  {
    Jeu.IsOnBorder(x, y) && RowHasEmpty(b[y], 0, MaxLength)
  }

  /** The guard of canBilleMoveAtPos for a marble at (x, y) and target (h, v):
      target on the marble's row or column, marble on the border. */
  predicate AtPosGuard(x: int, y: int, h: int, v: int) {
    (x == h || y == v) && Jeu.IsOnBorder(x, y)
  }

  /** canBilleMoveAtPos does not trap. */
  predicate MovableAtPosDefined(b: Board, x: int, y: int, h: int, v: int) {
    AtPosGuard(x, y, h, v) ==>
      if x == h then RangeDefined(y, v) && ColumnDefined(b, x, Jeu.GetRange(y, v).lo, Jeu.GetRange(y, v).hi + 1)
      else RangeDefined(x, h) && RowDefined(b, x, Jeu.GetRange(x, h))
  }

  /** What canBilleMoveAtPos answers: the guard holds and some cell of the
      range along the move axis is empty. Along a row the source reads
      board[x][i], row x rather than row y. */
  predicate MovableAtPos(b: Board, x: int, y: int, h: int, v: int)
    requires MovableAtPosDefined(b, x, y, h, v)
  {
    AtPosGuard(x, y, h, v) &&
    if x == h then
      var r := Jeu.GetRange(y, v);
      ColumnHasEmpty(b, x, r.lo, r.hi + 1)
    else
      var r := Jeu.GetRange(x, h);
      RowHasEmpty(b[x], r.lo, r.hi + 1)
  }

  // ---------------------------------------------------------------------
  // The push recursion of moveBilleAtPos

  function Abs(d: int): int {
    if d < 0 then -d else d
  }

  /** xStep / yStep: abs(t-s)/(t-s) when s != t, else 0. The division is
      exact, so Dafny's Euclidean / and Swift's truncating / agree. */
  function Step(s: int, t: int): (k: int)
    ensures k == 0 <==> s == t
    ensures k == 1 <==> s < t
    ensures k == -1 <==> t < s
  {
    if s != t then Abs(t - s) / (t - s) else 0
  }

  /** A record of marble positions (posH, posV). */
  type Positions = map<Bille, (int, int)>

  /** The record agrees with every marble it names. */
  ghost predicate Accurate(pos: Positions)
    reads pos.Keys
  {
    forall q :: q in pos ==> pos[q] == (q.posH, q.posV)
  }

  /** Where a marble at `at` is sent when the marble that started at `from`
      is moved to (h, v): one step further along the move direction. */
  function Pushed(at: (int, int), from: (int, int), h: int, v: int): (int, int) {
    (at.0 + Step(from.0, h), at.1 + Step(from.1, v))
  }

  /** moveBilleAtPos(p, h, v) runs to completion: its guard does not trap,
      and when it passes, setPosition(h, v) meets its precondition and the
      marble found in the target cell (if any) is recorded in `pos` and its
      own call runs to completion within `depth` nested calls. Every read happens before any write, so
      the whole descent is judged on the board and positions at the call. */
  predicate PushDefined(b: Board, pos: Positions, p: Bille, h: int, v: int, depth: nat)
    decreases depth
  {
    p in pos &&
    MovableAtPosDefined(b, pos[p].0, pos[p].1, h, v) &&
    (MovableAtPos(b, pos[p].0, pos[p].1, h, v) ==>
      InBounds(b, v, h) && Settable(h, v) &&
      (b[v][h] != null ==>
        depth > 0 && b[v][h] in pos &&
        var t := Pushed(pos[b[v][h]], pos[p], h, v);
        PushDefined(b, pos, b[v][h], t.0, t.1, depth - 1)))
  }

  /** The board after moveBilleAtPos(p, h, v): the call made on the marble
      found in [v][h] writes first, then this call writes p into [v][h]. No
      other cell is written; in particular the cell p came from is not
      cleared. That inner call writes only if the found marble's own
      position passes the guard, i.e. is (0,0) or (7,7); when its position
      is its cell (h, v), which is settable and so not a corner, it writes
      nothing and the marble is overwritten. */
  function PushBoard(b: Board, pos: Positions, p: Bille, h: int, v: int, depth: nat): (r: Board)
    requires PushDefined(b, pos, p, h, v, depth)
    ensures SameShape(b, r)
    ensures MovableAtPos(b, pos[p].0, pos[p].1, h, v) ==> InBounds(b, v, h) && r[v][h] == p
    ensures !MovableAtPos(b, pos[p].0, pos[p].1, h, v) ==> r == b
    decreases depth
  {
    if !MovableAtPos(b, pos[p].0, pos[p].1, h, v) then b
    else
      var pushed :=
        if b[v][h] == null then b
        else
          var t := Pushed(pos[b[v][h]], pos[p], h, v);
          PushBoard(b, pos, b[v][h], t.0, t.1, depth - 1);
      pushed[v := pushed[v][h := p]]
  }

  /** The positions after moveBilleAtPos(p, h, v), starting from `pos`: each
      marble of the push chain takes its call's target; the innermost call
      sets its position first, so an outer call wins for a marble met twice.
      Every other recorded position is unchanged. */
  function PushPositions(b: Board, pos: Positions, p: Bille, h: int, v: int, depth: nat): (r: Positions)
    requires PushDefined(b, pos, p, h, v, depth)
    ensures r.Keys == pos.Keys
    ensures MovableAtPos(b, pos[p].0, pos[p].1, h, v) ==> r[p] == (h, v)
    ensures !MovableAtPos(b, pos[p].0, pos[p].1, h, v) ==> r == pos
    decreases depth
  {
    if !MovableAtPos(b, pos[p].0, pos[p].1, h, v) then pos
    else
      var inner :=
        if b[v][h] == null then pos
        else
          var t := Pushed(pos[b[v][h]], pos[p], h, v);
          PushPositions(b, pos, b[v][h], t.0, t.1, depth - 1);
      inner[p := (h, v)]
  }

  class Jeu {
    var board: Board
    var playerBalls: map<string, set<Bille>>

    /** init: an empty board (no rows) and no players. */
    constructor ()
      ensures board == [] && playerBalls == map[]
    {
      board := [];
      playerBalls := map[];
    }

    /** isOnBorder as written. `&&` binds tighter than `||`, so the three
        guards together accept exactly two corners. */
    static function IsOnBorder(x: int, y: int): (r: bool)
      ensures r <==> (x == 0 && y == 0) || (x == MaxLength - 1 && y == MaxLength - 1)
    {
      if !(x == 0 || (x == MaxLength - 1 && (y > 0 && y < MaxLength))) then false
      else if !(y == 0 || (y == MaxLength - 1 && (x > 0 && x < MaxLength))) then false
      else if !((x == 0 || x == MaxLength - 1) && (y == 0 || y == MaxLength - 1)) then false
      else true
    }

    static method CanBeSetOnBorder(board: Board, couleur: string, horizontale: int, verticale: int) returns (r: bool)
      requires IsOnBorder(horizontale, verticale) ==> BallChainXDefined(board, couleur, horizontale, verticale)
      ensures !r
    {
      r := IsOnBorder(horizontale, verticale);
      if r {
        r := BallChain(board, couleur, horizontale, verticale);
      }
    }

    static method BallChain(board: Board, couleur: string, x: int, y: int) returns (r: bool)
      requires BallChainXDefined(board, couleur, x, y)
      ensures !r
    {
      r := BallChainX(board, couleur, x, y);
      if r {
        r := BallChainY(board, couleur, x, y);
      }
    }

    /** ballChainX on a row y in {0, 7}: compares the same-colour counts
        against 2. Its three loops are the three Scan methods below. */
    static method BallChainX(board: Board, couleur: string, x: int, y: int) returns (r: bool)
      requires BallChainXDefined(board, couleur, x, y)
      ensures !(y == 0 || y == MaxLength - 1) ==> r
      ensures (y == 0 || y == MaxLength - 1) ==> (r <==> SameNbL(board, couleur, x, y) <= 2)
    {
      if !(y == 0 || y == MaxLength - 1) {
        return true;
      }
      var sameNbL, countL, countR := ScanNeighbours(board, couleur, x, y);
      var edgeL := ScanEdge(board, couleur, x, y, 0, countL);
      sameNbL := sameNbL + edgeL;
      var sameNbR := ScanEdge(board, couleur, x, y, MaxLength - 1, countR);
      return sameNbR <= 2 && sameNbL <= 2;
    }

    /** The first loop of ballChainX: the two cells on each side of x in row
        y, inside columns 2..6. A left match lowers countL, a right match
        lowers countR; both raise sameNbL. */
    static method ScanNeighbours(board: Board, couleur: string, x: int, y: int)
        returns (sameNbL: int, countL: int, countR: int)
      requires NeighboursDefined(board, x, y, 1) && NeighboursDefined(board, x, y, 2)
      ensures countL == CountL(board, couleur, x, y) && countR == CountR(board, couleur, x, y)
      ensures sameNbL == LeftHits(board, couleur, x, y, 2) + RightHits(board, couleur, x, y, 2)
      ensures sameNbL == (2 - countL) + (2 - countR)
    {
      sameNbL, countL, countR := 0, 2, 2;
      for i := 1 to 3
        invariant countL == 2 - LeftHits(board, couleur, x, y, i - 1)
        invariant countR == 2 - RightHits(board, couleur, x, y, i - 1)
        invariant sameNbL == LeftHits(board, couleur, x, y, i - 1) + RightHits(board, couleur, x, y, i - 1)
      {
        if x - i > 1 {
          var cell := board[y][x - i];
          if cell != null && cell.GetCouleur() == couleur {
            sameNbL := sameNbL + 1;
            countL := countL - 1;
          }
        }
        if x + i < MaxLength - 1 {
          var cell := board[y][x + i];
          if cell != null && cell.GetCouleur() == couleur {
            sameNbL := sameNbL + 1;
            countR := countR - 1;
          }
        }
      }
    }

    /** The loops `for i in 1...n` of ballChainX over column col (0 or 7):
        the number of same-colour marbles in the n rows EdgeRow(col, x, y, i).
        The closed range traps when n < 1. */
    static method ScanEdge(board: Board, couleur: string, x: int, y: int, col: int, n: int) returns (hits: int)
      requires 1 <= n && EdgeDefined(board, x, y, col, n)
      ensures hits == EdgeHits(board, couleur, x, y, col, n)
      ensures 0 <= hits <= n
    {
      hits := 0;
      for i := 1 to n + 1
        invariant hits == EdgeHits(board, couleur, x, y, col, i - 1)
      {
        assert InBounds(board, EdgeRow(col, x, y, i), col);
        var cell := board[EdgeRow(col, x, y, i)][col];
        if cell != null && cell.GetCouleur() == couleur {
          hits := hits + 1;
        }
      }
    }

    /** The loop over i reads nothing (its reads are commented out) and the
        method answers false. */
    static method BallChainY(board: Board, couleur: string, x: int, y: int) returns (r: bool)
      ensures !r
    {
      var i := 1;
      while i <= 2
        decreases 3 - i
      {
        i := i + 1;
      }
      return false;
    }

    method CanPlayerMove(couleur: string) returns (r: bool)
      requires couleur in playerBalls ==> forall p :: p in playerBalls[couleur] ==> MovableDefined(board, p.posH, p.posV)
      ensures r <==> couleur in playerBalls && exists p :: p in playerBalls[couleur] && Movable(board, p.posH, p.posV)
    {
      if couleur !in playerBalls {
        return false;
      }
      var canMove := false;
      var rest := playerBalls[couleur];
      ghost var seen: set<Bille> := {};
      while rest != {}
        invariant rest + seen == playerBalls[couleur]
        invariant canMove <==> exists p :: p in seen && Movable(board, p.posH, p.posV)
        decreases rest
      {
        var bille :| bille in rest;
        var m := CanBilleMove(bille);
        if m {
          canMove := true;
        }
        rest := rest - {bille};
        seen := seen + {bille};
      }
      return canMove;
    }

    method CanBilleMove(bille: Bille) returns (r: bool)
      requires MovableDefined(board, bille.posH, bille.posV)
      ensures r <==> Movable(board, bille.posH, bille.posV)
    {
      var x, y := bille.GetPosHorizontale(), bille.GetPosVerticale();
      if !IsOnBorder(x, y) {
        return false;
      }
      var canMove := false;
      for i := 0 to MaxLength
        invariant canMove == RowHasEmpty(board[y], 0, i)
      {
        if x == 0 || x == MaxLength - 1 {
          if board[y][i] == null {
            canMove := true;
          }
        } else {
          // the column scan board[i][x]: isOnBorder has put x in {0, 7}
          assert false;
        }
      }
      return canMove;
    }

    function IsBorder(horizontale: int, verticale: int): (r: bool)
      reads this
      requires InBounds(board, verticale, horizontale)
      ensures r <==> board[verticale][horizontale] != null &&
                     ((horizontale == 0 && verticale == 0) || (horizontale == MaxLength - 1 && verticale == MaxLength - 1))
    {
      if board[verticale][horizontale] == null then false
      else IsOnBorder(horizontale, verticale)
    }

    method CanBilleMoveAtPos(bille: Bille, horizontale: int, verticale: int) returns (r: bool)
      requires MovableAtPosDefined(board, bille.posH, bille.posV, horizontale, verticale)
      ensures r <==> MovableAtPos(board, bille.posH, bille.posV, horizontale, verticale)
    {
      var x, y := bille.GetPosHorizontale(), bille.GetPosVerticale();
      if !((x == horizontale || y == verticale) && IsOnBorder(x, y)) {
        return false;
      }
      var canMove := false;
      if x == horizontale {
        var range := GetRange(y, verticale);
        for i := range.lo to range.hi + 1
          invariant ColumnDefined(board, x, range.lo, i)
          invariant canMove == ColumnHasEmpty(board, x, range.lo, i)
        {
          ColumnDefinedCell(board, x, range.lo, range.hi + 1, i);
          if board[i][x] == null {
            canMove := true;
          }
        }
      } else {
        var range := GetRange(x, horizontale);
        for i := range.lo to range.hi + 1
          invariant canMove == RowHasEmpty(board[x], range.lo, i)
        {
          if board[x][i] == null {
            canMove := true;
          }
        }
      }
      return canMove;
    }

    /** The cells a move scans: up to the board edge, from the target on the
        side away from the marble. */
    static function GetRange(pos: int, target: int): (r: Interval)
      requires RangeDefined(pos, target)
      ensures r.lo <= target <= r.hi
      ensures 0 <= pos <= MaxLength - 1 ==> 0 <= r.lo && r.hi <= MaxLength - 1
      ensures pos > target ==> r.hi == target
      ensures pos <= target ==> r.lo == target
      ensures pos > target ==> r.lo == 0
      ensures pos <= target ==> r.hi == MaxLength - 1
    {
      if pos - target > 0 then Interval(0, target) else Interval(target, MaxLength - 1)
    }

    /** moveBilleAtPos. `pos` records the positions of the marble and of
        every marble its push chain reaches, as they are at the call; the
        ghost `depth` bounds the nesting of the recursion. The new board and
        the new positions are those of PushBoard and PushPositions. */
    method MoveBilleAtPos(bille: Bille, horizontale: int, verticale: int,
                          ghost pos: Positions, ghost depth: nat)
      requires Accurate(pos) && PushDefined(board, pos, bille, horizontale, verticale, depth)
      modifies this, pos.Keys
      ensures playerBalls == old(playerBalls)
      decreases depth, 2
      ensures board == PushBoard(old(board), pos, bille, horizontale, verticale, depth)
      ensures Accurate(PushPositions(old(board), pos, bille, horizontale, verticale, depth))
    {
      var canMove := CanBilleMoveAtPos(bille, horizontale, verticale);
      if !canMove {
        return;
      }
      PushAndPlace(bille, horizontale, verticale, pos, depth);
    }

    /** The body of moveBilleAtPos once its guard has passed: the marble in
        the target cell, if any, is first the subject of a recursive call
        aimed one step further; then the marble is placed. */
    method PushAndPlace(bille: Bille, horizontale: int, verticale: int,
                        ghost pos: Positions, ghost depth: nat)
      requires Accurate(pos) && PushDefined(board, pos, bille, horizontale, verticale, depth)
      requires MovableAtPos(board, pos[bille].0, pos[bille].1, horizontale, verticale)
      modifies this, pos.Keys
      ensures playerBalls == old(playerBalls)
      decreases depth, 1
      ensures board == PushBoard(old(board), pos, bille, horizontale, verticale, depth)
      ensures Accurate(PushPositions(old(board), pos, bille, horizontale, verticale, depth))
    {
      var existingBall := board[verticale][horizontale];
      ghost var pushed, inner := board, pos;
      if existingBall != null {
        ghost var t := Pushed(pos[existingBall], pos[bille], horizontale, verticale);
        pushed := PushBoard(board, pos, existingBall, t.0, t.1, depth - 1);
        inner := PushPositions(board, pos, existingBall, t.0, t.1, depth - 1);
        PushDisplaced(bille, existingBall, horizontale, verticale, pos, depth);
      }
      Place(bille, horizontale, verticale, inner);
    }

    /** The recursive call of moveBilleAtPos on the marble found in the
        target cell, aimed one step further in the direction of the move,
        from that marble's own recorded position. */
    method PushDisplaced(bille: Bille, existingBall: Bille, horizontale: int, verticale: int,
                         ghost pos: Positions, ghost depth: nat)
      requires Accurate(pos) && PushDefined(board, pos, bille, horizontale, verticale, depth)
      requires MovableAtPos(board, pos[bille].0, pos[bille].1, horizontale, verticale)
      requires InBounds(board, verticale, horizontale) && board[verticale][horizontale] == existingBall
      modifies this, pos.Keys
      ensures playerBalls == old(playerBalls)
      decreases depth, 0
      ensures var t := Pushed(pos[existingBall], pos[bille], horizontale, verticale);
              board == PushBoard(old(board), pos, existingBall, t.0, t.1, depth - 1) &&
              Accurate(PushPositions(old(board), pos, existingBall, t.0, t.1, depth - 1))
    {
      var x, y := bille.GetPosHorizontale(), bille.GetPosVerticale();
      var xStep, yStep := 0, 0;
      if x != horizontale { xStep := Abs(horizontale - x) / (horizontale - x); }
      if y != verticale { yStep := Abs(verticale - y) / (verticale - y); }
      ghost var t := Pushed(pos[existingBall], pos[bille], horizontale, verticale);
      assert (x, y) == pos[bille] && (existingBall.posH, existingBall.posV) == pos[existingBall];
      assert xStep == Step(x, horizontale) && yStep == Step(y, verticale);
      assert existingBall.GetPosHorizontale() + xStep == t.0 && existingBall.GetPosVerticale() + yStep == t.1;
      ghost var b0 := board;
      MoveBilleAtPos(existingBall, existingBall.GetPosHorizontale() + xStep,
                     existingBall.GetPosVerticale() + yStep, pos, depth - 1);
      assert Accurate(PushPositions(b0, pos, existingBall, t.0, t.1, depth - 1));
    }

    /** The last two statements of moveBilleAtPos: the marble is written into
        the target cell, then takes the target as its position. A record of
        positions that was accurate stays so once it is updated for `bille`. */
    method Place(bille: Bille, horizontale: int, verticale: int, ghost before: Positions)
      requires bille in before && Accurate(before)
      requires InBounds(board, verticale, horizontale) && Settable(horizontale, verticale)
      modifies this, bille
      ensures playerBalls == old(playerBalls)
      ensures board == old(board)[verticale := old(board)[verticale][horizontale := bille]]
      ensures Accurate(before[bille := (horizontale, verticale)])
    {
      board := board[verticale := board[verticale][horizontale := bille]];
      bille.SetPosition(horizontale, verticale);
    }

    function GetBilleAtPos(horizontale: int, verticale: int): (r: Bille?)
      reads this
      requires InBounds(board, verticale, horizontale)
      ensures r == board[verticale][horizontale]
    {
      board[verticale][horizontale]
    }

    /** Right after init no colour is a key of playerBalls, so no player can move. */
    static method FreshGameCannotMove(couleur: string) returns (r: bool)
      ensures !r
    {
      var jeu := new Jeu();
      r := jeu.CanPlayerMove(couleur);
    }
  }
}
