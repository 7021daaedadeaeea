/**
  Move validation: the offset-and-bounds gate and the unit-step path walk
  that looks for blocking pieces.
 */
module Rules {
  import opened Wrappers
  import opened Pieces
  import opened Board

  /**
    Result of the path walk: `Blocked` is the program's False, `Clear` its
    True, `Capture` its "takePiece".
   */
  datatype WalkResult = Blocked | Clear | Capture

  /**
    The unit step along one axis. The program divides the displacement by its
    Euclidean length and rounds away from zero, which gives the sign of every
    non-zero displacement component.
   */
  function Sign(x: int): int {
    if x > 0 then 1 else if x < 0 then -1 else 0
  }

  /** The coordinate reached from `start` after `k` unit steps in direction `u`. */
  function Along(start: int, u: int, k: int): int {
    if u > 0 then start + k else if u < 0 then start - k else start
  }

  /** A direction of one of the eight neighbouring squares. */
  predicate IsUnit(ur: int, uc: int) {
    -1 <= ur <= 1 && -1 <= uc <= 1 && (ur != 0 || uc != 0)
  }

  /** The number of unit steps a line displacement takes. */
  function Steps(dr: int, dc: int): nat {
    if Abs(dr) >= Abs(dc) then Abs(dr) else Abs(dc)
  }

  /**
    Stepping by the signs of a non-zero rank, file or diagonal displacement
    reaches the displacement exactly, after `Steps` steps.
   */
  lemma SignStepsReach(dr: int, dc: int)
    requires OnLine((dr, dc)) && (dr, dc) != (0, 0)
    ensures IsUnit(Sign(dr), Sign(dc)) && Steps(dr, dc) >= 1
    ensures Along(0, Sign(dr), Steps(dr, dc)) == dr && Along(0, Sign(dc), Steps(dr, dc)) == dc
  {
  }

  /** Square (r, c) of the grid, read as empty outside the grid. */
  function CellAt(grid: Grid, r: int, c: int): Option<PieceId> {
    if 0 <= r < |grid| && 0 <= c < |grid[r]| then grid[r][c] else None
  }

  /** The squares `i` .. `n - 1` unit steps from the origin are all empty. */
  ghost predicate ClearFrom(g: Game, orow: int, ocol: int, ur: int, uc: int, i: int, n: int) {
    forall k :: i <= k < n ==> CellAt(g.grid, Along(orow, ur, k), Along(ocol, uc, k)).None?
  }

  /** What the walk reports on reaching the destination square itself. */
  function DestOutcome(g: Game, color: Color, r: int, c: int): WalkResult
    requires WellFormed(g) && InBounds(r, c)
  {
    match ColorAt(g, r, c)
    case None => Clear
    case Some(other) => if other == color then Blocked else Capture
  }

  /**
    The intended outcome of walking `n` steps from the origin to (mrow, mcol):
    blocked by any piece strictly between, otherwise decided by the destination.
   */
  ghost function LineOutcome(g: Game, color: Color, orow: int, ocol: int, ur: int, uc: int,
                             n: int, mrow: int, mcol: int): WalkResult
    requires WellFormed(g) && InBounds(mrow, mcol)
  {
    if ClearFrom(g, orow, ocol, ur, uc, 1, n) then DestOutcome(g, color, mrow, mcol) else Blocked
  }

  /**
    The loop of `gameMode_checkBlockingPieces`, from the square `i` steps out
    of the origin: it stops when it has stepped past the destination, stops
    with Blocked at a piece of the mover's colour or at any piece before the
    destination, and stops with Capture at an enemy on the destination.
    `n`, the number of steps to the destination, is only the termination measure.
   */
  function Walk(g: Game, color: Color, orow: int, ocol: int, ur: int, uc: int,
                mrow: int, mcol: int, n: nat, i: nat): (res: WalkResult)
    requires WellFormed(g) && IsUnit(ur, uc)
    requires InBounds(orow, ocol) && InBounds(mrow, mcol)
    requires mrow == Along(orow, ur, n) && mcol == Along(ocol, uc, n)
    requires 1 <= i <= n + 1
    ensures res == Capture ==> ColorAt(g, mrow, mcol) == Some(Opponent(color))
    ensures res == Clear && i <= n ==> g.grid[mrow][mcol].None?
    decreases n + 1 - i
  {
    var tr, tc := Along(orow, ur, i), Along(ocol, uc, i);
    if tr == mrow + ur && tc == mcol + uc then Clear
    else
      match g.grid[tr][tc]
      case None => Walk(g, color, orow, ocol, ur, uc, mrow, mcol, n, i + 1)
      case Some(id) =>
        if g.pieces[id].color == color then Blocked
        else if tr != mrow || tc != mcol then Blocked
        else Capture
  }

  /** The walk from step `i` returns exactly the outcome its reference description gives. */
  lemma {:induction false} WalkMatchesLine(g: Game, color: Color, orow: int, ocol: int, ur: int, uc: int,
                                           mrow: int, mcol: int, n: nat, i: nat)
    requires WellFormed(g) && IsUnit(ur, uc)
    requires InBounds(orow, ocol) && InBounds(mrow, mcol)
    requires mrow == Along(orow, ur, n) && mcol == Along(ocol, uc, n)
    requires 1 <= i <= n
    ensures Walk(g, color, orow, ocol, ur, uc, mrow, mcol, n, i)
         == if ClearFrom(g, orow, ocol, ur, uc, i, n) then DestOutcome(g, color, mrow, mcol) else Blocked
    decreases n - i
  {
    var tr, tc := Along(orow, ur, i), Along(ocol, uc, i);
    assert InBounds(tr, tc);
    assert CellAt(g.grid, tr, tc) == g.grid[tr][tc];
    if i == n {
      assert tr == mrow && tc == mcol;
    } else {
      assert tr != mrow || tc != mcol;
      if g.grid[tr][tc].None? {
        WalkMatchesLine(g, color, orow, ocol, ur, uc, mrow, mcol, n, i + 1);
        assert ClearFrom(g, orow, ocol, ur, uc, i, n) <==> ClearFrom(g, orow, ocol, ur, uc, i + 1, n);
      } else {
        assert !ClearFrom(g, orow, ocol, ur, uc, i, n);
      }
    }
  }

  /**
    `gameMode_checkBlockingPieces` for a destination that passed the gate. A
    knight skips the walk; every other piece walks unit steps from its square
    towards the destination.
   */
  function CheckBlockingPieces(g: Game, mrow: int, mcol: int): (res: WalkResult)
    requires Valid(g) && g.active.Some? && InBounds(mrow, mcol)
    requires (mrow - ActivePiece(g).row, mcol - ActivePiece(g).col)
             in PosMoves(ActivePiece(g).kind, ActivePiece(g).color)
    ensures ActivePiece(g).kind == Knight ==> res == Clear
    ensures var p := ActivePiece(g); var dr, dc := mrow - p.row, mcol - p.col;
            p.kind != Knight ==>
              res == LineOutcome(g, p.color, p.row, p.col, Sign(dr), Sign(dc), Steps(dr, dc), mrow, mcol)
  {
    var p := ActivePiece(g);
    var dr, dc := mrow - p.row, mcol - p.col;
    if p.kind != Knight then
      OffsetGeometry(p.kind, p.color);
      SignStepsReach(dr, dc);
      WalkMatchesLine(g, p.color, p.row, p.col, Sign(dr), Sign(dc), mrow, mcol, Steps(dr, dc), 1);
      Walk(g, p.color, p.row, p.col, Sign(dr), Sign(dc), mrow, mcol, Steps(dr, dc), 1)
    else
      Clear
  }

  /**
    `gameMode_isValidMove`: the displacement must be one of the selected
    piece's `posMoves`, the destination must be on the board, and the walk
    must report clear or "takePiece".
   */
  function IsValidMove(g: Game, mrow: int, mcol: int): (ok: bool)
    requires Valid(g) && g.active.Some?
    ensures ok ==> InBounds(mrow, mcol) && (mrow != ActivePiece(g).row || mcol != ActivePiece(g).col)
    ensures var p := ActivePiece(g); var dr, dc := mrow - p.row, mcol - p.col;
            ok <==>
              && (dr, dc) in PosMoves(p.kind, p.color)
              && InBounds(mrow, mcol)
              && (p.kind != Knight ==>
                    && ClearFrom(g, p.row, p.col, Sign(dr), Sign(dc), 1, Steps(dr, dc))
                    && ColorAt(g, mrow, mcol) != Some(p.color))
  {
    var p := ActivePiece(g);
    var d := (mrow - p.row, mcol - p.col);
    OffsetGeometry(p.kind, p.color);
    if d !in PosMoves(p.kind, p.color) || !InBounds(mrow, mcol) then
      false
    else
      var result := CheckBlockingPieces(g, mrow, mcol);
      result == Clear || result == Capture
  }

  /** Every square the walk visits, from the first step to the destination, is on the board. */
  lemma WalkStaysInBounds(orow: int, ocol: int, ur: int, uc: int, n: nat)
    requires IsUnit(ur, uc) && InBounds(orow, ocol) && InBounds(Along(orow, ur, n), Along(ocol, uc, n))
    ensures forall k :: 1 <= k <= n ==> InBounds(Along(orow, ur, k), Along(ocol, uc, k))
  {
  }

  /**
    A knight's validity depends only on its offset set and the board edges:
    two boards that agree on the selected knight give the same answer,
    whatever stands on the destination or in between.
   */
  lemma KnightIgnoresOccupancy(g: Game, h: Game, mrow: int, mcol: int)
    requires Valid(g) && Valid(h) && g.active.Some? && g.active == h.active
    requires ActivePiece(g) == ActivePiece(h) && ActivePiece(g).kind == Knight
    ensures IsValidMove(g, mrow, mcol) == IsValidMove(h, mrow, mcol)
    ensures IsValidMove(g, mrow, mcol)
        <==> (mrow - ActivePiece(g).row, mcol - ActivePiece(g).col) in KnightMoves() && InBounds(mrow, mcol)
  {
  }

  /**
    `takeMoves` is never consulted: a pawn's diagonal capture offset never
    passes validation, whatever stands on the target square.
   */
  lemma PawnDiagonalNeverValid(g: Game, mrow: int, mcol: int)
    requires Valid(g) && g.active.Some? && ActivePiece(g).kind == Pawn
    requires (mrow - ActivePiece(g).row, mcol - ActivePiece(g).col) in TakeMoves(Pawn, ActivePiece(g).color)
    ensures !IsValidMove(g, mrow, mcol)
  {
  }

  /**
    What a pawn can do instead: its single forward step is valid onto an
    empty square and also onto an enemy piece, which the walk reports as
    "takePiece"; a piece of its own colour blocks it.
   */
  lemma PawnForwardStep(g: Game)
    requires Valid(g) && g.active.Some? && ActivePiece(g).kind == Pawn
    requires InBounds(ActivePiece(g).row + Forward(ActivePiece(g).color), ActivePiece(g).col)
    ensures var p := ActivePiece(g); var fr := p.row + Forward(p.color);
            IsValidMove(g, fr, p.col) <==> ColorAt(g, fr, p.col) != Some(p.color)
    ensures var p := ActivePiece(g); var fr := p.row + Forward(p.color);
            (ColorAt(g, fr, p.col) == Some(Opponent(p.color)) ==> CheckBlockingPieces(g, fr, p.col) == Capture)
  {
    var p := ActivePiece(g);
    assert ClearFrom(g, p.row, p.col, Sign(Forward(p.color)), Sign(0), 1, 1);
  }
}
