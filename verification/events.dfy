/**
  The square-level logic of a mouse click: select a piece of the player to
  move, switch the selection to another of that player's pieces, capture an
  enemy piece, or move to an empty square. `Click` takes the square a click
  landed on; `Press` takes the pixel position and converts it first.
 */
module Events {
  import opened Wrappers
  import opened Pieces
  import opened Board
  import opened Rules
  import opened Moves
  import opened Setup
  import opened Pixels

  /**
    `gameMode_mousePressed` for a click on square (row, col). The turn passes
    exactly when a piece is selected, the square is not held by the player to
    move, and the move is valid; the mover never loses a piece, and a click
    that does not pass the turn leaves the position untouched.
   */
  function Click(g: Game, row: int, col: int): (r: Game)
    requires Valid(g) && InBounds(row, col)
    ensures Valid(r)
    ensures r.turn == g.turn || r.turn == g.turn + 1
    ensures r.turn == g.turn + 1
        <==> g.active.Some? && IsValidMove(g, row, col) && ColorAt(g, row, col) != Some(Current(g))
    ensures r.turn == g.turn + 1 ==>
              && r.active.None? && Current(r) == Opponent(Current(g))
              && r.grid[row][col] == g.active
              && PiecesOf(r, Current(g)) == PiecesOf(g, Current(g))
    ensures r.turn == g.turn + 1 ==>
              && g.active.Some?
              && r == if g.grid[row][col].Some? then TakePiece(g, row, col) else MakeMove(g, row, col)
    ensures r.turn == g.turn ==>
              && r.grid == g.grid && r.pieces == g.pieces
              && r.whitePieces == g.whitePieces && r.blackPieces == g.blackPieces
    ensures ColorAt(g, row, col) == Some(Current(g)) ==> r == g.(active := g.grid[row][col])
    ensures g.active.None? && ColorAt(g, row, col) != Some(Current(g)) ==> r == g
    ensures g.active.Some? && ColorAt(g, row, col) != Some(Current(g)) && !IsValidMove(g, row, col) ==> r == g
    ensures forall c :: PiecesOf(r, c) <= PiecesOf(g, c)
  {
    match g.grid[row][col]
    case Some(id) =>
      assert Placed(g, id, row, col);
      if g.active.None? then
        if g.pieces[id].color != Current(g) then g
        else Select(g, id)
      else if ActivePiece(g).color == g.pieces[id].color then
        Select(g, id)
      else
        TakePieceKeepsValid(g, row, col);
        TakePiece(g, row, col)
    case None =>
      if g.active.Some? then
        MakeMoveKeepsValid(g, row, col);
        MakeMove(g, row, col)
      else
        g
  }

  /** Makes `id`, a live piece of the player to move, the selected piece. */
  function Select(g: Game, id: PieceId): (r: Game)
    requires Valid(g) && id in PiecesOf(g, Current(g))
    ensures Valid(r) && r.active == Some(id)
    ensures r.grid == g.grid && r.pieces == g.pieces && r.turn == g.turn
    ensures r.whitePieces == g.whitePieces && r.blackPieces == g.blackPieces
  {
    var r := g.(active := Some(id));
    assert forall c :: PiecesOf(r, c) == PiecesOf(g, c);
    r
  }

  /** Every click of a sequence lands on a square of the board. */
  predicate OnBoard(clicks: seq<(int, int)>) {
    forall k :: 0 <= k < |clicks| ==> InBounds(clicks[k].0, clicks[k].1)
  }

  /**
    A session of clicks, applied in order. The invariant holds throughout,
    each click passes the turn at most once, and no colour ever gains a piece.
   */
  function Run(g: Game, clicks: seq<(int, int)>): (r: Game)
    requires Valid(g) && OnBoard(clicks)
    ensures Valid(r)
    ensures g.turn <= r.turn <= g.turn + |clicks|
    ensures forall c :: PiecesOf(r, c) <= PiecesOf(g, c)
    decreases |clicks|
  {
    if |clicks| == 0 then g
    else
      var next := Click(g, clicks[0].0, clicks[0].1);
      Run(next, clicks[1..])
  }

  /**
    A press at pixel (x, y): ignored off the board, otherwise a click on the
    square `getRowCol` gives. The board test is the corrected `inBoard`, so
    every press that reaches the click logic names a square of the grid.
   */
  function Press(g: Game, x: int, y: int): (r: Game)
    requires Valid(g)
    ensures Valid(r)
    ensures r.turn == g.turn || r.turn == g.turn + 1
    ensures !InBoard(x, y) ==> r == g
    ensures InBoard(x, y) ==>
              var (row, col) := RowColOf(x, y);
              && InBounds(row, col)
              && (r.turn == g.turn + 1
                  <==> g.active.Some? && IsValidMove(g, row, col) && ColorAt(g, row, col) != Some(Current(g)))
    ensures InBoard(x, y) ==> r == Click(g, RowColOf(x, y).0, RowColOf(x, y).1)
    ensures forall c :: PiecesOf(r, c) <= PiecesOf(g, c)
  {
    if InBoard(x, y) then
      InBoardMeansOnBoard(x, y);
      Click(g, RowColOf(x, y).0, RowColOf(x, y).1)
    else
      g
  }

  /**
    A session of presses at arbitrary pixels: the invariant holds throughout,
    each press passes the turn at most once, and no colour ever gains a piece.
   */
  function RunPresses(g: Game, presses: seq<(int, int)>): (r: Game)
    requires Valid(g)
    ensures Valid(r)
    ensures g.turn <= r.turn <= g.turn + |presses|
    ensures forall c :: PiecesOf(r, c) <= PiecesOf(g, c)
    decreases |presses|
  {
    if |presses| == 0 then g
    else RunPresses(Press(g, presses[0].0, presses[0].1), presses[1..])
  }

  /**
    The first clicks of a game from the starting layout: black's pieces cannot
    be selected, a white pawn steps one square but not two, a knight may jump
    over the pawn row (its jump onto an own pawn is valid, but the click
    selects that pawn instead), and a rook is walled in by its own pawn.
   */
  lemma OpeningClicks(g: Game)
    requires Valid(g) && g.turn == 0 && g.active.None?
    requires forall r, c :: InBounds(r, c) ==>
               if Home(r, c).Some? then HomeFilled(g, r, c) else g.grid[r][c].None?
    ensures Click(g, 1, 4) == g
    ensures var s := Click(g, 6, 4);
            s.active == Some(PieceId(6, 4)) && IsValidMove(s, 5, 4) && !IsValidMove(s, 4, 4)
    ensures var s := Click(g, 7, 1);
            && s.active == Some(PieceId(7, 1))
            && IsValidMove(s, 5, 2) && IsValidMove(s, 5, 0)
            && Click(s, 5, 2).turn == 1
            && IsValidMove(s, 6, 3) && Click(s, 6, 3).active == Some(PieceId(6, 3))
    ensures var s := Click(g, 7, 0);
            s.active == Some(PieceId(7, 0)) && !IsValidMove(s, 5, 0) && !IsValidMove(s, 6, 0)
  {
  }
}
