/**
  Move execution: `gameMode_makeMove` for a move onto an empty square and
  `gameMode_takePiece` for a capture. Both do nothing unless the move is
  valid; otherwise they relocate the selected piece, mark it moved, clear the
  selection and pass the turn.
 */
module Moves {
  import opened Wrappers
  import opened Pieces
  import opened Board
  import opened Rules

  /** Every square other than the two named ones holds the same thing in both grids. */
  ghost predicate SameElsewhere(a: Grid, b: Grid, r1: int, c1: int, r2: int, c2: int)
    requires GridShape(a) && GridShape(b)
  {
    forall i, j :: InBounds(i, j) && !(i == r1 && j == c1) && !(i == r2 && j == c2) ==> a[i][j] == b[i][j]
  }

  /**
    `gameMode_makeMove`. The selected piece is taken off its square and out of
    its colour's set, its record is moved to (row, col) and marked moved, and
    it is written to the destination square and put back into the set.
   */
  function MakeMove(g: Game, row: int, col: int): (r: Game)
    requires Valid(g) && g.active.Some?
    ensures !IsValidMove(g, row, col) ==> r == g
    ensures IsValidMove(g, row, col) ==>
      var id := g.active.value;
      var p := ActivePiece(g);
      && GridShape(r.grid)
      && r.grid[p.row][p.col].None?
      && r.grid[row][col] == Some(id)
      && SameElsewhere(r.grid, g.grid, p.row, p.col, row, col)
      && r.pieces == g.pieces[id := p.(row := row, col := col, moved := true)]
      && r.whitePieces == g.whitePieces && r.blackPieces == g.blackPieces
      && r.active.None?
      && r.turn == g.turn + 1
  {
    if IsValidMove(g, row, col) then
      var id := g.active.value;
      var p := ActivePiece(g);
      var g1 := g.(grid := SetCell(g.grid, p.row, p.col, None));
      var g2 := WithPiecesOf(g1, p.color, PiecesOf(g1, p.color) - {id});
      var mover := p.(row := row, col := col, moved := true);
      var g3 := g2.(pieces := g2.pieces[id := mover], grid := SetCell(g2.grid, row, col, Some(id)));
      var g4 := WithPiecesOf(g3, mover.color, PiecesOf(g3, mover.color) + {id});
      g4.(active := None, turn := g4.turn + 1)
    else
      g
  }

  /**
    `gameMode_takePiece`. The selected piece leaves its square and moves to
    (row, col); the piece that stood there is removed from its colour's set
    and overwritten on the grid. The caller only invokes it on a square that
    holds a piece: the program reads that piece's colour and would fail on an
    empty square.
   */
  function TakePiece(g: Game, row: int, col: int): (r: Game)
    requires Valid(g) && g.active.Some?
    requires IsValidMove(g, row, col) ==> g.grid[row][col].Some?
    ensures !IsValidMove(g, row, col) ==> r == g
    ensures IsValidMove(g, row, col) ==>
      var id := g.active.value;
      var p := ActivePiece(g);
      var taken := g.grid[row][col].value;
      var takenColor := g.pieces[taken].color;
      && taken != id
      && GridShape(r.grid)
      && r.grid[p.row][p.col].None?
      && r.grid[row][col] == Some(id)
      && SameElsewhere(r.grid, g.grid, p.row, p.col, row, col)
      && r.pieces == g.pieces[id := p.(row := row, col := col, moved := true)]
      && taken in PiecesOf(g, takenColor)
      && PiecesOf(r, takenColor) == PiecesOf(g, takenColor) - {taken}
      && PiecesOf(r, Opponent(takenColor)) == PiecesOf(g, Opponent(takenColor))
      && r.active.None?
      && r.turn == g.turn + 1
  {
    if IsValidMove(g, row, col) then
      var id := g.active.value;
      var p := ActivePiece(g);
      var grid1 := SetCell(g.grid, p.row, p.col, None);
      var pieces1 := g.pieces[id := p.(row := row, col := col, moved := true)];
      var taken := grid1[row][col].value;
      assert Placed(g, taken, row, col);
      var g1 := g.(grid := grid1, pieces := pieces1);
      var g2 := WithPiecesOf(g1, pieces1[taken].color, PiecesOf(g1, pieces1[taken].color) - {taken});
      g2.(grid := SetCell(grid1, row, col, Some(id)), active := None, turn := g.turn + 1)
    else
      g
  }

  /**
    A valid move onto an empty square keeps the grid and the colour sets in
    agreement, and leaves no piece selected. The only caller, a click on an
    empty square, guarantees the destination is empty.
   */
  lemma MakeMoveKeepsValid(g: Game, row: int, col: int)
    requires Valid(g) && g.active.Some? && InBounds(row, col) && g.grid[row][col].None?
    ensures Valid(MakeMove(g, row, col))
  {
    var r := MakeMove(g, row, col);
    if IsValidMove(g, row, col) {
      var id := g.active.value;
      var p := ActivePiece(g);
      assert Placed(g, id, p.row, p.col);
      forall i, j | InBounds(i, j) && r.grid[i][j].Some?
        ensures r.grid[i][j].value in r.pieces && Placed(r, r.grid[i][j].value, i, j)
      {
        if !(i == row && j == col) {
          var q := g.grid[i][j].value;
          assert Placed(g, q, i, j);
        }
      }
      forall c, q | q in PiecesOf(r, c)
        ensures OnBoardAs(r, q, c)
      {
        assert q in PiecesOf(g, c);
        assert OnBoardAs(g, q, c);
      }
    }
  }

  /**
    A valid capture keeps the grid and the colour sets in agreement: the
    captured piece leaves both views together, and no piece is selected.
   */
  lemma TakePieceKeepsValid(g: Game, row: int, col: int)
    requires Valid(g) && g.active.Some?
    requires IsValidMove(g, row, col) ==> g.grid[row][col].Some?
    ensures Valid(TakePiece(g, row, col))
  {
    var r := TakePiece(g, row, col);
    if IsValidMove(g, row, col) {
      var id := g.active.value;
      var p := ActivePiece(g);
      var taken := g.grid[row][col].value;
      var takenColor := g.pieces[taken].color;
      assert Placed(g, id, p.row, p.col);
      assert Placed(g, taken, row, col);
      forall i, j | InBounds(i, j) && r.grid[i][j].Some?
        ensures r.grid[i][j].value in r.pieces && Placed(r, r.grid[i][j].value, i, j)
      {
        if !(i == row && j == col) {
          var q := g.grid[i][j].value;
          assert Placed(g, q, i, j);
          assert q != taken;
        }
      }
      forall c, q | q in PiecesOf(r, c)
        ensures OnBoardAs(r, q, c)
      {
        assert q in PiecesOf(g, c);
        assert OnBoardAs(g, q, c);
        assert q != taken;
      }
    }
  }
}
