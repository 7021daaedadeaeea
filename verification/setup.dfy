/**
  The starting position built by `appStarted` and `initializeBoard`: pawns on
  the second and seventh rows, rooks, knights and bishops mirrored on the back
  rows, and the queen and king on the two centre files, black's king on
  column 3 and white's on column 4.
 */
module Setup {
  import opened Wrappers
  import opened Pieces
  import opened Board

  /** The kind standing on column `c` of a back row of colour `color`. */
  function BackRankKind(color: Color, c: int): Kind {
    if c == 0 || c == Cols - 1 then Rook
    else if c == 1 || c == Cols - 2 then Knight
    else if c == 2 || c == Cols - 3 then Bishop
    else if color == White then (if c == 3 then Queen else King)
    else (if c == 3 then King else Queen)
  }

  /** The piece a square holds in the starting position, if any. */
  function Home(r: int, c: int): Option<Piece> {
    if !InBounds(r, c) then None
    else if r == 1 then Some(Piece(Pawn, Black, r, c, false))
    else if r == Rows - 2 then Some(Piece(Pawn, White, r, c, false))
    else if r == 0 then Some(Piece(BackRankKind(Black, c), Black, r, c, false))
    else if r == Rows - 1 then Some(Piece(BackRankKind(White, c), White, r, c, false))
    else None
  }

  /** Every created piece still stands on the square it was created on. */
  ghost predicate AtHome(g: Game) {
    && GridShape(g.grid)
    && forall q :: q in g.pieces ==> InBounds(q.row0, q.col0) && g.grid[q.row0][q.col0] == Some(q)
  }

  /** Square (r, c) holds its starting piece. */
  ghost predicate HomeFilled(g: Game, r: int, c: int)
    requires GridShape(g.grid) && InBounds(r, c)
  {
    && Home(r, c).Some?
    && g.grid[r][c] == Some(PieceId(r, c))
    && PieceId(r, c) in g.pieces
    && g.pieces[PieceId(r, c)] == Home(r, c).value
  }

  /** Exactly the rows in `done` hold their starting pieces; every other square is empty. */
  ghost predicate RowsFilled(g: Game, done: set<int>)
    requires GridShape(g.grid)
  {
    forall r, c :: InBounds(r, c) ==> if r in done then HomeFilled(g, r, c) else g.grid[r][c].None?
  }

  /**
    The state `appStarted` builds: an empty grid and empty colour sets filled
    by `initializeBoard`, turn index 0 (white to move) and nothing selected.
   */
  method InitialGame() returns (g: Game)
    ensures Valid(g)
    ensures g.turn == 0 && g.active.None? && Current(g) == White
    ensures forall r, c :: InBounds(r, c) ==>
              if Home(r, c).Some? then HomeFilled(g, r, c) else g.grid[r][c].None?
    ensures |g.whitePieces| == 16 && |g.blackPieces| == 16
    ensures forall q :: q in g.blackPieces ==> q in g.pieces && (g.pieces[q].row == 0 || g.pieces[q].row == 1)
    ensures forall q :: q in g.whitePieces ==> q in g.pieces && (g.pieces[q].row == 6 || g.pieces[q].row == 7)
    ensures g.grid[0][3] == Some(PieceId(0, 3)) && g.pieces[PieceId(0, 3)] == Piece(King, Black, 0, 3, false)
    ensures g.grid[0][4] == Some(PieceId(0, 4)) && g.pieces[PieceId(0, 4)] == Piece(Queen, Black, 0, 4, false)
    ensures g.grid[7][3] == Some(PieceId(7, 3)) && g.pieces[PieceId(7, 3)] == Piece(Queen, White, 7, 3, false)
    ensures g.grid[7][4] == Some(PieceId(7, 4)) && g.pieces[PieceId(7, 4)] == Piece(King, White, 7, 4, false)
  {
    g := InitializeBoard(EmptyGame());
    StartingRows(g);
  }

  /** The application state before `initializeBoard`: empty grid, empty colour sets. */
  function EmptyGame(): (g: Game)
    ensures Consistent(g) && AtHome(g) && RowsFilled(g, {})
    ensures |g.whitePieces| == 0 && |g.blackPieces| == 0
    ensures g.active.None? && g.turn == 0
  {
    Game(EmptyGrid(), map[], {}, {}, None, 0)
  }

  /** `initializeBoard`: the pawn loop, then one pass per back row. */
  method InitializeBoard(g0: Game) returns (g: Game)
    requires Consistent(g0) && AtHome(g0) && RowsFilled(g0, {})
    requires |g0.whitePieces| == 0 && |g0.blackPieces| == 0
    ensures Consistent(g) && RowsFilled(g, {0, 1, Rows - 2, Rows - 1})
    ensures |g.whitePieces| == 16 && |g.blackPieces| == 16
    ensures g.active == g0.active && g.turn == g0.turn
  {
    g := PlacePawns(g0);
    g := PlaceBackRanks(g);
  }

  /** The loop of `initializeBoard` over the two back rows: black's back row, then white's. */
  method PlaceBackRanks(g0: Game) returns (g: Game)
    requires Consistent(g0) && AtHome(g0) && RowsFilled(g0, {1, Rows - 2})
    ensures Consistent(g) && RowsFilled(g, {0, 1, Rows - 2, Rows - 1})
    ensures |g.whitePieces| == |g0.whitePieces| + 8 && |g.blackPieces| == |g0.blackPieces| + 8
    ensures g.active == g0.active && g.turn == g0.turn
  {
    g := PlaceBackRank(g0, 0, {1, Rows - 2});
    g := PlaceBackRank(g, Rows - 1, {1, Rows - 2} + {0});
    assert {1, Rows - 2} + {0} + {Rows - 1} == {0, 1, Rows - 2, Rows - 1};
  }

  /**
    In the full starting layout each colour's live pieces stand on that
    colour's two rows, and the kings and queens stand on the centre files.
   */
  lemma StartingRows(g: Game)
    requires Consistent(g) && RowsFilled(g, {0, 1, Rows - 2, Rows - 1})
    ensures forall r, c :: InBounds(r, c) ==>
              if Home(r, c).Some? then HomeFilled(g, r, c) else g.grid[r][c].None?
    ensures forall q :: q in g.blackPieces ==> q in g.pieces && (g.pieces[q].row == 0 || g.pieces[q].row == 1)
    ensures forall q :: q in g.whitePieces ==> q in g.pieces && (g.pieces[q].row == 6 || g.pieces[q].row == 7)
    ensures g.grid[0][3] == Some(PieceId(0, 3)) && g.pieces[PieceId(0, 3)] == Piece(King, Black, 0, 3, false)
    ensures g.grid[0][4] == Some(PieceId(0, 4)) && g.pieces[PieceId(0, 4)] == Piece(Queen, Black, 0, 4, false)
    ensures g.grid[7][3] == Some(PieceId(7, 3)) && g.pieces[PieceId(7, 3)] == Piece(Queen, White, 7, 3, false)
    ensures g.grid[7][4] == Some(PieceId(7, 4)) && g.pieces[PieceId(7, 4)] == Piece(King, White, 7, 4, false)
  {
    assert HomeFilled(g, 0, 3) && HomeFilled(g, 0, 4) && HomeFilled(g, 7, 3) && HomeFilled(g, 7, 4);
    forall c, q | q in PiecesOf(g, c)
      ensures q in g.pieces
      ensures c == Black ==> g.pieces[q].row == 0 || g.pieces[q].row == 1
      ensures c == White ==> g.pieces[q].row == 6 || g.pieces[q].row == 7
    {
      assert OnBoardAs(g, q, c);
      var r, col := g.pieces[q].row, g.pieces[q].col;
      assert g.grid[r][col].Some?;
      assert HomeFilled(g, r, col);
    }
  }

  /** The first loop of `initializeBoard`: a black and a white pawn on every column. */
  method PlacePawns(g0: Game) returns (g: Game)
    requires Consistent(g0) && AtHome(g0) && RowsFilled(g0, {})
    requires |g0.whitePieces| == 0 && |g0.blackPieces| == 0
    ensures Consistent(g) && AtHome(g) && RowsFilled(g, {1, Rows - 2})
    ensures |g.whitePieces| == Cols && |g.blackPieces| == Cols
    ensures g.active == g0.active && g.turn == g0.turn
  {
    g := g0;
    assert PawnsUpTo(g, 0);
    for col := 0 to Cols
      invariant Consistent(g) && AtHome(g) && PawnsUpTo(g, col)
      invariant |g.whitePieces| == col && |g.blackPieces| == col
      invariant g.active == g0.active && g.turn == g0.turn
    {
      g := PlacePawnPair(g, col);
    }
    assert RowsFilled(g, {1, Rows - 2});
  }

  /** One pass of the pawn loop: the black pawn and then the white pawn of column `col`. */
  function PlacePawnPair(g: Game, col: int): (g': Game)
    requires Consistent(g) && AtHome(g) && 0 <= col < Cols && PawnsUpTo(g, col)
    ensures Consistent(g') && AtHome(g') && PawnsUpTo(g', col + 1)
    ensures |g'.whitePieces| == |g.whitePieces| + 1 && |g'.blackPieces| == |g.blackPieces| + 1
    ensures g'.active == g.active && g'.turn == g.turn
  {
    assert InBounds(1, col) && InBounds(Rows - 2, col);
    var g1 := PlaceHome(g, 1, col);
    var g2 := PlaceHome(g1, Rows - 2, col);
    PawnsStep(g, g1, g2, col);
    g2
  }

  /** The pawn rows are filled on columns below `col`; every other square is empty. */
  ghost predicate PawnsUpTo(g: Game, col: int)
    requires GridShape(g.grid)
  {
    forall r, c :: InBounds(r, c) ==>
      if (r == 1 || r == Rows - 2) && c < col then HomeFilled(g, r, c) else g.grid[r][c].None?
  }

  lemma PawnsStep(g: Game, g1: Game, g2: Game, col: int)
    requires GridShape(g.grid) && GridShape(g1.grid) && GridShape(g2.grid) && 0 <= col < Cols
    requires PawnsUpTo(g, col)
    requires HomeFilled(g1, 1, col) && HomeFilled(g2, Rows - 2, col)
    requires forall i, j :: InBounds(i, j) && (i != 1 || j != col) ==> g1.grid[i][j] == g.grid[i][j]
    requires forall i, j :: InBounds(i, j) && (i != Rows - 2 || j != col) ==> g2.grid[i][j] == g1.grid[i][j]
    requires forall q :: q in g.pieces ==> q in g1.pieces && g1.pieces[q] == g.pieces[q]
    requires forall q :: q in g1.pieces ==> q in g2.pieces && g2.pieces[q] == g1.pieces[q]
    ensures PawnsUpTo(g2, col + 1)
  {
    forall r, c | InBounds(r, c)
      ensures if (r == 1 || r == Rows - 2) && c < col + 1 then HomeFilled(g2, r, c) else g2.grid[r][c].None?
    {
      if (r == 1 || r == Rows - 2) && c < col {
        assert HomeFilled(g, r, c);
      }
    }
  }

  /** Creates the starting piece of square (r, c) there and adds it to its colour's set. */
  function PlaceHome(g: Game, r: int, c: int): (g': Game)
    requires Consistent(g) && AtHome(g) && InBounds(r, c) && Home(r, c).Some? && g.grid[r][c].None?
    ensures Consistent(g') && AtHome(g')
    ensures HomeFilled(g', r, c)
    ensures forall i, j :: InBounds(i, j) && (i != r || j != c) ==> g'.grid[i][j] == g.grid[i][j]
    ensures forall q :: q in g.pieces ==> q in g'.pieces && g'.pieces[q] == g.pieces[q]
    ensures |PiecesOf(g', Home(r, c).value.color)| == |PiecesOf(g, Home(r, c).value.color)| + 1
    ensures PiecesOf(g', Opponent(Home(r, c).value.color)) == PiecesOf(g, Opponent(Home(r, c).value.color))
    ensures g'.active == g.active && g'.turn == g.turn
  {
    var p := Home(r, c).value;
    Place(g, PieceId(r, c), p.kind, p.color, r, c)
  }

  /**
    The order in which one pass of the back-row loop of `initializeBoard` fills
    a back row: rooks, knights and bishops on mirrored columns, then the
    queen and the king (black's queen goes to column 4, white's to column 3).
   */
  function BackRankOrder(row: int): seq<int> {
    if row == 0 then [0, Cols - 1, 1, Cols - 2, 2, Cols - 3, 4, 3]
    else [0, Cols - 1, 1, Cols - 2, 2, Cols - 3, 3, 4]
  }

  /** The step of `BackRankOrder(row)` at which column `c` is filled. */
  function BackRankStep(row: int, c: int): int {
    if c < 3 then 2 * c
    else if c > 4 then 2 * (Cols - 1 - c) + 1
    else if (c == 4) == (row == 0) then 6
    else 7
  }

  /** Fills back row `row` with its starting pieces, in the order `initializeBoard` uses. */
  method PlaceBackRank(g0: Game, row: int, done: set<int>) returns (g: Game)
    requires row == 0 || row == Rows - 1
    requires Consistent(g0) && AtHome(g0) && RowsFilled(g0, done) && row !in done
    ensures Consistent(g) && AtHome(g) && RowsFilled(g, done + {row})
    ensures forall i, j :: InBounds(i, j) && i != row ==> g.grid[i][j] == g0.grid[i][j]
    ensures forall q :: q in g0.pieces ==> q in g.pieces && g.pieces[q] == g0.pieces[q]
    ensures forall c :: 0 <= c < Cols ==> HomeFilled(g, row, c)
    ensures var color := if row == 0 then Black else White;
            && |PiecesOf(g, color)| == |PiecesOf(g0, color)| + 8
            && PiecesOf(g, Opponent(color)) == PiecesOf(g0, Opponent(color))
    ensures g.active == g0.active && g.turn == g0.turn
  {
    assert RowFilledUpTo(g0, row, 0) by {
      forall c | 0 <= c < Cols
        ensures g0.grid[row][c].None?
      {
        assert InBounds(row, c);
      }
    }
    var color := if row == 0 then Black else White;
    var order := BackRankOrder(row);
    assert forall a :: 0 <= a < |order| ==> 0 <= order[a] < Cols && BackRankStep(row, order[a]) == a;
    g := g0;
    for k := 0 to |order|
      invariant Consistent(g) && AtHome(g)
      invariant forall i, j :: InBounds(i, j) && i != row ==> g.grid[i][j] == g0.grid[i][j]
      invariant forall q :: q in g0.pieces ==> q in g.pieces && g.pieces[q] == g0.pieces[q]
      invariant RowFilledUpTo(g, row, k)
      invariant |PiecesOf(g, color)| == |PiecesOf(g0, color)| + k
      invariant PiecesOf(g, Opponent(color)) == PiecesOf(g0, Opponent(color))
      invariant g.active == g0.active && g.turn == g0.turn
    {
      var next := PlaceHome(g, row, order[k]);
      RowFilledStep(g, next, row, k);
      g := next;
    }
    BackRankDone(g0, g, row, done);
  }

  lemma BackRankDone(g0: Game, g: Game, row: int, done: set<int>)
    requires GridShape(g0.grid) && GridShape(g.grid) && (row == 0 || row == Rows - 1)
    requires RowsFilled(g0, done) && row !in done && RowFilledUpTo(g, row, 8)
    requires forall i, j :: InBounds(i, j) && i != row ==> g.grid[i][j] == g0.grid[i][j]
    requires forall q :: q in g0.pieces ==> q in g.pieces && g.pieces[q] == g0.pieces[q]
    ensures RowsFilled(g, done + {row})
  {
    forall r, c | InBounds(r, c)
      ensures if r in done + {row} then HomeFilled(g, r, c) else g.grid[r][c].None?
    {
      if r == row {
        assert BackRankStep(row, c) < 8;
      } else if r in done {
        assert HomeFilled(g0, r, c);
      }
    }
  }

  /** Back row `row` holds its starting pieces on the columns filled in the first `k` steps, and nothing else. */
  ghost predicate RowFilledUpTo(g: Game, row: int, k: int)
    requires GridShape(g.grid) && (row == 0 || row == Rows - 1)
  {
    forall c :: 0 <= c < Cols ==>
      if BackRankStep(row, c) < k then HomeFilled(g, row, c) else g.grid[row][c].None?
  }

  lemma RowFilledStep(g: Game, next: Game, row: int, k: int)
    requires GridShape(g.grid) && GridShape(next.grid) && (row == 0 || row == Rows - 1) && 0 <= k < 8
    requires RowFilledUpTo(g, row, k)
    requires HomeFilled(next, row, BackRankOrder(row)[k])
    requires forall j :: 0 <= j < Cols && j != BackRankOrder(row)[k] ==> next.grid[row][j] == g.grid[row][j]
    requires forall q :: q in g.pieces ==> q in next.pieces && next.pieces[q] == g.pieces[q]
    ensures RowFilledUpTo(next, row, k + 1)
  {
    var order := BackRankOrder(row);
    assert forall c :: 0 <= c < Cols ==> 0 <= BackRankStep(row, c) < |order| && order[BackRankStep(row, c)] == c;
    forall c | 0 <= c < Cols
      ensures if BackRankStep(row, c) < k + 1 then HomeFilled(next, row, c) else next.grid[row][c].None?
    {
      if c != order[k] && BackRankStep(row, c) < k {
        assert HomeFilled(g, row, c);
      }
    }
  }

  /** The total value of the pieces a back row of colour `color` holds on its first `n` columns. */
  function BackRowValue(color: Color, n: nat): nat
    decreases n
  {
    if n == 0 then 0 else BackRowValue(color, n - 1) + Value(BackRankKind(color, n - 1))
  }

  /**
    Each side starts with 90 points of material, and its king alone is worth
    more than its other fifteen pieces together.
   */
  lemma StartingMaterial(color: Color)
    ensures BackRowValue(color, Cols) + Cols * Value(Pawn) == 90
    ensures Value(King) > BackRowValue(color, Cols) + Cols * Value(Pawn) - Value(King)
    ensures Value(King) > 8 * Value(Pawn) + 2 * Value(Rook) + 2 * Value(Knight) + 2 * Value(Bishop) + Value(Queen)
  {
  }
}
