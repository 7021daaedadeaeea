/**
  The game state: the 8x8 grid of squares, the table of piece objects, the
  per-colour sets of live pieces, the selected piece and the turn counter;
  together with the invariant that the grid and the colour sets agree.
 */
module Board {
  import opened Wrappers
  import opened Pieces

  const Rows: int := 8
  const Cols: int := 8

  /**
    Identity of a piece object. A piece is named by the square it was created
    on, as `chessGame.py` hashes a piece by its construction-time (row, col, colour).
   */
  datatype PieceId = PieceId(row0: int, col0: int)

  /** `gameBoard`: each square is empty or holds one piece. */
  type Grid = seq<seq<Option<PieceId>>>

  /**
    The rules-relevant part of the application object. `pieces` holds every
    piece object ever created (a captured piece keeps its last record but
    leaves the grid and its colour set); `whitePieces` and `blackPieces` are
    the per-colour sets of live pieces; `active` is the selected piece;
    `turn` is `playerToMoveIdx`.
   */
  datatype Game = Game(
    grid: Grid,
    pieces: map<PieceId, Piece>,
    whitePieces: set<PieceId>,
    blackPieces: set<PieceId>,
    active: Option<PieceId>,
    turn: nat)

  /** `players`: white moves on even turn indices, black on odd ones. */
  const Players: seq<Color> := [White, Black]

  /** The colour whose turn it is. */
  function Current(g: Game): Color {
    Players[g.turn % 2]
  }

  /** The colour-indexed table of live-piece sets. */
  function PiecesOf(g: Game, c: Color): set<PieceId> {
    if c == White then g.whitePieces else g.blackPieces
  }

  /** Replaces the live-piece set of colour `c`. */
  function WithPiecesOf(g: Game, c: Color, s: set<PieceId>): (r: Game)
    ensures PiecesOf(r, c) == s && PiecesOf(r, Opponent(c)) == PiecesOf(g, Opponent(c))
    ensures r.grid == g.grid && r.pieces == g.pieces && r.active == g.active && r.turn == g.turn
  {
    if c == White then g.(whitePieces := s) else g.(blackPieces := s)
  }

  /** `rowColInBounds`. */
  predicate InBounds(row: int, col: int) {
    !(row < 0 || row >= Rows || col < 0 || col >= Cols)
  }

  ghost predicate GridShape(grid: Grid) {
    |grid| == Rows && forall r :: 0 <= r < Rows ==> |grid[r]| == Cols
  }

  /** The grid with square (row, col) set to `v`. */
  function SetCell(grid: Grid, row: int, col: int, v: Option<PieceId>): (r: Grid)
    requires GridShape(grid) && InBounds(row, col)
    ensures GridShape(r)
    ensures forall i, j :: InBounds(i, j) ==> r[i][j] == if i == row && j == col then v else grid[i][j]
  {
    grid[row := grid[row][col := v]]
  }

  /** The all-empty 8x8 board `appStarted` starts from. */
  function EmptyGrid(): (r: Grid)
    ensures GridShape(r)
    ensures forall i, j :: InBounds(i, j) ==> r[i][j].None?
  {
    seq(Rows, _ => seq(Cols, _ => None))
  }

  /** Every piece named on the grid has a record. */
  ghost predicate WellFormed(g: Game) {
    && GridShape(g.grid)
    && forall r, c :: InBounds(r, c) && g.grid[r][c].Some? ==> g.grid[r][c].value in g.pieces
  }

  /** Piece `id` stands on square (r, c) and is in the live set of its colour. */
  ghost predicate Placed(g: Game, id: PieceId, r: int, c: int) {
    && id in g.pieces
    && g.pieces[id].row == r && g.pieces[id].col == c
    && id in PiecesOf(g, g.pieces[id].color)
  }

  /** Piece `id` has colour `c` and the grid holds it on the square its record names. */
  ghost predicate OnBoardAs(g: Game, id: PieceId, c: Color)
    requires GridShape(g.grid)
  {
    && id in g.pieces
    && g.pieces[id].color == c
    && InBounds(g.pieces[id].row, g.pieces[id].col)
    && g.grid[g.pieces[id].row][g.pieces[id].col] == Some(id)
  }

  /**
    The grid and the colour sets agree: every occupied square holds a live
    piece whose record names that square, and every live piece of either set
    has that set's colour and stands where its record says.
   */
  ghost predicate Consistent(g: Game) {
    && WellFormed(g)
    && (forall r, c :: InBounds(r, c) && g.grid[r][c].Some? ==> Placed(g, g.grid[r][c].value, r, c))
    && (forall c, id :: id in PiecesOf(g, c) ==> OnBoardAs(g, id, c))
  }

  /** The selected piece, if any, is a live piece of the player to move. */
  ghost predicate SelectionOk(g: Game) {
    g.active.None? || g.active.value in PiecesOf(g, Current(g))
  }

  /** The invariant every reachable game state keeps. */
  ghost predicate Valid(g: Game) {
    Consistent(g) && SelectionOk(g)
  }

  /** The piece record of the selected piece. */
  function ActivePiece(g: Game): (p: Piece)
    requires Valid(g) && g.active.Some?
    ensures p.color == Current(g) && InBounds(p.row, p.col)
    ensures g.grid[p.row][p.col] == g.active
  {
    assert OnBoardAs(g, g.active.value, Current(g));
    g.pieces[g.active.value]
  }

  /** The colour of the piece on square (r, c), or None for an empty square. */
  function ColorAt(g: Game, r: int, c: int): (res: Option<Color>)
    requires WellFormed(g) && InBounds(r, c)
    ensures res.None? <==> g.grid[r][c].None?
  {
    match g.grid[r][c]
    case None => None
    case Some(id) => Some(g.pieces[id].color)
  }

  /** The state after creating piece `id` on square (r, c) and adding it to its colour's set. */
  function Place(g: Game, id: PieceId, kind: Kind, color: Color, r: int, c: int): (g': Game)
    requires Consistent(g) && InBounds(r, c) && g.grid[r][c].None? && id !in g.pieces
    ensures Consistent(g')
    ensures g'.grid[r][c] == Some(id) && g'.pieces[id] == Piece(kind, color, r, c, false)
    ensures forall i, j :: InBounds(i, j) && (i != r || j != c) ==> g'.grid[i][j] == g.grid[i][j]
    ensures forall q :: q in g.pieces ==> q in g'.pieces && g'.pieces[q] == g.pieces[q]
    ensures g'.pieces.Keys == g.pieces.Keys + {id}
    ensures PiecesOf(g', color) == PiecesOf(g, color) + {id}
    ensures |PiecesOf(g', color)| == |PiecesOf(g, color)| + 1
    ensures PiecesOf(g', Opponent(color)) == PiecesOf(g, Opponent(color))
    ensures g'.active == g.active && g'.turn == g.turn
  {
    PlaceKeepsConsistent(g, id, kind, color, r, c);
    PlaceRaw(g, id, kind, color, r, c)
  }

  function PlaceRaw(g: Game, id: PieceId, kind: Kind, color: Color, r: int, c: int): Game
    requires GridShape(g.grid) && InBounds(r, c)
  {
    var g1 := g.(grid := SetCell(g.grid, r, c, Some(id)),
                 pieces := g.pieces[id := Piece(kind, color, r, c, false)]);
    WithPiecesOf(g1, color, PiecesOf(g1, color) + {id})
  }

  lemma PlaceKeepsConsistent(g: Game, id: PieceId, kind: Kind, color: Color, r: int, c: int)
    requires Consistent(g) && InBounds(r, c) && g.grid[r][c].None? && id !in g.pieces
    ensures Consistent(PlaceRaw(g, id, kind, color, r, c))
    ensures id !in PiecesOf(g, color)
  {
    var g' := PlaceRaw(g, id, kind, color, r, c);
    forall c', q | q in PiecesOf(g, c')
      ensures q in g.pieces && OnBoardAs(g, q, c')
    {
    }
    assert PiecesOf(g', color) == PiecesOf(g, color) + {id};
    assert PiecesOf(g', Opponent(color)) == PiecesOf(g, Opponent(color));
    forall i, j | InBounds(i, j) && g'.grid[i][j].Some?
      ensures g'.grid[i][j].value in g'.pieces && Placed(g', g'.grid[i][j].value, i, j)
    {
      if i != r || j != c {
        var q := g.grid[i][j].value;
        assert Placed(g, q, i, j);
      }
    }
    forall c', q | q in PiecesOf(g', c')
      ensures OnBoardAs(g', q, c')
    {
      if q != id {
        assert q in PiecesOf(g, c');
      }
    }
  }
}
