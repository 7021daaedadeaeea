/**
  The six piece classes of the game: their colour, their movement offsets
  (every (row, column) displacement the piece may ever make, before board
  edges and blockers are taken into account) and their material value.

  Sliding pieces list every scaled step of their rays explicitly, exactly as
  the piece constructors do; nothing is derived at move time.
 */
module Pieces {

  datatype Color = White | Black

  datatype Kind = Pawn | Rook | Bishop | Knight | King | Queen

  /** A (row, column) displacement. */
  type Offset = (int, int)

  /** A piece object: what it is, where it currently stands, and whether it has moved. */
  datatype Piece = Piece(kind: Kind, color: Color, row: int, col: int, moved: bool)

  function Abs(x: int): nat {
    if x < 0 then -x else x
  }

  /** The other player's colour. */
  function Opponent(c: Color): Color {
    if c == White then Black else White
  }

  /** An offset along a rank, a file or a diagonal. */
  predicate OnLine(o: Offset) {
    o.0 == 0 || o.1 == 0 || Abs(o.0) == Abs(o.1)
  }

  /** The row direction a pawn of colour `c` advances in: white moves up the grid, black down. */
  function Forward(c: Color): int {
    if c == White then -1 else 1
  }

  /** Every rook displacement: one to seven squares along a file or a rank. */
  function RookMoves(): set<Offset> {
    (set i | -7 <= i < 8 && i != 0 :: (0, i)) + (set i | -7 <= i < 8 && i != 0 :: (i, 0))
  }

  /** The displacement of `i` steps in direction (dr, dc). */
  function Scaled(dr: int, dc: int, i: int): Offset {
    (dr * i, dc * i)
  }

  /** Every bishop displacement: one to seven squares along each of the four diagonals. */
  function BishopMoves(): set<Offset> {
    (set i | 1 <= i < 8 :: Scaled(-1, 1, i)) + (set i | 1 <= i < 8 :: Scaled(1, 1, i))
    + (set i | 1 <= i < 8 :: Scaled(-1, -1, i)) + (set i | 1 <= i < 8 :: Scaled(1, -1, i))
  }

  /** The knight's jumps: both coordinates in {-2,-1,1,2} with different magnitudes. */
  function KnightMoves(): set<Offset> {
    set dr, dc | dr in {-2, -1, 1, 2} && dc in {-2, -1, 1, 2} && Abs(dr) != Abs(dc) :: (dr, dc)
  }

  /** The king's steps: the eight neighbouring squares. */
  function KingMoves(): set<Offset> {
    set r, c | r in {-1, 0, 1} && c in {-1, 0, 1} && (r, c) != (0, 0) :: (r, c)
  }

  /**
    The `posMoves` set of a piece of the given kind and colour. A pawn has a
    single forward step (its double step is not implemented); a queen's set
    is the union of the diagonal and the straight rays.
   */
  function PosMoves(kind: Kind, color: Color): set<Offset> {
    match kind
    case Pawn => {(Forward(color), 0)}
    case Rook => RookMoves()
    case Bishop => BishopMoves()
    case Knight => KnightMoves()
    case King => KingMoves()
    case Queen => BishopMoves() + RookMoves()
  }

  /**
    The `takeMoves` set: the pawn's two forward diagonals, and the `posMoves`
    set for every other kind. Move validation never consults it.
   */
  function TakeMoves(kind: Kind, color: Color): (s: set<Offset>)
    ensures kind == Pawn ==> s !! PosMoves(kind, color)
    ensures kind != Pawn ==> s == PosMoves(kind, color)
  {
    if kind == Pawn then {(Forward(color), -1), (Forward(color), 1)}
    else PosMoves(kind, color)
  }

  /** Material value of a piece kind. */
  function Value(kind: Kind): nat {
    match kind
    case Pawn => 1
    case Rook => 5
    case Bishop => 3
    case Knight => 3
    case King => 50
    case Queen => 10
  }

  /**
    The material scale: a pawn is worth least, knight and bishop are equal,
    then rook, queen and king, and every kind is worth at least one pawn.
   */
  lemma ValueOrder()
    ensures Value(Pawn) < Value(Knight) == Value(Bishop) < Value(Rook) < Value(Queen) < Value(King)
    ensures forall k: Kind :: Value(k) >= Value(Pawn)
  {
  }

  /**
    An arithmetic description of each kind's displacements, independent of
    how the offset sets are enumerated.
   */
  predicate MoveRule(kind: Kind, color: Color, o: Offset) {
    match kind
    case Pawn => o == (Forward(color), 0)
    case Rook => (o.0 == 0) != (o.1 == 0) && Abs(o.0) <= 7 && Abs(o.1) <= 7
    case Bishop => Abs(o.0) == Abs(o.1) && 1 <= Abs(o.0) <= 7
    case Knight => (Abs(o.0) == 1 && Abs(o.1) == 2) || (Abs(o.0) == 2 && Abs(o.1) == 1)
    case King => Abs(o.0) <= 1 && Abs(o.1) <= 1 && o != (0, 0)
    case Queen =>
      || ((o.0 == 0) != (o.1 == 0) && Abs(o.0) <= 7 && Abs(o.1) <= 7)
      || (Abs(o.0) == Abs(o.1) && 1 <= Abs(o.0) <= 7)
  }

  lemma RookMovesRule(o: Offset)
    ensures o in RookMoves() <==> MoveRule(Rook, White, o)
  {
    if MoveRule(Rook, White, o) {
      if o.0 == 0 {
        assert o == (0, o.1);
      } else {
        assert o == (o.0, 0);
      }
    }
  }

  lemma BishopMovesRule(o: Offset)
    ensures o in BishopMoves() <==> MoveRule(Bishop, White, o)
  {
    if MoveRule(Bishop, White, o) {
      var i := Abs(o.0);
      if o.0 < 0 && o.1 > 0 {
        assert o == Scaled(-1, 1, i);
      } else if o.0 > 0 && o.1 > 0 {
        assert o == Scaled(1, 1, i);
      } else if o.0 < 0 && o.1 < 0 {
        assert o == Scaled(-1, -1, i);
      } else {
        assert o == Scaled(1, -1, i);
      }
    }
  }

  lemma KnightMovesRule(o: Offset)
    ensures o in KnightMoves() <==> MoveRule(Knight, White, o)
  {
  }

  lemma KingMovesRule(o: Offset)
    ensures o in KingMoves() <==> MoveRule(King, White, o)
  {
  }

  /** Membership in a piece's `posMoves` agrees with the arithmetic rule for its kind. */
  lemma PosMovesMatchRule(kind: Kind, color: Color, o: Offset)
    ensures o in PosMoves(kind, color) <==> MoveRule(kind, color, o)
  {
    match kind
    case Pawn =>
    case Rook => RookMovesRule(o);
    case Bishop => BishopMovesRule(o);
    case Knight => KnightMovesRule(o);
    case King => KingMovesRule(o);
    case Queen => RookMovesRule(o); BishopMovesRule(o);
  }

  /** The knight's offset set is exactly the eight (±1,±2) and (±2,±1) jumps. */
  lemma KnightOffsetsExact(color: Color)
    ensures PosMoves(Knight, color)
         == {(-2, -1), (-2, 1), (-1, -2), (-1, 2), (1, -2), (1, 2), (2, -1), (2, 1)}
  {
    var eight := {(-2, -1), (-2, 1), (-1, -2), (-1, 2), (1, -2), (1, 2), (2, -1), (2, 1)};
    forall o | o in eight
      ensures o in KnightMoves()
    {
      KnightMovesRule(o);
    }
    forall o | o in KnightMoves()
      ensures o in eight
    {
      KnightMovesRule(o);
    }
  }

  /**
    Offset geometry of every piece: no offset is the null move, every offset
    stays within seven squares on each axis, and every offset of a piece other
    than the knight lies on a rank, a file or a diagonal.
   */
  lemma OffsetGeometry(kind: Kind, color: Color)
    ensures (0, 0) !in PosMoves(kind, color)
    ensures forall o :: o in PosMoves(kind, color) ==> -7 <= o.0 <= 7 && -7 <= o.1 <= 7
    ensures kind != Knight ==> forall o :: o in PosMoves(kind, color) ==> OnLine(o)
  {
    forall o | o in PosMoves(kind, color)
      ensures o != (0, 0) && -7 <= o.0 <= 7 && -7 <= o.1 <= 7
      ensures kind != Knight ==> OnLine(o)
    {
      PosMovesMatchRule(kind, color, o);
    }
    PosMovesMatchRule(kind, color, (0, 0));
  }
}
