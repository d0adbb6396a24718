/** The movement rules of the pieces: the Bishop of ChessPieces/Bishop.ts, the Rook whose
    behaviour ChessPieces/Rook.test.ts pins square by square, and a parameter standing for
    the Queen, Knight, King and Pawn rules, whose sources are not part of this model. */
module ChessPieces {
  import opened ChessTypes
  import opened ChessBoard

  /** validate_move of the pieces this model does not define: the piece, its square, the
      destination, the board and the move history. */
  type OtherRules = (Piece, Square, Square, Board, seq<Move>) -> bool

  function Abs(x: int): nat
  {
    if x < 0 then -x else x
  }

  // ---------------------------------------------------------------------------
  // Geometry of straight-line moves.

  /** Exactly one coordinate stays the same: a rook move. */
  predicate Orthogonal(from: Square, to: Square)
  {
    (from.row == to.row) != (from.col == to.col)
  }

  /** |drow| == |dcol| > 0: a bishop move. */
  predicate Diagonal(from: Square, to: Square)
  {
    Abs(to.row - from.row) == Abs(to.col - from.col) > 0
  }

  predicate IsLine(from: Square, to: Square)
  {
    Orthogonal(from, to) || Diagonal(from, to)
  }

  /** The number of one-square steps from `from` to `to` along a line. */
  function Distance(from: Square, to: Square): nat
  {
    var dr, dc := Abs(to.row - from.row), Abs(to.col - from.col);
    if dr >= dc then dr else dc
  }

  /** k steps from a towards b, or a itself when a == b. */
  function Toward(a: Coord, b: Coord, k: nat): Coord
    requires a == b || k <= Abs(b - a)
  {
    if b > a then a + k else if b < a then a - k else a
  }

  /** The square k steps from `from` along the line to `to`. */
  function Intermediate(from: Square, to: Square, k: nat): Square
    requires IsLine(from, to) && k <= Distance(from, to)
  {
    Square(Toward(from.row, to.row, k), Toward(from.col, to.col, k))
  }

  lemma IntermediateEnds(from: Square, to: Square)
    requires IsLine(from, to)
    ensures Distance(from, to) > 0
    ensures Intermediate(from, to, 0) == from
    ensures Intermediate(from, to, Distance(from, to)) == to
  {
  }

  /** Every square strictly between the two ends is empty. */
  predicate PathClear(b: Board, from: Square, to: Square)
    requires IsLine(from, to)
  {
    forall k: nat :: 0 < k < Distance(from, to) ==> At(b, Intermediate(from, to, k)) == None
  }

  /** The destination is empty or holds a piece of the other colour. Bishop.ts:46 tests the
      cell against `null` while _isPathClear (:66) tests it against `undefined`; with a cell
      that is a piece or nothing, both read "nothing" here. */
  predicate DestinationOpen(b: Board, to: Square, color: Color)
  {
    At(b, to).None? || At(b, to).value.color != color
  }

  // ---------------------------------------------------------------------------
  // Bishop

  /** Bishop.validate_move: a diagonal move over empty squares onto an empty or enemy square.
      It reads the board only; the move history is not used. */
  predicate BishopAccepts(color: Color, from: Square, to: Square, b: Board)
  {
    Diagonal(from, to) && PathClear(b, from, to) && DestinationOpen(b, to, color)
  }

  /** Bishop._isPathClear: walk from the square after `from` towards `to` one diagonal step
      at a time and report whether every square passed is empty. The caller only asks for
      diagonal moves, so the walk reaches `to` after Distance - 1 squares; `steps` counts the
      squares inspected, each strictly between the two ends and on the board. */
  method IsPathClear(b: Board, from: Square, to: Square) returns (clear: bool, ghost steps: nat)
    requires Diagonal(from, to)
    ensures clear == PathClear(b, from, to)
    ensures steps < Distance(from, to)
    ensures clear ==> steps == Distance(from, to) - 1
  {
    var rowIncrement := if to.row > from.row then 1 else -1;
    var colIncrement := if to.col > from.col then 1 else -1;
    var currentRow := from.row + rowIncrement;
    var currentCol := from.col + colIncrement;
    ghost var k := 1;
    steps := 0;
    while currentRow != to.row || currentCol != to.col
      invariant 1 <= k <= Distance(from, to) && steps == k - 1
      invariant currentRow == Toward(from.row, to.row, k) && currentCol == Toward(from.col, to.col, k)
      invariant forall j: nat :: 0 < j < k ==> At(b, Intermediate(from, to, j)) == None
      decreases Distance(from, to) - k
    {
      if b[currentRow][currentCol] != None {
        assert At(b, Intermediate(from, to, k)) != None;
        steps := k;
        return false, steps;
      }
      currentRow := currentRow + rowIncrement;
      currentCol := currentCol + colIncrement;
      k := k + 1;
      steps := k - 1;
    }
    return true, steps;
  }

  // ---------------------------------------------------------------------------
  // Rook (its rule as the tests in Rook.test.ts pin it)

  /** A move along a row or a column over empty squares onto an empty or enemy square. */
  predicate RookAccepts(color: Color, from: Square, to: Square, b: Board)
  {
    Orthogonal(from, to) && PathClear(b, from, to) && DestinationOpen(b, to, color)
  }

  // ---------------------------------------------------------------------------
  // Dispatch on the kind of the piece (movePiece.validate_move in ChessGame.applyMove)

  predicate PieceRule(p: Piece, from: Square, to: Square, b: Board, moves: seq<Move>, others: OtherRules)
  {
    match p.kind
    case Bishop => BishopAccepts(p.color, from, to, b)
    case Rook => RookAccepts(p.color, from, to, b)
    case _ => others(p, from, to, b, moves)
  }

  /** The piece rule as ChessGame runs it: the bishop's path is walked by IsPathClear. */
  method CheckPieceRule(p: Piece, from: Square, to: Square, b: Board, moves: seq<Move>, others: OtherRules)
    returns (ok: bool)
    ensures ok == PieceRule(p, from, to, b, moves, others)
  {
    match p.kind {
      case Bishop =>
        if Diagonal(from, to) {
          var clear, _ := IsPathClear(b, from, to);
          ok := clear && DestinationOpen(b, to, p.color);
        } else {
          ok := false;
        }
      case Rook =>
        ok := RookAccepts(p.color, from, to, b);
      case _ =>
        ok := others(p, from, to, b, moves);
    }
  }

  // ---------------------------------------------------------------------------
  // Properties of the line rules

  /** The bishop's verdict: staying put and moving along a row or a column are refused; on a
      clear diagonal the move is refused exactly when its own colour holds the destination. */
  lemma BishopVerdict(color: Color, from: Square, to: Square, b: Board)
    ensures from == to || Orthogonal(from, to) ==> !BishopAccepts(color, from, to, b)
    ensures Diagonal(from, to) && PathClear(b, from, to) ==>
      (BishopAccepts(color, from, to, b) <==> !(At(b, to).Some? && At(b, to).value.color == color))
  {
  }

  /** The first square of a line move is a neighbour of the starting square. */
  lemma FirstStepIsNeighbour(from: Square, to: Square)
    requires IsLine(from, to)
    ensures Intermediate(from, to, 1) != from
    ensures Abs(Intermediate(from, to, 1).row - from.row) <= 1
    ensures Abs(Intermediate(from, to, 1).col - from.col) <= 1
  {
  }

  /** A line move whose first square holds a piece of the mover's colour is refused: either
      that square is the destination (an own piece) or it blocks the path. */
  lemma {:induction false} FirstStepOwnBlocks(b: Board, color: Color, from: Square, to: Square)
    requires IsLine(from, to)
    requires At(b, Intermediate(from, to, 1)).Some? && At(b, Intermediate(from, to, 1)).value.color == color
    ensures !(PathClear(b, from, to) && DestinationOpen(b, to, color))
  {
    IntermediateEnds(from, to);
    if Distance(from, to) == 1 {
      assert Intermediate(from, to, 1) == to;
    } else {
      assert At(b, Intermediate(from, to, 1)) != None;
    }
  }

  /** On the starting board every piece of the back ranks is boxed in by its own side: no line
      move leaves its square. */
  lemma {:induction false} BackRankBoxedIn(from: Square, to: Square)
    requires from.row == 0 || from.row == 7
    requires IsLine(from, to)
    ensures !(PathClear(InitialBoard(), from, to) && DestinationOpen(InitialBoard(), to, InitialCell(from).value.color))
  {
    FirstStepIsNeighbour(from, to);
    var next := Intermediate(from, to, 1);
    assert At(InitialBoard(), next) == InitialCell(next);
    FirstStepOwnBlocks(InitialBoard(), InitialCell(from).value.color, from, to);
  }

  /** Rook.test.ts, moves from the starting board: none of the four rooks has a move. */
  lemma InitialRooksCannotMove(from: Square, to: Square)
    requires At(InitialBoard(), from).Some? && At(InitialBoard(), from).value.kind == Rook
    ensures !RookAccepts(At(InitialBoard(), from).value.color, from, to, InitialBoard())
  {
    if IsLine(from, to) {
      BackRankBoxedIn(from, to);
    }
  }

  /** Likewise the four bishops of the starting position have no move. */
  lemma InitialBishopsCannotMove(from: Square, to: Square)
    requires At(InitialBoard(), from).Some? && At(InitialBoard(), from).value.kind == Bishop
    ensures !BishopAccepts(At(InitialBoard(), from).value.color, from, to, InitialBoard())
  {
    if IsLine(from, to) {
      BackRankBoxedIn(from, to);
    }
  }

  /** On an empty board a rook reaches exactly the squares of its row and column, and a bishop
      exactly the squares of its diagonals. */
  lemma LinesOnEmptyBoard(color: Color, from: Square, to: Square)
    ensures RookAccepts(color, from, to, EmptyBoard()) <==> Orthogonal(from, to)
    ensures BishopAccepts(color, from, to, EmptyBoard()) <==> Diagonal(from, to)
  {
    var e := EmptyBoard();
    if IsLine(from, to) {
      forall k: nat | 0 < k < Distance(from, to)
        ensures At(e, Intermediate(from, to, k)) == None
      {
      }
    }
  }

  /** An occupied square strictly between the ends blocks a line move, whatever its colour. */
  lemma {:induction false} OccupiedSquareBlocks(b: Board, from: Square, to: Square, k: nat)
    requires IsLine(from, to) && 0 < k < Distance(from, to)
    requires At(b, Intermediate(from, to, k)).Some?
    ensures !PathClear(b, from, to)
  {
  }

  function FourCell(color: Color, q: Square, k: Square, r: Square, p: Square, s: Square): Cell
  {
    if s == p then Some(Piece(Pawn, color)) else if s == r then Some(Piece(Rook, color))
    else if s == k then Some(Piece(King, color)) else if s == q then Some(Piece(Queen, color))
    else None
  }

  /** The empty board with four pieces of one colour added, as the custom Rook.test.ts
      scenarios build it: a queen on q, a king on k, a rook on r and a pawn on p. */
  function WithFour(color: Color, q: Square, k: Square, r: Square, p: Square): (b: Board)
    ensures forall s :: At(b, s) == FourCell(color, q, k, r, p, s)
  {
    SetCell(SetCell(SetCell(SetCell(EmptyBoard(),
      q, Some(Piece(Queen, color))), k, Some(Piece(King, color))),
      r, Some(Piece(Rook, color))), p, Some(Piece(Pawn, color)))
  }

  /** Rook.test.ts, custom board, white rook on (3, 3) with pieces of either colour on (2, 3),
      (3, 1), (3, 6) and (5, 3): the four moves past them are refused. */
  lemma WhiteRookCannotPass(color: Color)
    ensures var b := WithFour(color, Square(2, 3), Square(3, 1), Square(3, 6), Square(5, 3));
      && !RookAccepts(White, Square(3, 3), Square(0, 3), b)
      && !RookAccepts(White, Square(3, 3), Square(3, 0), b)
      && !RookAccepts(White, Square(3, 3), Square(7, 3), b)
      && !RookAccepts(White, Square(3, 3), Square(3, 7), b)
  {
    var b := WithFour(color, Square(2, 3), Square(3, 1), Square(3, 6), Square(5, 3));
    OccupiedSquareBlocks(b, Square(3, 3), Square(0, 3), 1);
    OccupiedSquareBlocks(b, Square(3, 3), Square(3, 0), 2);
    OccupiedSquareBlocks(b, Square(3, 3), Square(7, 3), 2);
    OccupiedSquareBlocks(b, Square(3, 3), Square(3, 7), 3);
  }

  /** The same board: the white rook may move onto each of the four pieces exactly when they
      are Black. */
  lemma WhiteRookCapturesOnlyBlack(color: Color)
    ensures var b := WithFour(color, Square(2, 3), Square(3, 1), Square(3, 6), Square(5, 3));
      && (RookAccepts(White, Square(3, 3), Square(2, 3), b) <==> color == Black)
      && (RookAccepts(White, Square(3, 3), Square(3, 1), b) <==> color == Black)
      && (RookAccepts(White, Square(3, 3), Square(3, 6), b) <==> color == Black)
      && (RookAccepts(White, Square(3, 3), Square(5, 3), b) <==> color == Black)
  {
    var b := WithFour(color, Square(2, 3), Square(3, 1), Square(3, 6), Square(5, 3));
    assert At(b, Intermediate(Square(3, 3), Square(3, 1), 1)) == None;
    assert At(b, Intermediate(Square(3, 3), Square(3, 6), 1)) == None;
    assert At(b, Intermediate(Square(3, 3), Square(3, 6), 2)) == None;
    assert At(b, Intermediate(Square(3, 3), Square(5, 3), 1)) == None;
  }

  /** Rook.test.ts, custom board, black rook on (4, 4) with pieces of either colour on (2, 4),
      (4, 1), (4, 6) and (5, 4): the four moves past them are refused. */
  lemma BlackRookCannotPass(color: Color)
    ensures var b := WithFour(color, Square(2, 4), Square(4, 1), Square(4, 6), Square(5, 4));
      && !RookAccepts(Black, Square(4, 4), Square(0, 4), b)
      && !RookAccepts(Black, Square(4, 4), Square(4, 0), b)
      && !RookAccepts(Black, Square(4, 4), Square(7, 4), b)
      && !RookAccepts(Black, Square(4, 4), Square(4, 7), b)
  {
    var b := WithFour(color, Square(2, 4), Square(4, 1), Square(4, 6), Square(5, 4));
    OccupiedSquareBlocks(b, Square(4, 4), Square(0, 4), 2);
    OccupiedSquareBlocks(b, Square(4, 4), Square(4, 0), 3);
    OccupiedSquareBlocks(b, Square(4, 4), Square(7, 4), 1);
    OccupiedSquareBlocks(b, Square(4, 4), Square(4, 7), 2);
  }

  /** The same board: the black rook may move onto each of the four pieces exactly when they
      are White. */
  lemma BlackRookCapturesOnlyWhite(color: Color)
    ensures var b := WithFour(color, Square(2, 4), Square(4, 1), Square(4, 6), Square(5, 4));
      && (RookAccepts(Black, Square(4, 4), Square(2, 4), b) <==> color == White)
      && (RookAccepts(Black, Square(4, 4), Square(4, 1), b) <==> color == White)
      && (RookAccepts(Black, Square(4, 4), Square(4, 6), b) <==> color == White)
      && (RookAccepts(Black, Square(4, 4), Square(5, 4), b) <==> color == White)
  {
    var b := WithFour(color, Square(2, 4), Square(4, 1), Square(4, 6), Square(5, 4));
    assert At(b, Intermediate(Square(4, 4), Square(2, 4), 1)) == None;
    assert At(b, Intermediate(Square(4, 4), Square(4, 1), 1)) == None;
    assert At(b, Intermediate(Square(4, 4), Square(4, 1), 2)) == None;
    assert At(b, Intermediate(Square(4, 4), Square(4, 6), 1)) == None;
  }
}
