/** The board of ChessGame.ts: the starting layout (createNewBoard), the replay of the move
    list that derives the current board (the `_board` getter), the flattening into a piece list
    (boardToPieceList) and the count of kings that _checkForGameEnding relies on. */
module ChessBoard {
  import opened ChessTypes

  function At(b: Board, s: Square): Cell
  {
    b[s.row][s.col]
  }

  /** The board with cell `s` replaced by `c`. */
  function SetCell(b: Board, s: Square, c: Cell): (r: Board)
    ensures At(r, s) == c
    ensures forall t: Square :: t != s ==> At(r, t) == At(b, t)
  {
    b[s.row := b[s.row][s.col := c]]
  }

  /** Two boards with the same cells are the same board. */
  lemma BoardsEqual(a: Board, b: Board)
    requires forall s: Square :: At(a, s) == At(b, s)
    ensures a == b
  {
    forall r | 0 <= r < 8
      ensures a[r] == b[r]
    {
      forall c | 0 <= c < 8
        ensures a[r][c] == b[r][c]
      {
        assert At(a, Square(r, c)) == At(b, Square(r, c));
      }
    }
  }

  function EmptyBoard(): (b: Board)
    ensures forall s: Square :: At(b, s) == None
  {
    seq(8, _ => seq<Cell>(8, _ => None))
  }

  /** Square (r, c) is number 8 * r + c when the board is flattened row by row. */
  function IndexOf(s: Square): nat
  {
    s.row * 8 + s.col
  }

  // ---------------------------------------------------------------------------
  // createNewBoard

  /** The back rank, file A to file H: rook, knight, bishop, queen, king, bishop, knight, rook. */
  function BackRank(col: Coord): Kind
  {
    if col == 0 || col == 7 then Rook
    else if col == 1 || col == 6 then Knight
    else if col == 2 || col == 5 then Bishop
    else if col == 3 then Queen
    else King
  }

  /** The standard starting position. White pawns fill row 1 and Black pawns row 6; the back
      ranks are rows 0 and 7, the king on file E (column 4). */
  function InitialCell(s: Square): Cell
  {
    if s.row == 0 then Some(Piece(BackRank(s.col), White))
    else if s.row == 1 then Some(Piece(Pawn, White))
    else if s.row == 6 then Some(Piece(Pawn, Black))
    else if s.row == 7 then Some(Piece(BackRank(s.col), Black))
    else None
  }

  function InitialBoard(): (b: Board)
    ensures forall s: Square :: At(b, s) == InitialCell(s)
  {
    seq(8, r requires 0 <= r < 8 => seq(8, c requires 0 <= c < 8 => InitialCell(Square(r, c))))
  }

  /** createNewBoard: the pawns are placed by a loop over the columns, then the back ranks
      one square at a time.

      The model builds the layout the piece tests use: an 8 x 8 grid, every piece on its own
      square and the kings on column 4. How ChessGame.ts:328-365 differs is modelled in
      Findings.CreateNewBoardAsWritten. */
  method CreateNewBoard() returns (b: Board)
    ensures b == InitialBoard()
  {
    b := EmptyBoard();
    for col := 0 to 8
      invariant forall s: Square ::
        At(b, s) == if (s.row == 1 || s.row == 6) && s.col < col then InitialCell(s) else None
    {
      b := SetCell(b, Square(1, col), Some(Piece(Pawn, White)));
      b := SetCell(b, Square(6, col), Some(Piece(Pawn, Black)));
    }
    // Rooks, knights, bishops, queens and kings.
    for col := 0 to 8
      invariant forall s: Square ::
        At(b, s) == if s.row == 1 || s.row == 6 || ((s.row == 0 || s.row == 7) && s.col < col)
                    then InitialCell(s) else None
    {
      b := SetCell(b, Square(0, col), Some(Piece(BackRank(col), White)));
      b := SetCell(b, Square(7, col), Some(Piece(BackRank(col), Black)));
    }
    BoardsEqual(b, InitialBoard());
  }

  // ---------------------------------------------------------------------------
  // The `_board` getter: replay the move list from the starting position.

  /** One replayed move: the origin is cleared and the piece found there is placed on the
      destination, overwriting whatever stood there. A move whose origin is empty changes
      nothing. (The getter at ChessGame.ts:63-69 moves the piece object sent with the move from
      that object's own row and column; see "Left out" on the replay.) */
  function Step(b: Board, m: Move): (r: Board)
    ensures At(b, m.origin).Some? && m.origin != m.dest ==>
      && At(r, m.origin) == None
      && At(r, m.dest) == At(b, m.origin)
      && forall t: Square :: t != m.origin && t != m.dest ==> At(r, t) == At(b, t)
    ensures At(b, m.origin).None? ==> r == b
    ensures At(b, m.origin).Some? && m.origin == m.dest ==> r == b
  {
    match At(b, m.origin)
    case None => b
    case Some(p) =>
      var r := SetCell(SetCell(b, m.origin, None), m.dest, Some(p));
      assert m.origin == m.dest ==> r == b by {
        if m.origin == m.dest {
          BoardsEqual(r, b);
        }
      }
      r
  }

  /** The board after replaying `moves` in order from the starting position. */
  function Replay(moves: seq<Move>): Board
  {
    if |moves| == 0 then InitialBoard()
    else Step(Replay(moves[..|moves| - 1]), moves[|moves| - 1])
  }

  lemma ReplayAppend(moves: seq<Move>, m: Move)
    ensures Replay(moves + [m]) == Step(Replay(moves), m)
  {
    assert (moves + [m])[..|moves|] == moves;
  }

  // ---------------------------------------------------------------------------
  // boardToPieceList: flatten row by row, drop the empty cells, keep piece and coordinates.

  function EntryOf(c: Cell, s: Square): seq<PiecePosition>
  {
    match c
    case None => []
    case Some(p) => [PiecePosition(p, s.row, s.col)]
  }

  function SquareOf(e: PiecePosition): Square
  {
    Square(e.rank, e.file)
  }

  /** The entries of the cells from (r, c) on, in row-major order: the rest of row r from
      column c, then the rows below it. */
  function EntriesFrom(b: Board, r: nat, c: nat): seq<PiecePosition>
    requires r <= 8 && c <= 8
    decreases 8 - r, 8 - c
  {
    if r == 8 then []
    else if c == 8 then EntriesFrom(b, r + 1, 0)
    else EntryOf(b[r][c], Square(r, c)) + EntriesFrom(b, r, c + 1)
  }

  lemma {:induction false} EntriesFromMember(b: Board, r: nat, c: nat, e: PiecePosition)
    requires r <= 8 && c <= 8
    ensures e in EntriesFrom(b, r, c) <==>
      8 * r + c <= IndexOf(SquareOf(e)) && At(b, SquareOf(e)) == Some(e.piece)
    decreases 8 - r, 8 - c
  {
    if r == 8 {
    } else if c == 8 {
      EntriesFromMember(b, r + 1, 0, e);
    } else {
      EntriesFromMember(b, r, c + 1, e);
      var head := EntryOf(b[r][c], Square(r, c));
      assert EntriesFrom(b, r, c) == head + EntriesFrom(b, r, c + 1);
      assert e in head <==> SquareOf(e) == Square(r, c) && b[r][c] == Some(e.piece);
    }
  }

  /** The entries from (r, c) on stand at (r, c) or later. */
  lemma {:induction false} EntriesFromBound(b: Board, r: nat, c: nat)
    requires r <= 8 && c <= 8
    ensures forall i :: 0 <= i < |EntriesFrom(b, r, c)| ==> 8 * r + c <= IndexOf(SquareOf(EntriesFrom(b, r, c)[i]))
    decreases 8 - r, 8 - c
  {
    if r == 8 {
    } else if c == 8 {
      EntriesFromBound(b, r + 1, 0);
    } else {
      EntriesFromBound(b, r, c + 1);
      var head := EntryOf(b[r][c], Square(r, c));
      var rest := EntriesFrom(b, r, c + 1);
      forall i | |head| <= i < |head + rest|
        ensures 8 * r + c <= IndexOf(SquareOf((head + rest)[i]))
      {
        assert (head + rest)[i] == rest[i - |head|];
      }
    }
  }

  /** The entries from (r, c) on stand in strictly increasing row-major order. */
  lemma {:induction false} EntriesFromOrdered(b: Board, r: nat, c: nat)
    requires r <= 8 && c <= 8
    ensures forall i, j :: 0 <= i < j < |EntriesFrom(b, r, c)| ==>
      IndexOf(SquareOf(EntriesFrom(b, r, c)[i])) < IndexOf(SquareOf(EntriesFrom(b, r, c)[j]))
    decreases 8 - r, 8 - c
  {
    if r == 8 {
    } else if c == 8 {
      EntriesFromOrdered(b, r + 1, 0);
    } else {
      EntriesFromOrdered(b, r, c + 1);
      EntriesFromBound(b, r, c + 1);
      var head := EntryOf(b[r][c], Square(r, c));
      var rest := EntriesFrom(b, r, c + 1);
      forall i, j | 0 <= i < j < |head + rest|
        ensures IndexOf(SquareOf((head + rest)[i])) < IndexOf(SquareOf((head + rest)[j]))
      {
        assert (head + rest)[j] == rest[j - |head|];
        if i >= |head| {
          assert (head + rest)[i] == rest[i - |head|];
        }
      }
    }
  }

  /** boardToPieceList: the entries of all cells in row-major order. */
  function BoardToPieceList(b: Board): seq<PiecePosition>
  {
    EntriesFrom(b, 0, 0)
  }

  /** The piece list holds one entry for each occupied cell, carrying the piece on it and that
      cell's coordinates, none for an empty cell, in row-major order (so no cell twice). */
  lemma PieceListContents(b: Board)
    ensures forall e :: e in BoardToPieceList(b) <==> At(b, SquareOf(e)) == Some(e.piece)
    ensures forall i, j :: 0 <= i < j < |BoardToPieceList(b)| ==>
      IndexOf(SquareOf(BoardToPieceList(b)[i])) < IndexOf(SquareOf(BoardToPieceList(b)[j]))
  {
    forall e
      ensures e in BoardToPieceList(b) <==> At(b, SquareOf(e)) == Some(e.piece)
    {
      PieceListMember(b, e);
    }
    EntriesFromOrdered(b, 0, 0);
  }

  lemma PieceListMember(b: Board, e: PiecePosition)
    ensures e in BoardToPieceList(b) <==> At(b, SquareOf(e)) == Some(e.piece)
  {
    EntriesFromMember(b, 0, 0, e);
  }

  /** Cells before (r, c) do not affect the entries from (r, c) on. */
  lemma {:induction false} EntriesSetCellBehind(b: Board, s: Square, x: Cell, r: nat, c: nat)
    requires r <= 8 && c <= 8 && IndexOf(s) < 8 * r + c
    ensures EntriesFrom(SetCell(b, s, x), r, c) == EntriesFrom(b, r, c)
    decreases 8 - r, 8 - c
  {
    if r == 8 {
    } else if c == 8 {
      EntriesSetCellBehind(b, s, x, r + 1, 0);
    } else {
      EntriesSetCellBehind(b, s, x, r, c + 1);
      assert At(SetCell(b, s, x), Square(r, c)) == At(b, Square(r, c));
    }
  }

  /** Changing one cell changes the multiset of entries by exactly that cell's entry. */
  lemma {:induction false} EntriesSetCell(b: Board, s: Square, x: Cell, r: nat, c: nat)
    requires r <= 8 && c <= 8 && 8 * r + c <= IndexOf(s)
    ensures multiset(EntriesFrom(SetCell(b, s, x), r, c)) + multiset(EntryOf(At(b, s), s))
         == multiset(EntriesFrom(b, r, c)) + multiset(EntryOf(x, s))
    decreases 8 - r, 8 - c
  {
    if c == 8 {
      EntriesSetCell(b, s, x, r + 1, 0);
    } else if Square(r, c) == s {
      EntriesSetCellHere(b, s, x);
    } else {
      EntriesSetCell(b, s, x, r, c + 1);
      EntriesSetCellPast(b, s, x, r, c);
    }
  }

  /** At the changed cell itself: its entry is replaced and the rest is untouched. */
  lemma EntriesSetCellHere(b: Board, s: Square, x: Cell)
    ensures multiset(EntriesFrom(SetCell(b, s, x), s.row, s.col)) + multiset(EntryOf(At(b, s), s))
         == multiset(EntriesFrom(b, s.row, s.col)) + multiset(EntryOf(x, s))
  {
    var b' := SetCell(b, s, x);
    var rest := EntriesFrom(b, s.row, s.col + 1);
    EntriesSetCellBehind(b, s, x, s.row, s.col + 1);
    assert Square(s.row, s.col) == s;
    assert b'[s.row][s.col] == x;
    assert EntriesFrom(b', s.row, s.col) == EntryOf(x, s) + rest;
    assert EntriesFrom(b, s.row, s.col) == EntryOf(At(b, s), s) + rest;
    SwapHeads(EntryOf(x, s), EntryOf(At(b, s), s), rest);
  }

  lemma SwapHeads<T>(p: seq<T>, q: seq<T>, rest: seq<T>)
    ensures multiset(p + rest) + multiset(q) == multiset(q + rest) + multiset(p)
  {
    assert multiset(p + rest) == multiset(p) + multiset(rest);
    assert multiset(q + rest) == multiset(q) + multiset(rest);
  }

  /** Before the changed cell: an unchanged entry is put in front of both sides. */
  lemma EntriesSetCellPast(b: Board, s: Square, x: Cell, r: nat, c: nat)
    requires r < 8 && c < 8 && 8 * r + c < IndexOf(s)
    requires multiset(EntriesFrom(SetCell(b, s, x), r, c + 1)) + multiset(EntryOf(At(b, s), s))
          == multiset(EntriesFrom(b, r, c + 1)) + multiset(EntryOf(x, s))
    ensures multiset(EntriesFrom(SetCell(b, s, x), r, c)) + multiset(EntryOf(At(b, s), s))
         == multiset(EntriesFrom(b, r, c)) + multiset(EntryOf(x, s))
  {
    var t := Square(r, c);
    assert At(SetCell(b, s, x), t) == At(b, t);
    BalanceCons(EntryOf(At(b, t), t),
      EntriesFrom(SetCell(b, s, x), r, c + 1), EntriesFrom(b, r, c + 1),
      EntryOf(At(b, s), s), EntryOf(x, s));
  }

  /** Putting the same prefix before both sides keeps a multiset balance. */
  lemma BalanceCons<T>(h: seq<T>, a': seq<T>, a: seq<T>, x: seq<T>, y: seq<T>)
    requires multiset(a') + multiset(x) == multiset(a) + multiset(y)
    ensures multiset(h + a') + multiset(x) == multiset(h + a) + multiset(y)
  {
    calc {
      multiset(h + a') + multiset(x);
      multiset(h) + (multiset(a') + multiset(x));
      multiset(h) + (multiset(a) + multiset(y));
      multiset(h + a) + multiset(y);
    }
  }

  /** The piece list of a board with one cell changed differs by exactly that cell's entry. */
  lemma PieceListSetCell(b: Board, s: Square, x: Cell)
    ensures multiset(BoardToPieceList(SetCell(b, s, x))) + multiset(EntryOf(At(b, s), s))
         == multiset(BoardToPieceList(b)) + multiset(EntryOf(x, s))
  {
    EntriesSetCell(b, s, x, 0, 0);
  }

  // ---------------------------------------------------------------------------
  // Counting kings (the nested loops of _checkForGameEnding count over this).

  /** The number of kings of `color` on the squares before (r, c) in row-major order: the
      rows above r, then row r up to column c. */
  function KingsBefore(b: Board, color: Color, r: nat, c: nat): nat
    requires r <= 8 && c <= 8
    decreases r, c
  {
    if c == 0 then (if r == 0 then 0 else KingsBefore(b, color, r - 1, 8))
    else if r == 8 then KingsBefore(b, color, r, c - 1)
    else KingsBefore(b, color, r, c - 1) + (if b[r][c - 1] == Some(Piece(King, color)) then 1 else 0)
  }

  function KingCount(b: Board, color: Color): nat
  {
    KingsBefore(b, color, 8, 0)
  }

  /** Some square holds a king of `color`. */
  ghost predicate HasKing(b: Board, color: Color)
  {
    exists s: Square :: At(b, s) == Some(Piece(King, color))
  }

  lemma {:induction false} KingsBeforeZero(b: Board, color: Color, r: nat, c: nat)
    requires r <= 8 && c <= 8
    ensures KingsBefore(b, color, r, c) == 0 <==>
      forall s: Square :: IndexOf(s) < 8 * r + c ==> At(b, s) != Some(Piece(King, color))
    decreases r, c
  {
    if c == 0 {
      if r > 0 {
        KingsBeforeZero(b, color, r - 1, 8);
      }
    } else if r == 8 {
      KingsBeforeZero(b, color, r, c - 1);
    } else {
      KingsBeforeZero(b, color, r, c - 1);
      assert At(b, Square(r, c - 1)) == b[r][c - 1];
    }
  }

  /** The count is zero exactly when no square holds a king of that colour. */
  lemma KingCountZero(b: Board, color: Color)
    ensures KingCount(b, color) == 0 <==> !HasKing(b, color)
  {
    KingsBeforeZero(b, color, 8, 0);
  }

  /** The standard starting position has a king of each colour. */
  lemma InitialBoardHasKings(color: Color)
    ensures HasKing(InitialBoard(), color)
  {
    var home := if color == White then Square(0, 4) else Square(7, 4);
    assert At(InitialBoard(), home) == Some(Piece(King, color));
  }
}
