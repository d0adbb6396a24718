/** Places where ChessGame.ts, as written, does not do what its tests and its own comments say
    it should. Each is modelled here as written, with an input that shows the difference; the
    rest of the model uses the corrected behaviour, whose properties are proved beside it. */
module Findings {
  import opened ChessTypes
  import opened ChessBoard
  import opened ChessPieces
  import opened Game
  import opened GameScenarios

  // ---------------------------------------------------------------------------
  // 1. The turn check (ChessGame.ts:174-180)

  /** The check as written: both branches ask whether the named piece is white, the first on
      an odd move count and the second on an even one. The player is never consulted. */
  predicate TurnCheckPassesAsWritten(s: GameState, m: Move)
  {
    && !(m.claimed.color == White && |s.moves| % 2 == 1)
    && !(m.claimed.color == White && |s.moves| % 2 == 0)
  }

  /** As written, the check refuses every move that names a white piece and lets every move
      that names a black one through, whoever makes it and whatever the move count. */
  lemma TurnCheckAsWrittenIgnoresTurn(s: GameState, m: Move)
    ensures TurnCheckPassesAsWritten(s, m) <==> m.claimed.color == Black
  {
    if m.claimed.color == White {
      assert |s.moves| % 2 == 0 || |s.moves| % 2 == 1;
    }
  }

  /** The opening move of ChessGame.test.ts:167-192: White's player moves the pawn on (1, 1)
      to (2, 1), which the test expects to pass the turn check. As written it is refused; the
      corrected rule (Game.IsTurnOf) accepts it and refuses it from the black player, and as
      written a move naming a black piece passes on White's turn even from Black's player. */
  lemma OpeningMoveAsWritten(w: PlayerId, bl: PlayerId, rules: OtherRules)
    requires w != bl
    requires rules(Piece(Pawn, White), Square(1, 1), Square(2, 1), Replay([]), [])
    ensures var s := Played(w, bl, []);
      var m := Move(Piece(Pawn, White), Square(1, 1), Square(2, 1));
      && !TurnCheckPassesAsWritten(s, m)
      && IsTurnOf(s, w) && !IsTurnOf(s, bl)
      && Validate(s, w, m, rules) == Pass
      && Validate(s, bl, m, rules) == Fail(MoveNotYourTurn)
      && TurnCheckPassesAsWritten(s, BlackPawnE)
  {
    var s := Played(w, bl, []);
    var m := Move(Piece(Pawn, White), Square(1, 1), Square(2, 1));
    assert Replay([]) == InitialBoard();
    assert At(Replay(s.moves), m.origin) == Some(Piece(Pawn, White));
    assert At(Replay(s.moves), m.dest) == None;
  }

  // ---------------------------------------------------------------------------
  // 2. The lookup of the moving piece (ChessGame.ts:222)

  /** The square applyMove reads as written: the origin's rank is used for the file too. */
  function OriginAsWritten(m: Move): Square
  {
    Square(m.origin.row, m.origin.row)
  }

  /** The bishop move (0, 2) to (4, 6) of ChessGame.test.ts:426-436: as written, applyMove
      finds White's rook on (0, 0) instead of the bishop, and the rook cannot make the move
      from where it stands, so a move the test plays is refused. The corrected lookup
      (Game.Validate reads the origin itself) accepts it (GameScenarios.BishopOutAccepted). */
  lemma BishopLookupAsWritten()
    ensures var b := Replay([WhitePawnD, BlackPawnE]);
      && OriginAsWritten(BishopOut) == Square(0, 0)
      && At(b, OriginAsWritten(BishopOut)) == Some(Piece(Rook, White))
      && At(b, BishopOut.origin) == Some(Piece(Bishop, White))
      && !RookAccepts(White, OriginAsWritten(BishopOut), BishopOut.dest, b)
  {
    Board2();
  }

  // ---------------------------------------------------------------------------
  // 3. createNewBoard (ChessGame.ts:328-365)

  /** A JavaScript array of rows, each an array of cells; rows and cells may be missing. */
  type Grid = seq<seq<Cell>>

  /** `grid[r][c] = x`: a missing row is `undefined` and the write throws a TypeError (None);
      a write past the end of a row makes the row longer. */
  function Write(g: Grid, r: nat, c: nat, x: Cell): (o: Option<Grid>)
    ensures o.None? <==> r >= |g|
    ensures o.Some? ==> r < |g| && |o.value| == |g|
    ensures o.Some? ==> |o.value[r]| >= |g[r]| && c < |o.value[r]| && o.value[r][c] == x
    ensures o.Some? ==> forall i :: 0 <= i < |g| && i != r ==> o.value[i] == g[i]
    ensures o.Some? ==> forall j :: 0 <= j < |g[r]| && j != c ==> o.value[r][j] == g[r][j]
  {
    if r >= |g| then None
    else
      var row := g[r];
      var row' := if c < |row| then row[c := x] else row + seq(c - |row|, _ => None) + [x];
      Some(g[r := row'])
  }

  /** The next write, unless an earlier one has thrown. */
  function Then(o: Option<Grid>, r: nat, c: nat, x: Cell): (o': Option<Grid>)
    ensures o.None? ==> o'.None?
  {
    if o.None? then None else Write(o.value, r, c, x)
  }

  function W(k: Kind): Cell { Some(Piece(k, White)) }
  function B(k: Kind): Cell { Some(Piece(k, Black)) }

  /** The pawn loop of createNewBoard (ChessGame.ts:333-336) on a fresh `size` x `size` grid:
      on a 7 x 7 grid the writes at column 7 make rows 1 and 6 longer. */
  method PawnsAsWritten(size: nat) returns (g: Grid)
    requires size == 7 || size == 8
    ensures |g| == size
    ensures forall i :: 0 <= i < size && i != 1 && i != 6 ==> g[i] == seq(size, _ => None)
    ensures 8 <= |g[1]| && 8 <= |g[6]|
    ensures forall c :: 0 <= c < 8 ==> g[1][c] == W(Pawn)
    ensures forall c :: 0 <= c < 8 ==> g[6][c] == B(Pawn)
  {
    g := seq(size, _ => seq(size, _ => None));
    var col := 0;
    while col < 8
      invariant 0 <= col <= 8 && |g| == size
      invariant forall i :: 0 <= i < size && i != 1 && i != 6 ==> g[i] == seq(size, _ => None)
      invariant |g[1]| >= size && |g[6]| >= size && |g[1]| >= col && |g[6]| >= col
      invariant forall c :: 0 <= c < col ==> g[1][c] == W(Pawn)
      invariant forall c :: 0 <= c < col ==> g[6][c] == B(Pawn)
    {
      g := Write(g, 1, col, W(Pawn)).value;
      g := Write(g, 6, col, B(Pawn)).value;
      col := col + 1;
    }
  }

  /** createNewBoard as written, on a `size` x `size` grid of empty cells (the source allocates
      7 x 7). The result is None when a write throws. */
  method CreateNewBoardAsWritten(size: nat) returns (o: Option<Grid>)
    requires size == 7 || size == 8
    ensures size == 7 ==> o.None?
    ensures size == 8 ==> o.Some? && |o.value| == 8 && |o.value[0]| == 8 && |o.value[7]| == 8
    ensures size == 8 ==>
      && o.value[0][0] == B(Bishop)
      && o.value[0][2] == None && o.value[0][5] == None
      && o.value[0][3] == W(King) && o.value[0][4] == None
      && o.value[7][3] == B(King) && o.value[7][4] == None
  {
    var g := PawnsAsWritten(size);
    o := Some(g);
    o := Then(o, 0, 0, W(Rook));
    o := Then(o, 0, 7, W(Rook));
    o := Then(o, 7, 0, B(Rook));
    o := Then(o, 7, 7, B(Rook));
    o := Then(o, 0, 1, W(Knight));
    o := Then(o, 0, 6, W(Knight));
    o := Then(o, 7, 1, B(Knight));
    o := Then(o, 7, 6, B(Knight));
    o := Then(o, 0, 0, W(Bishop));
    o := Then(o, 0, 0, W(Bishop));
    o := Then(o, 0, 0, B(Bishop));
    o := Then(o, 0, 0, B(Bishop));
    o := Then(o, 0, 3, W(Queen));
    o := Then(o, 7, 3, B(Queen));
    o := Then(o, 0, 3, W(King));
    o := Then(o, 7, 3, B(King));
  }

  /** What the corrected board (ChessBoard.InitialBoard, built by ChessBoard.CreateNewBoard)
      has on the squares the as-written code gets wrong: the bishops on their own squares,
      the queens on column 3 and the kings on column 4. */
  lemma CorrectedBackRanks()
    ensures var b := InitialBoard();
      && At(b, Square(0, 0)) == W(Rook)
      && At(b, Square(0, 2)) == W(Bishop) && At(b, Square(0, 5)) == W(Bishop)
      && At(b, Square(7, 2)) == B(Bishop) && At(b, Square(7, 5)) == B(Bishop)
      && At(b, Square(0, 3)) == W(Queen) && At(b, Square(7, 3)) == B(Queen)
      && At(b, Square(0, 4)) == W(King) && At(b, Square(7, 4)) == B(King)
  {
  }

  // ---------------------------------------------------------------------------
  // 4. The mover's entry in the piece list (ChessGame.ts:143-147)

  /** _applyMove's list edit as written: the mover's entry is found by the piece's own
      coordinates and rewritten with those same coordinates, so it does not move. */
  function PieceListAfterAsWritten(ps: seq<PiecePosition>, b: Board, m: Move): seq<PiecePosition>
  {
    match At(b, m.origin)
    case None => AfterCapture(ps, b, m)
    case Some(p) => Replace(AfterCapture(ps, b, m), PiecePosition(p, m.origin.row, m.origin.col), PiecePosition(p, m.origin.row, m.origin.col))
  }

  /** Rewriting an entry with itself changes nothing. */
  lemma ReplaceWithItself(ps: seq<PiecePosition>, e: PiecePosition)
    ensures Replace(ps, e, e) == ps
  {
    var i := FirstIndex(ps, e);
    if i != -1 {
      assert ps[i := e] == ps;
    }
  }

  /** As written, a move onto an empty square leaves the list as it was. */
  lemma AsWrittenListUnchanged(ps: seq<PiecePosition>, b: Board, m: Move)
    requires At(b, m.dest).None?
    ensures PieceListAfterAsWritten(ps, b, m) == ps
  {
    if At(b, m.origin).Some? {
      ReplaceWithItself(ps, PiecePosition(At(b, m.origin).value, m.origin.row, m.origin.col));
    }
  }

  /** As written, after any move onto an empty square the list keeps the mover's entry on the
      origin, which the board no longer has, so the list no longer holds the board's pieces. */
  lemma StaleEntryAsWritten(ps: seq<PiecePosition>, b: Board, m: Move)
    requires multiset(ps) == multiset(BoardToPieceList(b))
    requires At(b, m.origin).Some? && m.origin != m.dest && At(b, m.dest).None?
    ensures var stale := PiecePosition(At(b, m.origin).value, m.origin.row, m.origin.col);
      && stale in PieceListAfterAsWritten(ps, b, m)
      && stale !in BoardToPieceList(Step(b, m))
      && multiset(PieceListAfterAsWritten(ps, b, m)) != multiset(BoardToPieceList(Step(b, m)))
  {
    var stale := PiecePosition(At(b, m.origin).value, m.origin.row, m.origin.col);
    AsWrittenListUnchanged(ps, b, m);
    assert stale in multiset(ps) by {
      PieceListMember(b, stale);
    }
    assert stale !in multiset(BoardToPieceList(Step(b, m))) by {
      PieceListMember(Step(b, m), stale);
    }
  }

  /** White's first pawn step from the starting position leaves the pawn's entry on (1, 3). */
  lemma PawnStepListAsWritten()
    ensures var b := InitialBoard();
      PiecePosition(Piece(Pawn, White), 1, 3) in PieceListAfterAsWritten(BoardToPieceList(b), b, WhitePawnD)
  {
    var b := InitialBoard();
    assert At(b, WhitePawnD.origin) == Some(Piece(Pawn, White)) && At(b, WhitePawnD.dest).None?;
    StaleEntryAsWritten(BoardToPieceList(b), b, WhitePawnD);
  }
}
