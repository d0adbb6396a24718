/** Values shared by the board, the piece rules, the game and the area controller:
    colours, piece kinds, squares, cells, boards, moves and the entries of the piece list. */
module ChessTypes {

  datatype Option<+T> = None | Some(value: T)

  /** A value or the typed rejection that the source throws as an InvalidParametersError. */
  datatype Result<+T, +E> = Ok(value: T) | Err(error: E)

  /** The outcome of a check that either passes or throws. */
  datatype Outcome<+E> = Pass | Fail(error: E)

  /** 'W' and 'B'. */
  datatype Color = White | Black

  /** 'K' | 'Q' | 'R' | 'B' | 'N' | 'P'. */
  datatype Kind = King | Queen | Rook | Bishop | Knight | Pawn

  /** A piece is its kind and colour only; where it stands is given by the board. */
  datatype Piece = Piece(kind: Kind, color: Color)

  /** ChessBoardPosition: a row or column index 0..7. */
  type Coord = x: int | 0 <= x < 8

  /** (row, col); row 0 is White's back rank and col 0 is file A. */
  datatype Square = Square(row: Coord, col: Coord)

  /** ChessCell: a piece or nothing. */
  type Cell = Option<Piece>

  /** One row of the board: 8 cells indexed by column. */
  type Row = r: seq<Cell> | |r| == 8 witness seq(8, _ => None)

  function EmptyRow(): Row
  {
    seq(8, _ => None)
  }

  /** An 8 x 8 grid of cells indexed [row][col]. */
  type Board = b: seq<Row> | |b| == 8 witness seq(8, _ => EmptyRow())

  /** ChessMove: the piece the caller claims to move, where it stands, and where it goes. */
  datatype Move = Move(claimed: Piece, origin: Square, dest: Square)

  /** ChessPiecePosition: a piece with its rank (row) and file (column). */
  datatype PiecePosition = PiecePosition(piece: Piece, rank: Coord, file: Coord)

  /** Players are opaque ids. */
  type PlayerId = string

  function Opponent(c: Color): Color
  {
    if c == White then Black else White
  }
}
