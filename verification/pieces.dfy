/**
 * Board model of the chess rules engine: colours, kinds, pieces, cells,
 * squares and the 8x8 grid.
 *
 * The program stores each cell as a one-character string whose letter gives
 * the kind and whose case gives the colour ('K' White king, 'k' Black king,
 * '' empty).  Here a cell is a tagged value; the character encoding is kept as
 * a codec (`Symbol` / `Decode`) so the correspondence can be stated.
 */
module Pieces {

  datatype Option<+T> = None | Some(value: T)

  datatype Color = White | Black

  function Opponent(c: Color): (r: Color)
    ensures r != c
  {
    if c == White then Black else White
  }

  datatype Kind = Pawn | Knight | Bishop | Rook | Queen | King

  datatype Piece = Piece(kind: Kind, color: Color)

  datatype Cell = Empty | Occupied(piece: Piece)

  /** A (row, col) pair; row 0 is Black's back rank, row 7 is White's.
      Off-board pairs are representable: the move generators compute them
      before testing bounds. */
  datatype Square = Square(row: int, col: int)

  predicate OnBoard(s: Square) {
    0 <= s.row < 8 && 0 <= s.col < 8
  }

  predicate IsGrid(b: seq<seq<Cell>>) {
    |b| == 8 && forall r :: 0 <= r < 8 ==> |b[r]| == 8
  }

  /** An 8x8 grid of cells, indexed board[row][col] as in the program. */
  type Board = b: seq<seq<Cell>> | IsGrid(b) witness seq(8, _ => seq(8, _ => Empty))

  function At(b: Board, s: Square): Cell
    requires OnBoard(s)
  {
    b[s.row][s.col]
  }

  /** The board with one cell overwritten; every other cell keeps its content. */
  function Put(b: Board, s: Square, c: Cell): (r: Board)
    requires OnBoard(s)
    ensures At(r, s) == c
    ensures forall t :: OnBoard(t) && t != s ==> At(r, t) == At(b, t)
  {
    b[s.row := b[s.row][s.col := c]]
  }

  predicate HasColor(b: Board, s: Square, c: Color)
    requires OnBoard(s)
  {
    At(b, s).Occupied? && At(b, s).piece.color == c
  }

  predicate IsKingAt(b: Board, s: Square, c: Color) {
    OnBoard(s) && At(b, s) == Occupied(Piece(King, c))
  }

  ghost predicate HasKing(b: Board, c: Color) {
    exists s :: IsKingAt(b, s, c)
  }

  /** Exactly one king of colour `c` stands on the board. */
  ghost predicate OneKing(b: Board, c: Color) {
    exists k :: IsKingAt(b, k, c) && forall s :: IsKingAt(b, s, c) ==> s == k
  }

  // ---------------------------------------------------------------------
  // The program's one-character encoding of a cell.

  function LowerLetter(k: Kind): char {
    match k
    case Pawn => 'p'
    case Knight => 'n'
    case Bishop => 'b'
    case Rook => 'r'
    case Queen => 'q'
    case King => 'k'
  }

  function UpperLetter(k: Kind): char {
    match k
    case Pawn => 'P'
    case Knight => 'N'
    case Bishop => 'B'
    case Rook => 'R'
    case Queen => 'Q'
    case King => 'K'
  }

  /** The string the program keeps in a cell. */
  function Symbol(c: Cell): string {
    match c
    case Empty => ""
    case Occupied(p) => [if p.color == White then UpperLetter(p.kind) else LowerLetter(p.kind)]
  }

  function DecodeLetter(ch: char): Option<Piece> {
    match ch
    case 'P' => Some(Piece(Pawn, White))
    case 'N' => Some(Piece(Knight, White))
    case 'B' => Some(Piece(Bishop, White))
    case 'R' => Some(Piece(Rook, White))
    case 'Q' => Some(Piece(Queen, White))
    case 'K' => Some(Piece(King, White))
    case 'p' => Some(Piece(Pawn, Black))
    case 'n' => Some(Piece(Knight, Black))
    case 'b' => Some(Piece(Bishop, Black))
    case 'r' => Some(Piece(Rook, Black))
    case 'q' => Some(Piece(Queen, Black))
    case 'k' => Some(Piece(King, Black))
    case _ => None
  }

  /** Reads a cell string; anything but '' and the twelve letters is rejected. */
  function Decode(s: string): Option<Cell> {
    if s == "" then Some(Empty)
    else if |s| != 1 then None
    else match DecodeLetter(s[0])
      case None => None
      case Some(p) => Some(Occupied(p))
  }

  function ToUpper(ch: char): char {
    if 'a' <= ch <= 'z' then (ch as int - 32) as char else ch
  }

  /** The encoding is faithful: decoding the symbol of a cell gives the cell
      back, and a decoded string is exactly the symbol of its cell. */
  lemma SymbolRoundTrip(c: Cell, s: string)
    ensures Decode(Symbol(c)) == Some(c)
    ensures Decode(s) == Some(c) ==> Symbol(c) == s
  {
    if Decode(s) == Some(c) && s != "" {
      assert |s| == 1 && s == [s[0]];
    }
  }

  /** The program tells colours apart by `piece === piece.toUpperCase()`:
      a symbol is unchanged by upper-casing exactly when the piece is White. */
  lemma SymbolCaseGivesColor(p: Piece)
    ensures var ch := Symbol(Occupied(p))[0]; (ToUpper(ch) == ch) <==> p.color == White
  {
  }

  // ---------------------------------------------------------------------
  // The initial position.

  function BackRankKind(col: int): Kind {
    if col == 0 || col == 7 then Rook
    else if col == 1 || col == 6 then Knight
    else if col == 2 || col == 5 then Bishop
    else if col == 3 then Queen
    else King
  }

  function InitialCell(row: int, col: int): Cell {
    if row == 0 then Occupied(Piece(BackRankKind(col), Black))
    else if row == 1 then Occupied(Piece(Pawn, Black))
    else if row == 6 then Occupied(Piece(Pawn, White))
    else if row == 7 then Occupied(Piece(BackRankKind(col), White))
    else Empty
  }

  /** The program's start position, written in its one-letter codes. */
  const InitialSymbols: seq<seq<string>> := [
    ["r", "n", "b", "q", "k", "b", "n", "r"],
    ["p", "p", "p", "p", "p", "p", "p", "p"],
    ["", "", "", "", "", "", "", ""],
    ["", "", "", "", "", "", "", ""],
    ["", "", "", "", "", "", "", ""],
    ["", "", "", "", "", "", "", ""],
    ["P", "P", "P", "P", "P", "P", "P", "P"],
    ["R", "N", "B", "Q", "K", "B", "N", "R"]
  ]

  /** The start position: every square holds what the program's letter
      table says. */
  function InitialBoard(): (r: Board)
    ensures forall s :: OnBoard(s) ==> Decode(InitialSymbols[s.row][s.col]) == Some(At(r, s))
  {
    seq(8, r => seq(8, c => InitialCell(r, c)))
  }

  /** The standard start: one king per side on column 4, pawns on rows 1 and 6,
      rows 2 to 5 empty. */
  lemma InitialBoardLayout()
    ensures forall s :: IsKingAt(InitialBoard(), s, White) <==> s == Square(7, 4)
    ensures forall s :: IsKingAt(InitialBoard(), s, Black) <==> s == Square(0, 4)
    ensures forall s :: OnBoard(s) && 2 <= s.row <= 5 ==> At(InitialBoard(), s).Empty?
    ensures forall s :: OnBoard(s) && s.row == 6 ==> At(InitialBoard(), s) == Occupied(Piece(Pawn, White))
    ensures forall s :: OnBoard(s) && s.row == 1 ==> At(InitialBoard(), s) == Occupied(Piece(Pawn, Black))
    ensures OneKing(InitialBoard(), White) && OneKing(InitialBoard(), Black)
  {
    var b := InitialBoard();
    forall s | OnBoard(s)
      ensures At(b, s) == InitialCell(s.row, s.col)
    {
    }
    assert IsKingAt(b, Square(7, 4), White);
    assert IsKingAt(b, Square(0, 4), Black);
  }
}
