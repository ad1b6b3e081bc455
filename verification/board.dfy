/**
 * The position model of `rhchess_engine/src/board.rs`: pieces, squares with
 * their bounds-checked constructor and translation, the algebraic label of a
 * square, and the board snapshot with its single occupancy query.
 */
module Position {
  import opened Options

  /** Rust's fixed-width integer types, as the ranges they hold. */
  type U8 = x: int | 0 <= x < 0x100
  type U16 = x: int | 0 <= x < 0x1_0000
  type I32 = x: int | -0x8000_0000 <= x < 0x8000_0000

  datatype PieceKind = Pawn | Rook | Knight | Bishop | Queen | King

  datatype Player = White | Black

  datatype Piece = Piece(kind: PieceKind, owner: Player)

  /** The two `u8` fields of a square, in declaration order. */
  datatype Coords = Coords(rank: U8, file: U8)

  /** A square: both coordinates below 8, file 0 is the a-file, rank 0 the 1st rank. */
  type Square = c: Coords | c.rank < 8 && c.file < 8 witness Coords(0, 0)

  /** `Square::new(file, rank)`: `None` unless both coordinates are on the board. */
  function NewSquare(file: U8, rank: U8): (r: Option<Square>)
    ensures r.Some? <==> file < 8 && rank < 8
    ensures r.Some? ==> r.value.file == file && r.value.rank == rank
  {
    if file < 8 && rank < 8 then Some(Coords(rank, file)) else None
  }

  /** Two's-complement wrap-around of an integer into `i32`. */
  function WrapI32(x: int): I32
  {
    (x + 0x8000_0000) % 0x1_0000_0000 - 0x8000_0000
  }

  /** `i32::try_into::<u8>().ok()`. */
  function TryIntoU8(x: int): Option<U8>
  {
    if 0 <= x < 0x100 then Some(x) else None
  }

  /**
   * `Square::translate(df, dr)`: the square at `(file - df, rank - dr)`.
   * Both differences are taken in `i32`; the upper bound is checked
   * directly and a negative coordinate fails its conversion back to `u8`.
   */
  function Translate(s: Square, df: I32, dr: I32): (r: Option<Square>)
    ensures r.Some? <==> 0 <= s.file - df < 8 && 0 <= s.rank - dr < 8
    ensures r.Some? ==> r.value.file == s.file - df && r.value.rank == s.rank - dr
  {
    var file := WrapI32(s.file - df);
    var rank := WrapI32(s.rank - dr);
    if file < 8 && rank < 8 then
      match TryIntoU8(rank)
      case None => None
      case Some(r) =>
        match TryIntoU8(file)
        case None => None
        case Some(f) => Some(Coords(r, f))
    else
      None
  }

  /** `Display for Square`: the file letter followed by the rank number. */
  const FileLetters: string := "abcdefgh"

  function Show(s: Square): (r: string)
    ensures |r| == 2
    ensures 'a' <= r[0] <= 'h' && '1' <= r[1] <= '8'
    ensures r[0] as int - 'a' as int == s.file && r[1] as int - '0' as int == s.rank + 1
  {
    [FileLetters[s.file], ('0' as int + s.rank + 1) as char]
  }

  /** Reads an algebraic label back: the inverse of `Show`. */
  function ParseSquare(t: string): (r: Option<Square>)
    ensures r.Some? <==> |t| == 2 && 'a' <= t[0] <= 'h' && '1' <= t[1] <= '8'
  {
    if |t| == 2 && 'a' <= t[0] <= 'h' && '1' <= t[1] <= '8' then
      Some(Coords(t[1] as int - '1' as int, t[0] as int - 'a' as int))
    else
      None
  }

  /** `castling_rights`: (white queen side, white king side, black queen side, black king side). */
  datatype CastlingRights = CastlingRights(whiteQueen: bool, whiteKing: bool, blackQueen: bool, blackKing: bool)

  /** The 64 slots of the board, indexed by `rank * 8 + file`. */
  type Positions = s: seq<Option<Piece>> | |s| == 64 witness seq(64, _ => None)

  datatype Board = Board(
    positions: Positions,
    turn: Player,
    castlingRights: CastlingRights,
    enPassant: Option<Square>,
    reversibleMoves: U16,
    fullMoves: U16)

  /** The slot of a square in `positions`. */
  function Index(s: Square): (i: nat)
    ensures i < 64
  {
    s.rank * 8 + s.file
  }

  /** The square stored in slot `i`: the inverse of `Index`. */
  function SquareAt(i: nat): Square
    requires i < 64
  {
    Coords(i / 8, i % 8)
  }

  /** `Board::get_piece`. */
  function GetPiece(b: Board, s: Square): Option<Piece>
  {
    b.positions[Index(s)]
  }

  // Properties of the position model.

  /** `Square::new` accepts every square's own coordinates. */
  lemma NewSquareOfSquare(s: Square)
    ensures NewSquare(s.file, s.rank) == Some(s)
  {
  }

  /** A zero offset is the identity. */
  lemma TranslateZero(s: Square)
    ensures Translate(s, 0, 0) == Some(s)
  {
  }

  /** Translating back by the negated offset returns to the start. */
  lemma TranslateInverse(s: Square, df: I32, dr: I32)
    ensures Translate(s, df, dr).Some? ==>
              Translate(Translate(s, df, dr).value, -df, -dr) == Some(s)
  {
  }

  /** `translate` reaches the square at the subtracted offset. */
  lemma TranslateReaches(s: Square, df: I32, dr: I32, d: Square)
    requires d.file == s.file - df && d.rank == s.rank - dr
    ensures Translate(s, df, dr) == Some(d)
  {
  }

  /** A label reads back as the square it shows, and only a label reads back at all. */
  lemma ShowParse(s: Square, t: string)
    ensures ParseSquare(Show(s)) == Some(s)
    ensures ParseSquare(t) == Some(s) ==> Show(s) == t
  {
  }

  /** Distinct squares show distinct labels. */
  lemma ShowInjective(a: Square, b: Square)
    ensures Show(a) == Show(b) ==> a == b
  {
    ShowParse(a, Show(b));
  }

  /** `Index` is a bijection between squares and the 64 slots. */
  lemma IndexBijective(s: Square, t: Square, i: nat)
    requires i < 64
    ensures SquareAt(Index(s)) == s
    ensures Index(SquareAt(i)) == i
    ensures Index(s) == Index(t) ==> s == t
  {
    var j := s.rank * 8 + s.file;
    assert j / 8 == s.rank && j % 8 == s.file;
    assert i == (i / 8) * 8 + i % 8;
  }

  /** Every slot of `positions` is the occupant of exactly the square it indexes. */
  lemma GetPieceSlot(b: Board, i: nat)
    requires i < 64
    ensures GetPiece(b, SquareAt(i)) == b.positions[i]
  {
    IndexBijective(SquareAt(i), SquareAt(i), i);
  }
}
