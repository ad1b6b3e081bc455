/**
 * Concrete positions worked through the generators: a rook stopped by a
 * capture, castling on an otherwise empty back rank, and a pawn's double
 * push from its starting rank.
 */
module Scenarios {
  import opened Options
  import opened Position
  import opened MoveGen
  import opened MoveGenLemmas

  /** A board whose slot `i` holds `at(i)`, without an en-passant target. */
  function BoardWith(turn: Player, rights: CastlingRights, at: int -> Option<Piece>): (b: Board)
    ensures forall s: Square :: GetPiece(b, s) == at(Index(s))
  {
    Board(seq(64, i => at(i)), turn, rights, None, 0, 1)
  }

  const NoRights := CastlingRights(false, false, false, false)
  const AllRights := CastlingRights(true, true, true, true)

  function Sq(file: nat, rank: nat): Square
    requires file < 8 && rank < 8
  {
    Coords(rank, file)
  }

  /** White to move, d5 and d6 empty and a black pawn on d7. */
  predicate PawnAheadOnD7(b: Board)
  {
    b.turn == White && IsEmpty(b, Sq(3, 4)) && IsEmpty(b, Sq(3, 5))
    && GetPiece(b, Sq(3, 6)) == Some(Piece(Pawn, Black))
  }

  /** A white rook on d4 and a black pawn on d7, white to move. */
  function RookPosition(): (b: Board)
    ensures GetPiece(b, Sq(3, 3)) == Some(Piece(Rook, White))
    ensures PawnAheadOnD7(b)
  {
    BoardWith(White, NoRights,
              i => if i == 27 then Some(Piece(Rook, White)) else if i == 51 then Some(Piece(Pawn, Black)) else None)
  }

  /** On that board `get_move` on d4 dispatches to the rook's generator. */
  lemma RookPositionDispatch(pawnInfo: Player -> PawnInfo)
    ensures GetMove(RookPosition(), Sq(3, 3), pawnInfo) == Some(RookMoves(RookPosition(), Sq(3, 3)))
  {
  }

  /** From d4 toward the 8th rank the rook passes d5 and d6 and captures on d7. */
  lemma RookUpRay(b: Board)
    requires PawnAheadOnD7(b)
    ensures ToMoves(b, Sq(3, 3), Ray(Sq(3, 3), 0, -1))
            == [Move(true, Sq(3, 4), Sq(3, 3)), Move(true, Sq(3, 5), Sq(3, 3)), Move(false, Sq(3, 6), Sq(3, 3))]
  {
    var src := Sq(3, 3);
    var up := Ray(src, 0, -1);
    assert up[0] == Some(Sq(3, 4)) && up[1] == Some(Sq(3, 5)) && up[2] == Some(Sq(3, 6));
    assert FreeRun(b, up[2..]) == 0;
    assert FreeRun(b, up[1..]) == 1 by { assert up[1..][1..] == up[2..]; }
    assert FreeRun(b, up) == 2;
    ToMovesPrefix(b, src, up);
  }

  /** The rook on d4 reaches d5 and d6 and captures on d7. */
  lemma RookReachesD7(b: Board)
    requires PawnAheadOnD7(b)
    ensures var r := RookMoves(b, Sq(3, 3));
            Move(true, Sq(3, 4), Sq(3, 3)) in r && Move(true, Sq(3, 5), Sq(3, 3)) in r
            && Move(false, Sq(3, 6), Sq(3, 3)) in r
  {
    var src := Sq(3, 3);
    RookUpRay(b);
    RookRays(b, src);
    var up := ToMoves(b, src, Ray(src, 0, -1));
    assert up[0] in RookMoves(b, src) && up[1] in RookMoves(b, src) && up[2] in RookMoves(b, src);
  }

  /** The rook on d4 never reaches d8 past the pawn on d7. */
  lemma RookMissesD8(b: Board)
    requires PawnAheadOnD7(b)
    ensures forall m :: m in RookMoves(b, Sq(3, 3)) ==> m.dst != Sq(3, 7)
  {
    assert !IsEmpty(b, Sq(3, 6));
    FileBetween(Sq(3, 3), Sq(3, 6), Sq(3, 7));
    RookBlocked(b, Sq(3, 3), Sq(3, 6), Sq(3, 7));
  }

  /**
   * A lone white king on e1 with every right: both castling moves. Under the
   * subtracting `translate`, `Castle(true)` examines d1 and c1 and `Castle(false)`
   * examines f1, g1 and h1.
   */
  lemma CastlingOnEmptyRank()
    ensures var b := BoardWith(White, AllRights, i => if i == 4 then Some(Piece(King, White)) else None);
            CastlingUnwrapsSucceed(b, Sq(4, 0))
            && Castle(true) in KingMoves(b, Sq(4, 0)) && Castle(false) in KingMoves(b, Sq(4, 0))
  {
    var b := BoardWith(White, AllRights, i => if i == 4 then Some(Piece(King, White)) else None);
    assert Translate(Sq(4, 0), 1, 0) == Some(Sq(3, 0)) && Translate(Sq(4, 0), 2, 0) == Some(Sq(2, 0));
    assert Translate(Sq(4, 0), -1, 0) == Some(Sq(5, 0)) && Translate(Sq(4, 0), -2, 0) == Some(Sq(6, 0));
    assert Translate(Sq(4, 0), -3, 0) == Some(Sq(7, 0));
    assert IsEmpty(b, Sq(3, 0)) && IsEmpty(b, Sq(2, 0));
    assert IsEmpty(b, Sq(5, 0)) && IsEmpty(b, Sq(6, 0)) && IsEmpty(b, Sq(7, 0));
  }

  /** With white rooks on a1 and h1 the h1 rook blocks `Castle(false)`, and `Castle(true)` remains. */
  lemma CastlingBlockedByRookOnH1()
    ensures var b := BoardWith(White, AllRights,
                               i => if i == 4 then Some(Piece(King, White))
                                    else if i == 0 || i == 7 then Some(Piece(Rook, White)) else None);
            CastlingUnwrapsSucceed(b, Sq(4, 0))
            && Castle(true) in KingMoves(b, Sq(4, 0)) && Castle(false) !in KingMoves(b, Sq(4, 0))
  {
    var b := BoardWith(White, AllRights,
                       i => if i == 4 then Some(Piece(King, White))
                            else if i == 0 || i == 7 then Some(Piece(Rook, White)) else None);
    assert Translate(Sq(4, 0), -3, 0) == Some(Sq(7, 0));
    assert !IsEmpty(b, Sq(7, 0));
    assert IsEmpty(b, Sq(3, 0)) && IsEmpty(b, Sq(2, 0));
  }

  /**
   * A black pawn on e7, when black's pawn rule is "start on rank index 6,
   * step +1 in `translate`'s subtracting convention", pushes to e6 and e5.
   */
  lemma BlackDoublePush()
    ensures var b := BoardWith(Black, NoRights, i => if i == 52 then Some(Piece(Pawn, Black)) else None);
            var r := PawnMoves(b, Sq(4, 6), PawnRule(6, 1));
            Move(false, Sq(4, 5), Sq(4, 6)) in r && Move(false, Sq(4, 4), Sq(4, 6)) in r
  {
    var b := BoardWith(Black, NoRights, i => if i == 52 then Some(Piece(Pawn, Black)) else None);
    var pushes := PawnPushes(b, Sq(4, 6), PawnRule(6, 1));
    assert |pushes| == 2;
    assert pushes[0] in PawnMoves(b, Sq(4, 6), PawnRule(6, 1));
    assert pushes[1] in PawnMoves(b, Sq(4, 6), PawnRule(6, 1));
  }
}
