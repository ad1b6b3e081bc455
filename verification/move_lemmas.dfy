/**
 * All-inputs characterisations of the knight, king and sliding generators
 * against the independent geometry of `MoveGen`, in both directions.
 */
module MoveGenLemmas {
  import opened Options
  import opened Iter
  import opened Position
  import opened MoveGen

  /** A move is a knight move exactly when it jumps from `src` to a square without an own piece. */
  lemma KnightExact(b: Board, src: Square, rev: bool, dst: Square, from: Square)
    ensures Move(rev, dst, from) in KnightMoves(b, src) <==>
              from == src && IsKnightJump(src, dst) && !HoldsOwn(b, dst) && rev == IsEmpty(b, dst)
  {
    if from == src && IsKnightJump(src, dst) && !HoldsOwn(b, dst) && rev == IsEmpty(b, dst) {
      KnightTargetsComplete(src);
      var f := (t: Option<Square>) => StepTo(b, src, t);
      assert Some(dst) in KnightTargets(src) && f(Some(dst)) == Some(Move(rev, dst, from));
    }
  }

  /** A move is a king step exactly when it goes to a neighbour of `src` without an own piece. */
  lemma KingStepsExact(b: Board, src: Square, rev: bool, dst: Square, from: Square)
    ensures Move(rev, dst, from) in KingSteps(b, src) <==>
              from == src && IsKingStep(src, dst) && !HoldsOwn(b, dst) && rev == IsEmpty(b, dst)
  {
    if from == src && IsKingStep(src, dst) && !HoldsOwn(b, dst) && rev == IsEmpty(b, dst) {
      KingTargetsComplete(src);
      var f := (t: Option<Square>) => StepTo(b, src, t);
      assert Some(dst) in KingTargets(src) && f(Some(dst)) == Some(Move(rev, dst, from));
    }
  }

  /** The king's step moves are the first part of `king`, castling moves the rest. */
  lemma KingStepsInKing(b: Board, src: Square, m: Move)
    requires CastlingUnwrapsSucceed(b, src)
    ensures m.Move? ==> (m in KingMoves(b, src) <==> m in KingSteps(b, src))
  {
  }

  /*
   * Sliding pieces: a ray's moves are exactly the squares along it that are
   * reached over empty squares and do not hold an own piece.
   */

  /** A square on a ray sits at the ray entry one less than its distance. */
  lemma RayAt(src: Square, df: int, dr: int, d: Square)
    requires -1 <= df <= 1 && -1 <= dr <= 1 && (df, dr) != (0, 0)
    requires OnRay(src, d, df, dr)
    ensures Ray(src, df, dr)[RayDistance(src, d, df, dr) - 1] == Some(d)
  {
    var k := RayDistance(src, d, df, dr);
    RayIndex(src, df, dr, k);
    TranslateReaches(src, Scale(df, k), Scale(dr, k), d);
  }

  /** Entry `n - 1` of a ray translates by `n` unit steps. */
  lemma RayIndex(src: Square, df: int, dr: int, n: nat)
    requires -1 <= df <= 1 && -1 <= dr <= 1 && 1 <= n <= 7
    ensures Ray(src, df, dr)[n - 1] == Translate(src, Scale(df, n), Scale(dr, n))
  {
    UnitTimes(df, n);
    UnitTimes(dr, n);
    assert Ray(src, df, dr)[n - 1] == Translate(src, df * n, dr * n);
  }

  /** The direction from `src` toward a square on a ray is the ray's own offset. */
  lemma RayDirection(src: Square, d: Square, df: int, dr: int)
    requires -1 <= df <= 1 && -1 <= dr <= 1 && (df, dr) != (0, 0)
    requires OnRay(src, d, df, dr)
    ensures Sign(src.file - d.file) == df && Sign(src.rank - d.rank) == dr
  {
    var k := RayDistance(src, d, df, dr);
    UnitTimes(df, k);
    UnitTimes(dr, k);
  }

  /** A square on a diagonal or on a file or rank of `src` lies on the ray pointing at it. */
  lemma AlignedOnRay(src: Square, d: Square)
    requires IsDiagonal(src, d) || IsOrthogonal(src, d)
    ensures var df, dr := Sign(src.file - d.file), Sign(src.rank - d.rank);
            (df, dr) != (0, 0) && OnRay(src, d, df, dr)
            && (IsDiagonal(src, d) ==> df != 0 && dr != 0)
            && (IsOrthogonal(src, d) ==> df == 0 || dr == 0)
  {
    var df, dr := Sign(src.file - d.file), Sign(src.rank - d.rank);
    var k := RayDistance(src, d, df, dr);
    UnitTimes(df, k);
    UnitTimes(dr, k);
  }

  /** Over a clear path every ray entry before the target is on the board and empty. */
  lemma RayClearUpTo(b: Board, src: Square, df: int, dr: int, d: Square)
    requires -1 <= df <= 1 && -1 <= dr <= 1 && (df, dr) != (0, 0)
    requires OnRay(src, d, df, dr) && PathClear(b, src, d)
    ensures FreeRun(b, Ray(src, df, dr)) >= RayDistance(src, d, df, dr) - 1
  {
    var line := Ray(src, df, dr);
    var k := RayDistance(src, d, df, dr);
    RayDirection(src, d, df, dr);
    forall j | 0 <= j < k - 1
      ensures line[j].Some? && IsEmpty(b, line[j].value)
    {
      var n := j + 1;
      var s: Square := Coords(src.rank - Scale(dr, n), src.file - Scale(df, n));
      assert RayDistance(src, s, df, dr) == n;
      RayAt(src, df, dr, s);
      assert Between(src, s, d);
    }
  }

  /**
   * `to_moves` along a ray emits every square on it that is reached over
   * empty squares and does not hold an own piece, reversible when empty.
   */
  lemma RayComplete(b: Board, src: Square, df: int, dr: int, d: Square)
    requires -1 <= df <= 1 && -1 <= dr <= 1 && (df, dr) != (0, 0)
    requires OnRay(src, d, df, dr) && PathClear(b, src, d) && !HoldsOwn(b, d)
    ensures Move(IsEmpty(b, d), d, src) in ToMoves(b, src, Ray(src, df, dr))
  {
    var line := Ray(src, df, dr);
    var k := RayDistance(src, d, df, dr);
    RayAt(src, df, dr, d);
    RayClearUpTo(b, src, df, dr, d);
    ReachedOverFree(b, src, line, k - 1, d);
  }

  /** An entry reached over free squares is emitted unless it holds an own piece. */
  lemma ReachedOverFree(b: Board, src: Square, line: seq<Option<Square>>, j: nat, d: Square)
    requires j < |line| && line[j] == Some(d) && FreeRun(b, line) >= j && !HoldsOwn(b, d)
    ensures Move(IsEmpty(b, d), d, src) in ToMoves(b, src, line)
  {
    ToMovesPrefix(b, src, line);
    var r, k := ToMoves(b, src, line), FreeRun(b, line);
    if k > j {
      assert r[j] == Move(true, d, src);
    } else {
      assert line[k] == Some(d) && !IsEmpty(b, d);
      assert HoldsOpponent(b, d);
      assert r[k] == Move(false, d, src);
    }
  }

  /** Every square `to_moves` emits along a ray is reached over empty squares. */
  lemma RayClear(b: Board, src: Square, df: int, dr: int)
    requires -1 <= df <= 1 && -1 <= dr <= 1 && (df, dr) != (0, 0)
    ensures forall m :: m in ToMoves(b, src, Ray(src, df, dr)) ==> PathClear(b, src, m.dst)
  {
    var line := Ray(src, df, dr);
    var r := ToMoves(b, src, line);
    ToMovesPrefix(b, src, line);
    forall i | 0 <= i < |r|
      ensures PathClear(b, src, r[i].dst)
    {
      RayEntry(src, df, dr, i);
      RayDirection(src, r[i].dst, df, dr);
      forall s: Square | Between(src, s, r[i].dst)
        ensures IsEmpty(b, s)
      {
        RayAt(src, df, dr, s);
      }
    }
  }

  /** `bishop` is its four diagonal rays, in order. */
  lemma BishopRays(b: Board, src: Square)
    ensures BishopMoves(b, src)
            == ToMoves(b, src, Ray(src, -1, -1)) + ToMoves(b, src, Ray(src, -1, 1))
               + ToMoves(b, src, Ray(src, 1, -1)) + ToMoves(b, src, Ray(src, 1, 1))
  {
  }

  /** `rook` is its four orthogonal rays, in order. */
  lemma RookRays(b: Board, src: Square)
    ensures RookMoves(b, src)
            == ToMoves(b, src, Ray(src, 1, 0)) + ToMoves(b, src, Ray(src, 0, 1))
               + ToMoves(b, src, Ray(src, -1, 0)) + ToMoves(b, src, Ray(src, 0, -1))
  {
  }

  /**
   * A move is a bishop move exactly when it goes from `src` along a diagonal
   * over empty squares to a square without an own piece.
   */
  lemma BishopExact(b: Board, src: Square, m: Move)
    ensures m in BishopMoves(b, src) <==>
              m.Move? && m.src == src && IsDiagonal(src, m.dst) && PathClear(b, src, m.dst)
              && !HoldsOwn(b, m.dst) && (m.rev <==> IsEmpty(b, m.dst))
  {
    BishopRays(b, src);
    if m in BishopMoves(b, src) {
      RayClear(b, src, -1, -1);
      RayClear(b, src, -1, 1);
      RayClear(b, src, 1, -1);
      RayClear(b, src, 1, 1);
    }
    if m.Move? && m.src == src && IsDiagonal(src, m.dst) && PathClear(b, src, m.dst)
       && !HoldsOwn(b, m.dst) && (m.rev <==> IsEmpty(b, m.dst)) {
      AlignedOnRay(src, m.dst);
      var df, dr := Sign(src.file - m.dst.file), Sign(src.rank - m.dst.rank);
      RayComplete(b, src, df, dr, m.dst);
      assert m == Move(IsEmpty(b, m.dst), m.dst, src);
    }
  }

  /**
   * A move is a rook move exactly when it goes from `src` along its file or
   * rank over empty squares to a square without an own piece.
   */
  lemma RookExact(b: Board, src: Square, m: Move)
    ensures m in RookMoves(b, src) <==>
              m.Move? && m.src == src && IsOrthogonal(src, m.dst) && PathClear(b, src, m.dst)
              && !HoldsOwn(b, m.dst) && (m.rev <==> IsEmpty(b, m.dst))
  {
    RookRays(b, src);
    if m in RookMoves(b, src) {
      RayClear(b, src, 1, 0);
      RayClear(b, src, 0, 1);
      RayClear(b, src, -1, 0);
      RayClear(b, src, 0, -1);
    }
    if m.Move? && m.src == src && IsOrthogonal(src, m.dst) && PathClear(b, src, m.dst)
       && !HoldsOwn(b, m.dst) && (m.rev <==> IsEmpty(b, m.dst)) {
      AlignedOnRay(src, m.dst);
      var df, dr := Sign(src.file - m.dst.file), Sign(src.rank - m.dst.rank);
      RayComplete(b, src, df, dr, m.dst);
      assert m == Move(IsEmpty(b, m.dst), m.dst, src);
    }
  }

  /**
   * A move is a queen move exactly when it goes from `src` along a diagonal,
   * file or rank over empty squares to a square without an own piece.
   */
  lemma QueenExact(b: Board, src: Square, m: Move)
    ensures m in QueenMoves(b, src) <==>
              m.Move? && m.src == src && (IsDiagonal(src, m.dst) || IsOrthogonal(src, m.dst))
              && PathClear(b, src, m.dst) && !HoldsOwn(b, m.dst) && (m.rev <==> IsEmpty(b, m.dst))
  {
    BishopExact(b, src, m);
    RookExact(b, src, m);
  }

  /** A square of the same file at a rank strictly between two others lies between them. */
  lemma FileBetween(from: Square, s: Square, to: Square)
    requires from.file == s.file == to.file
    requires from.rank < s.rank < to.rank || to.rank < s.rank < from.rank
    ensures Between(from, s, to)
  {
  }

  /** A rook never moves past an occupied square: nothing beyond it is a destination. */
  lemma RookBlocked(b: Board, src: Square, blocker: Square, d: Square)
    requires Between(src, blocker, d) && !IsEmpty(b, blocker)
    ensures forall m :: m in RookMoves(b, src) ==> m.dst != d
  {
    forall m | m in RookMoves(b, src)
      ensures m.dst != d
    {
      RookExact(b, src, m);
    }
  }
}
