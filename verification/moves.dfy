/**
 * The pseudo-legal move generator of `rhchess_engine/src/moves.rs`: one pure
 * function per piece kind, each reading an immutable board and returning the
 * candidate moves of the piece on `src`, and the dispatcher `GetMove`.
 *
 * Every generator decides "capture or own piece" against `board.turn`, not
 * against the owner of the piece on `src`, exactly as the Rust code does.
 */
module MoveGen {
  import opened Options
  import opened Iter
  import opened Position

  /** `Move`: `Castle(king_side)`, `EnPassent(src)` or `Move(rev, dst, src)`. */
  datatype Move =
    | Castle(kingSide: bool)
    | EnPassent(src: Square)
    | Move(rev: bool, dst: Square, src: Square)

  predicate IsEmpty(b: Board, s: Square)
  {
    GetPiece(b, s).None?
  }

  /** A translation result that is on the board and empty. */
  predicate Free(b: Board, t: Option<Square>)
  {
    t.Some? && IsEmpty(b, t.value)
  }

  /** The square holds a piece of the side to move. */
  predicate HoldsOwn(b: Board, s: Square)
  {
    GetPiece(b, s).Some? && GetPiece(b, s).value.owner == b.turn
  }

  /** The square holds a piece of the side not to move. */
  predicate HoldsOpponent(b: Board, s: Square)
  {
    GetPiece(b, s).Some? && GetPiece(b, s).value.owner != b.turn
  }

  /** Every move that names a source names `src`. */
  predicate FromSource(ms: seq<Move>, src: Square)
  {
    forall m :: m in ms ==> !m.Castle? ==> m.src == src
  }

  /** No ordinary move lands on a piece of the side to move. */
  predicate NeverOnOwn(b: Board, ms: seq<Move>)
  {
    forall m :: m in ms ==> m.Move? ==> !HoldsOwn(b, m.dst)
  }

  /** An ordinary move is reversible exactly when its destination is empty. */
  predicate QuietIsReversible(b: Board, ms: seq<Move>)
  {
    forall m :: m in ms ==> m.Move? ==> (m.rev <==> IsEmpty(b, m.dst))
  }

  function Abs(x: int): nat
  {
    if x < 0 then -x else x
  }

  /*
   * Geometry, stated independently of the offset tables the generators use.
   */

  predicate IsKnightJump(from: Square, to: Square)
  {
    var df, dr := Abs(to.file - from.file), Abs(to.rank - from.rank);
    (df == 1 && dr == 2) || (df == 2 && dr == 1)
  }

  predicate IsKingStep(from: Square, to: Square)
  {
    from != to && Abs(to.file - from.file) <= 1 && Abs(to.rank - from.rank) <= 1
  }

  predicate IsDiagonal(from: Square, to: Square)
  {
    from != to && Abs(to.file - from.file) == Abs(to.rank - from.rank)
  }

  predicate IsOrthogonal(from: Square, to: Square)
  {
    from != to && (to.file == from.file || to.rank == from.rank)
  }

  /** The number of steps from `from` to `to` along the translation offset `(df, dr)`. */
  function RayDistance(from: Square, to: Square, df: int, dr: int): nat
  {
    if df != 0 then Abs(from.file - to.file) else Abs(from.rank - to.rank)
  }

  /**
   * `to` lies `k` steps, 1 <= k <= 7, from `from` along the translation
   * offset `(df, dr)`, each component in -1..1 and not both 0.
   */
  predicate OnRay(from: Square, to: Square, df: int, dr: int)
    requires -1 <= df <= 1 && -1 <= dr <= 1
  {
    var k := RayDistance(from, to, df, dr);
    1 <= k <= 7 && to.file == from.file - Scale(df, k) && to.rank == from.rank - Scale(dr, k)
  }

  /** `d * k` for a unit direction component `d`, written without multiplication. */
  function Scale(d: int, k: int): int
  {
    if d < 0 then -k else if d == 0 then 0 else k
  }

  function Sign(x: int): int
  {
    if x < 0 then -1 else if x == 0 then 0 else 1
  }

  /**
   * `s` lies strictly between `from` and `to` on the line from `from` through
   * `to`: on the ray toward `to`, fewer steps away than `to`.
   */
  predicate Between(from: Square, s: Square, to: Square)
  {
    var df, dr := Sign(from.file - to.file), Sign(from.rank - to.rank);
    OnRay(from, s, df, dr) && RayDistance(from, s, df, dr) < RayDistance(from, to, df, dr)
  }

  /** Every square strictly between `from` and `to` is empty. */
  ghost predicate PathClear(b: Board, from: Square, to: Square)
  {
    forall s: Square :: Between(from, s, to) ==> IsEmpty(b, s)
  }

  /*
   * Knight and king steps share one rule: an empty square is a reversible
   * move, a square of the side not to move a capture, an own square nothing.
   */
  function StepTo(b: Board, src: Square, target: Option<Square>): (r: Option<Move>)
    ensures r.Some? <==> target.Some? && !HoldsOwn(b, target.value)
    ensures r.Some? ==> r.value == Move(IsEmpty(b, target.value), target.value, src)
  {
    match target
    case None => None
    case Some(x) =>
      match GetPiece(b, x)
      case Some(piece) => if piece.owner != b.turn then Some(Move(false, x, src)) else None
      case None => Some(Move(true, x, src))
  }

  /** `u8::checked_sub`. */
  function CheckedSub(a: U8, b: U8): Option<U8>
  {
    if a >= b then Some(a - b) else None
  }

  /** The eight knight candidates, in the order and with the arithmetic of `knight`. */
  function KnightTargets(src: Square): seq<Option<Square>>
  {
    [
      AndThen(CheckedSub(src.rank, 2), (x: U8) => NewSquare(src.file + 1, x)),
      AndThen(CheckedSub(src.rank, 1), (x: U8) => NewSquare(src.file + 2, x)),
      NewSquare(src.file + 2, src.rank + 1),
      NewSquare(src.file + 1, src.rank + 2),
      AndThen(CheckedSub(src.file, 1), (x: U8) => NewSquare(x, src.rank + 2)),
      AndThen(CheckedSub(src.file, 2), (x: U8) => NewSquare(x, src.rank + 1)),
      AndThen(CheckedSub(src.file, 2),
              (f: U8) => AndThen(CheckedSub(src.rank, 1), (r: U8) => NewSquare(f, r))),
      AndThen(CheckedSub(src.file, 1),
              (f: U8) => AndThen(CheckedSub(src.rank, 2), (r: U8) => NewSquare(f, r)))
    ]
  }

  /** `knight`. */
  function KnightMoves(b: Board, src: Square): (r: seq<Move>)
    ensures |r| <= 8
    ensures forall m :: m in r ==> m.Move? && m.src == src && IsKnightJump(src, m.dst)
    ensures NeverOnOwn(b, r) && QuietIsReversible(b, r)
  {
    KnightTargetsSound(src);
    FilterMap(KnightTargets(src), (t: Option<Square>) => StepTo(b, src, t))
  }

  /** Every candidate `knight` builds, when on the board, is a knight jump. */
  lemma KnightTargetsSound(src: Square)
    ensures forall t :: t in KnightTargets(src) ==> t.Some? ==> IsKnightJump(src, t.value)
  {
    var ts := KnightTargets(src);
    forall i | 0 <= i < 8
      ensures ts[i].Some? ==> IsKnightJump(src, ts[i].value)
    {
    }
  }

  /** Every knight jump from `src` is one of the candidates. */
  lemma KnightTargetsComplete(src: Square)
    ensures forall d: Square :: IsKnightJump(src, d) ==> Some(d) in KnightTargets(src)
  {
    forall d: Square | IsKnightJump(src, d)
      ensures Some(d) in KnightTargets(src)
    {
      KnightCandidate(src, d);
    }
  }

  /** The candidate of `knight` that lands on one given jump target. */
  lemma KnightCandidate(src: Square, d: Square)
    requires IsKnightJump(src, d)
    ensures Some(d) in KnightTargets(src)
  {
    if d.file > src.file {
      KnightCandidateRight(src, d);
    } else {
      KnightCandidateLeft(src, d);
    }
  }

  /** Candidates 0 to 3 of `knight` in plain arithmetic: `None` when a `checked_sub` underflows. */
  lemma KnightTargetsRight(src: Square)
    ensures KnightTargets(src)[0] == (if src.rank >= 2 then NewSquare(src.file + 1, src.rank - 2) else None)
    ensures KnightTargets(src)[1] == (if src.rank >= 1 then NewSquare(src.file + 2, src.rank - 1) else None)
    ensures KnightTargets(src)[2] == NewSquare(src.file + 2, src.rank + 1)
    ensures KnightTargets(src)[3] == NewSquare(src.file + 1, src.rank + 2)
  {
  }

  /** Candidates 4 to 7 of `knight` in plain arithmetic. */
  lemma KnightTargetsLeft(src: Square)
    ensures KnightTargets(src)[4] == (if src.file >= 1 then NewSquare(src.file - 1, src.rank + 2) else None)
    ensures KnightTargets(src)[5] == (if src.file >= 2 then NewSquare(src.file - 2, src.rank + 1) else None)
    ensures KnightTargets(src)[6] ==
            (if src.file >= 2 && src.rank >= 1 then NewSquare(src.file - 2, src.rank - 1) else None)
    ensures KnightTargets(src)[7] ==
            (if src.file >= 1 && src.rank >= 2 then NewSquare(src.file - 1, src.rank - 2) else None)
  {
  }

  /** Jumps toward a higher file are candidates 0 to 3. */
  lemma KnightCandidateRight(src: Square, d: Square)
    requires IsKnightJump(src, d) && d.file > src.file
    ensures Some(d) in KnightTargets(src)[..4]
  {
    KnightTargetsRight(src);
    var ts := KnightTargets(src);
    var df, dr := d.file - src.file, d.rank - src.rank;
    if df == 1 && dr == -2 {
      assert ts[0] == Some(d);
    } else if df == 2 && dr == -1 {
      assert ts[1] == Some(d);
    } else if df == 2 {
      assert ts[2] == Some(d);
    } else {
      assert ts[3] == Some(d);
    }
  }

  /** Jumps toward a lower file are candidates 4 to 7. */
  lemma KnightCandidateLeft(src: Square, d: Square)
    requires IsKnightJump(src, d) && d.file < src.file
    ensures Some(d) in KnightTargets(src)[4..]
  {
    KnightTargetsLeft(src);
    var ts := KnightTargets(src);
    var df, dr := d.file - src.file, d.rank - src.rank;
    if df == -1 && dr == 2 {
      assert ts[4] == Some(d);
    } else if df == -2 && dr == 1 {
      assert ts[5] == Some(d);
    } else if df == -2 {
      assert ts[6] == Some(d);
    } else {
      assert ts[7] == Some(d);
    }
  }

  /*
   * Sliding pieces.
   */

  /** `(1..8).map(|x| src.translate(df * x, dr * x))`. */
  function Ray(src: Square, df: int, dr: int): (line: seq<Option<Square>>)
    requires -1 <= df <= 1 && -1 <= dr <= 1
    ensures |line| == 7
  {
    seq(7, i requires 0 <= i < 7 => Translate(src, df * (i + 1), dr * (i + 1)))
  }

  /**
   * The number of leading squares of `line` that are on the board and empty:
   * the index of the first off-board or occupied entry, or `|line|`.
   */
  function FreeRun(b: Board, line: seq<Option<Square>>): (k: nat)
    ensures k <= |line|
    ensures forall i :: 0 <= i < k ==> line[i].Some? && IsEmpty(b, line[i].value)
    ensures k < |line| ==> line[k].None? || !IsEmpty(b, line[k].value)
  {
    if |line| == 0 || line[0].None? || !IsEmpty(b, line[0].value) then 0
    else 1 + FreeRun(b, line[1..])
  }

  /** `to_moves`: walk `line` until it leaves the board or meets a piece. */
  function ToMoves(b: Board, src: Square, line: seq<Option<Square>>): (r: seq<Move>)
    ensures |r| <= |line|
    ensures forall i :: 0 <= i < |r| ==>
              r[i].Move? && r[i].src == src && line[i] == Some(r[i].dst)
    ensures forall i :: 0 <= i < |r| ==>
              !HoldsOwn(b, r[i].dst) && (r[i].rev <==> IsEmpty(b, r[i].dst))
    ensures forall i :: 0 <= i < |r| - 1 ==> r[i].rev
  {
    if |line| == 0 then []
    else
      match line[0]
      case None => []
      case Some(s) =>
        match GetPiece(b, s)
        case None => [Move(true, s, src)] + ToMoves(b, src, line[1..])
        case Some(piece) => if b.turn != piece.owner then [Move(false, s, src)] else []
  }

  lemma UnitTimes(d: int, k: int)
    requires -1 <= d <= 1
    ensures d * k == Scale(d, k)
  {
  }

  /** A move of a slider along the ray `(df, dr)` from `src`. */
  predicate SlideAlong(b: Board, src: Square, m: Move, df: int, dr: int)
    requires -1 <= df <= 1 && -1 <= dr <= 1
  {
    m.Move? && m.src == src && OnRay(src, m.dst, df, dr)
    && !HoldsOwn(b, m.dst) && (m.rev <==> IsEmpty(b, m.dst))
  }

  /** `to_moves` along one ray: its moves land on the ray. */
  lemma RayGeometry(b: Board, src: Square, df: int, dr: int)
    requires -1 <= df <= 1 && -1 <= dr <= 1 && (df, dr) != (0, 0)
    ensures forall m :: m in ToMoves(b, src, Ray(src, df, dr)) ==> SlideAlong(b, src, m, df, dr)
  {
    var line := Ray(src, df, dr);
    var r := ToMoves(b, src, line);
    forall i | 0 <= i < |r|
      ensures OnRay(src, r[i].dst, df, dr)
    {
      RayEntry(src, df, dr, i);
    }
  }

  /** The `i`-th square of a ray, when on the board, is `i + 1` steps along it. */
  lemma RayEntry(src: Square, df: int, dr: int, i: nat)
    requires -1 <= df <= 1 && -1 <= dr <= 1 && (df, dr) != (0, 0) && i < 7
    ensures Ray(src, df, dr)[i].Some? ==>
              OnRay(src, Ray(src, df, dr)[i].value, df, dr)
              && RayDistance(src, Ray(src, df, dr)[i].value, df, dr) == i + 1
  {
    var k := i + 1;
    var t := Translate(src, df * k, dr * k);
    assert Ray(src, df, dr)[i] == t;
    if t.Some? {
      UnitTimes(df, k);
      UnitTimes(dr, k);
      assert t.value.file == src.file - df * k && t.value.rank == src.rank - dr * k;
      assert k == RayDistance(src, t.value, df, dr);
    }
  }

  /** A square on a diagonal ray is on a diagonal; one on an orthogonal ray shares a file or rank. */
  lemma OnRayShape(src: Square, dst: Square, df: int, dr: int)
    requires -1 <= df <= 1 && -1 <= dr <= 1 && (df, dr) != (0, 0)
    requires OnRay(src, dst, df, dr)
    ensures df != 0 && dr != 0 ==> IsDiagonal(src, dst)
    ensures df == 0 || dr == 0 ==> IsOrthogonal(src, dst)
  {
    var k := RayDistance(src, dst, df, dr);
    UnitTimes(df, k);
    UnitTimes(dr, k);
  }

  /** The moves of four rays, concatenated, as `bishop` and `rook` do. */
  function Slide(b: Board, src: Square, d0: (int, int), d1: (int, int), d2: (int, int), d3: (int, int))
    : (r: seq<Move>)
    requires forall d :: d in [d0, d1, d2, d3] ==> -1 <= d.0 <= 1 && -1 <= d.1 <= 1 && d != (0, 0)
    ensures |r| <= 28
    ensures forall m :: m in r ==>
              SlideAlong(b, src, m, d0.0, d0.1) || SlideAlong(b, src, m, d1.0, d1.1)
              || SlideAlong(b, src, m, d2.0, d2.1) || SlideAlong(b, src, m, d3.0, d3.1)
  {
    assert d0 in [d0, d1, d2, d3] && d1 in [d0, d1, d2, d3];
    assert d2 in [d0, d1, d2, d3] && d3 in [d0, d1, d2, d3];
    RayGeometry(b, src, d0.0, d0.1);
    RayGeometry(b, src, d1.0, d1.1);
    RayGeometry(b, src, d2.0, d2.1);
    RayGeometry(b, src, d3.0, d3.1);
    ToMoves(b, src, Ray(src, d0.0, d0.1)) + ToMoves(b, src, Ray(src, d1.0, d1.1))
      + ToMoves(b, src, Ray(src, d2.0, d2.1)) + ToMoves(b, src, Ray(src, d3.0, d3.1))
  }

  /** `bishop`: the four diagonal rays. */
  function BishopMoves(b: Board, src: Square): (r: seq<Move>)
    ensures |r| <= 28
    ensures forall m :: m in r ==> m.Move? && m.src == src && IsDiagonal(src, m.dst)
    ensures NeverOnOwn(b, r) && QuietIsReversible(b, r)
  {
    var r := Slide(b, src, (-1, -1), (-1, 1), (1, -1), (1, 1));
    DiagonalSlides(b, src, r);
    r
  }

  /** Slides along the four diagonal rays land on diagonals of `src`. */
  lemma DiagonalSlides(b: Board, src: Square, ms: seq<Move>)
    requires forall m :: m in ms ==>
               SlideAlong(b, src, m, -1, -1) || SlideAlong(b, src, m, -1, 1)
               || SlideAlong(b, src, m, 1, -1) || SlideAlong(b, src, m, 1, 1)
    ensures forall m :: m in ms ==> m.Move? && IsDiagonal(src, m.dst)
  {
    forall m | m in ms
      ensures m.Move? && IsDiagonal(src, m.dst)
    {
      if SlideAlong(b, src, m, -1, -1) { OnRayShape(src, m.dst, -1, -1); }
      else if SlideAlong(b, src, m, -1, 1) { OnRayShape(src, m.dst, -1, 1); }
      else if SlideAlong(b, src, m, 1, -1) { OnRayShape(src, m.dst, 1, -1); }
      else { OnRayShape(src, m.dst, 1, 1); }
    }
  }

  /** `rook`: the four orthogonal rays. */
  function RookMoves(b: Board, src: Square): (r: seq<Move>)
    ensures |r| <= 28
    ensures forall m :: m in r ==> m.Move? && m.src == src && IsOrthogonal(src, m.dst)
    ensures NeverOnOwn(b, r) && QuietIsReversible(b, r)
  {
    var r := Slide(b, src, (1, 0), (0, 1), (-1, 0), (0, -1));
    OrthogonalSlides(b, src, r);
    r
  }

  /** Slides along the four orthogonal rays stay on the file or rank of `src`. */
  lemma OrthogonalSlides(b: Board, src: Square, ms: seq<Move>)
    requires forall m :: m in ms ==>
               SlideAlong(b, src, m, 1, 0) || SlideAlong(b, src, m, 0, 1)
               || SlideAlong(b, src, m, -1, 0) || SlideAlong(b, src, m, 0, -1)
    ensures forall m :: m in ms ==> m.Move? && IsOrthogonal(src, m.dst)
  {
    forall m | m in ms
      ensures m.Move? && IsOrthogonal(src, m.dst)
    {
      if SlideAlong(b, src, m, 1, 0) { OnRayShape(src, m.dst, 1, 0); }
      else if SlideAlong(b, src, m, 0, 1) { OnRayShape(src, m.dst, 0, 1); }
      else if SlideAlong(b, src, m, -1, 0) { OnRayShape(src, m.dst, -1, 0); }
      else { OnRayShape(src, m.dst, 0, -1); }
    }
  }

  /** `queen`: the bishop's moves followed by the rook's. */
  function QueenMoves(b: Board, src: Square): (r: seq<Move>)
    ensures |r| <= 56
    ensures forall m :: m in r ==>
              m.Move? && m.src == src && (IsDiagonal(src, m.dst) || IsOrthogonal(src, m.dst))
    ensures NeverOnOwn(b, r) && QuietIsReversible(b, r)
  {
    BishopMoves(b, src) + RookMoves(b, src)
  }

  /**
   * A ray's moves are exactly its free prefix, followed by one capture when
   * the first occupied square holds a piece of the side not to move; nothing
   * past the first off-board or occupied square is ever emitted.
   */
  lemma {:induction false} ToMovesPrefix(b: Board, src: Square, line: seq<Option<Square>>)
    ensures var r, k := ToMoves(b, src, line), FreeRun(b, line);
            var blocked := k < |line| && line[k].Some? && HoldsOpponent(b, line[k].value);
            |r| == (if blocked then k + 1 else k)
            && (forall i :: 0 <= i < k ==> r[i] == Move(true, line[i].value, src))
            && (blocked ==> r[k] == Move(false, line[k].value, src))
    decreases |line|
  {
    if |line| > 0 && line[0].Some? && IsEmpty(b, line[0].value) {
      ToMovesPrefix(b, src, line[1..]);
      assert ToMoves(b, src, line) == [Move(true, line[0].value, src)] + ToMoves(b, src, line[1..]);
      assert FreeRun(b, line) == 1 + FreeRun(b, line[1..]);
    }
  }

  /*
   * Pawns. `pawn_info` is not part of this model: its result for the side to
   * move is a parameter whose type carries what it promises, a starting rank
   * on the board and a rank step of -1 or 1 (in `translate`'s subtracting
   * convention, so -1 moves toward higher ranks).
   */
  datatype PawnRule = PawnRule(initRank: U8, rankMultiple: I32)
  type PawnInfo = p: PawnRule | p.initRank < 8 && (p.rankMultiple == -1 || p.rankMultiple == 1)
    witness PawnRule(1, -1)

  /** The forward squares a pawn tries: two from its starting rank, one elsewhere. */
  function PawnPushTargets(src: Square, info: PawnInfo): seq<Option<Square>>
  {
    if src.rank == info.initRank then
      [Translate(src, 0, info.rankMultiple), Translate(src, 0, 2 * info.rankMultiple)]
    else
      [Translate(src, 0, info.rankMultiple)]
  }

  /** The `map_while` closure of `pawn`: a push onto an empty square, else stop. */
  function PushTo(b: Board, src: Square, t: Option<Square>): (r: Option<Move>)
    ensures r.Some? <==> t.Some? && IsEmpty(b, t.value)
    ensures r.Some? ==> r.value == Move(false, t.value, src)
  {
    match t
    case None => None
    case Some(s) => if IsEmpty(b, s) then Some(Move(false, s, src)) else None
  }

  /** The forward pushes of `pawn`. */
  function PawnPushes(b: Board, src: Square, info: PawnInfo): (r: seq<Move>)
    ensures |r| <= if src.rank == info.initRank then 2 else 1
    ensures forall i :: 0 <= i < |r| ==>
              r[i].Move? && !r[i].rev && r[i].src == src && IsEmpty(b, r[i].dst)
              && r[i].dst.file == src.file
              && r[i].dst.rank == src.rank - (if i == 0 then 1 else 2) * info.rankMultiple
    ensures |r| >= 1 <==> Free(b, Translate(src, 0, info.rankMultiple))
    ensures |r| == 2 <==>
              src.rank == info.initRank && Free(b, Translate(src, 0, info.rankMultiple))
              && Free(b, Translate(src, 0, 2 * info.rankMultiple))
  {
    var ts := PawnPushTargets(src, info);
    var r := MapWhile(ts, (t: Option<Square>) => PushTo(b, src, t));
    assert |ts| == (if src.rank == info.initRank then 2 else 1);
    assert ts[0] == Translate(src, 0, info.rankMultiple);
    assert |ts| == 2 ==> ts[1] == Translate(src, 0, 2 * info.rankMultiple);
    assert forall i :: 0 <= i < |r| ==> Free(b, ts[i]) && r[i] == Move(false, ts[i].value, src);
    r
  }

  /** The en-passant part of `pawn`: the target square shifted one file either way is `src`. */
  function PawnEnPassant(b: Board, src: Square): (r: seq<Move>)
    ensures r == [] || r == [EnPassent(src)]
    ensures r != [] <==>
              b.enPassant.Some? && b.enPassant.value.rank == src.rank
              && Abs(b.enPassant.value.file - src.file) == 1
  {
    match b.enPassant
    case None => []
    case Some(ep) =>
      if Translate(ep, 1, 0) == Some(src) then [EnPassent(src)]
      else if Translate(ep, -1, 0) == Some(src) then [EnPassent(src)]
      else []
  }

  /** The `filter_map` closure of the pawn's diagonal captures. */
  function CaptureTo(b: Board, src: Square, t: Option<Square>): (r: Option<Move>)
    ensures r.Some? <==> t.Some? && HoldsOpponent(b, t.value)
    ensures r.Some? ==> r.value == Move(false, t.value, src)
  {
    match t
    case None => None
    case Some(s) =>
      match GetPiece(b, s)
      case Some(piece) => if piece.owner != b.turn then Some(Move(false, s, src)) else None
      case None => None
  }

  const CaptureFiles: seq<I32> := [-1, 1]

  /** A pawn's diagonal: one file aside, one rank forward. */
  predicate IsPawnDiagonal(src: Square, d: Square, info: PawnInfo)
  {
    Abs(d.file - src.file) == 1 && d.rank == src.rank - info.rankMultiple
  }

  /** The diagonal captures of `pawn`: exactly the forward diagonals holding the side not to move. */
  function PawnCaptures(b: Board, src: Square, info: PawnInfo): (r: seq<Move>)
    ensures |r| <= 2
    ensures forall m :: m in r ==>
              m.Move? && !m.rev && m.src == src && IsPawnDiagonal(src, m.dst, info)
              && HoldsOpponent(b, m.dst)
    ensures forall d: Square :: IsPawnDiagonal(src, d, info) && HoldsOpponent(b, d) ==>
              Move(false, d, src) in r
  {
    var f := (dir: I32) => CaptureTo(b, src, Translate(src, dir, info.rankMultiple));
    FilterMapPair<I32, Move>(-1, 1, f);
    CapturePair(b, src, info);
    FilterMap(CaptureFiles, f)
  }

  /**
   * The captures toward the higher file (`translate(-1, _)`) and toward the
   * lower file (`translate(1, _)`), in that order.
   */
  lemma CapturePair(b: Board, src: Square, info: PawnInfo)
    ensures var r := OptionToSeq(CaptureTo(b, src, Translate(src, -1, info.rankMultiple)))
                     + OptionToSeq(CaptureTo(b, src, Translate(src, 1, info.rankMultiple)));
            (forall m :: m in r ==>
               m.Move? && !m.rev && m.src == src && IsPawnDiagonal(src, m.dst, info)
               && HoldsOpponent(b, m.dst))
            && (forall d: Square :: IsPawnDiagonal(src, d, info) && HoldsOpponent(b, d) ==>
                  Move(false, d, src) in r)
  {
    var left, right := Translate(src, -1, info.rankMultiple), Translate(src, 1, info.rankMultiple);
    var r := OptionToSeq(CaptureTo(b, src, left)) + OptionToSeq(CaptureTo(b, src, right));
    forall d: Square | IsPawnDiagonal(src, d, info) && HoldsOpponent(b, d)
      ensures Move(false, d, src) in r
    {
      if d.file == src.file + 1 {
        TranslateReaches(src, -1, info.rankMultiple, d);
      } else {
        TranslateReaches(src, 1, info.rankMultiple, d);
      }
    }
  }

  /** The moves a pawn may make: an en passant, or an irreversible push onto an empty square or capture. */
  predicate PawnShaped(b: Board, src: Square, m: Move)
  {
    (m.EnPassent? && m.src == src)
    || (m.Move? && !m.rev && m.src == src
        && (if m.dst.file == src.file then IsEmpty(b, m.dst) else HoldsOpponent(b, m.dst)))
  }

  /** What `pawn`'s three parts contribute, stated per move. */
  lemma PawnParts(b: Board, src: Square, info: PawnInfo)
    ensures forall m :: m in PawnPushes(b, src, info) ==>
              m.Move? && m.dst.file == src.file && PawnShaped(b, src, m)
    ensures forall m :: m in PawnEnPassant(b, src) ==> m == EnPassent(src)
    ensures forall m :: m in PawnCaptures(b, src, info) ==>
              m.Move? && m.dst.file != src.file && PawnShaped(b, src, m)
  {
    var pushes := PawnPushes(b, src, info);
    forall m | m in pushes
      ensures m.Move? && PawnShaped(b, src, m)
    {
      var i :| 0 <= i < |pushes| && pushes[i] == m;
    }
  }

  /** In `pawn`'s output only the en-passant part can hold an `EnPassent`, and it holds at most one. */
  lemma PawnEnPassantOnce(b: Board, src: Square, info: PawnInfo)
    ensures var pushes, ep := PawnPushes(b, src, info), PawnEnPassant(b, src);
            var r := pushes + ep + PawnCaptures(b, src, info);
            forall i :: 0 <= i < |r| && r[i].EnPassent? ==> i == |pushes| && ep != []
  {
    PawnParts(b, src, info);
  }

  /** `pawn`: forward pushes, then en passant, then diagonal captures. */
  function PawnMoves(b: Board, src: Square, info: PawnInfo): (r: seq<Move>)
    ensures FromSource(r, src) && NeverOnOwn(b, r)
    ensures forall m :: m in r ==> !m.Castle? && (m.Move? ==> !m.rev)
    ensures forall m :: m in r && m.Move? && m.dst.file == src.file ==> IsEmpty(b, m.dst)
    ensures forall m :: m in r && m.Move? && m.dst.file != src.file ==> HoldsOpponent(b, m.dst)
    ensures EnPassent(src) in r <==>
              b.enPassant.Some? && b.enPassant.value.rank == src.rank
              && Abs(b.enPassant.value.file - src.file) == 1
    ensures forall i, j :: 0 <= i < j < |r| ==> !(r[i].EnPassent? && r[j].EnPassent?)
  {
    PawnParts(b, src, info);
    PawnEnPassantOnce(b, src, info);
    PawnPushes(b, src, info) + PawnEnPassant(b, src) + PawnCaptures(b, src, info)
  }

  /*
   * King.
   */

  /** The eight neighbours `king` tries, in its order. */
  function KingTargets(src: Square): seq<Option<Square>>
  {
    [
      Translate(src, 1, 0), Translate(src, -1, 0), Translate(src, 1, 1), Translate(src, 1, -1),
      Translate(src, 0, -1), Translate(src, 0, 1), Translate(src, -1, 1), Translate(src, -1, -1)
    ]
  }

  /** Every candidate `king` builds, when on the board, is a king step. */
  lemma KingTargetsSound(src: Square)
    ensures forall t :: t in KingTargets(src) ==> t.Some? ==> IsKingStep(src, t.value)
  {
    var ts := KingTargets(src);
    forall i | 0 <= i < 8
      ensures ts[i].Some? ==> IsKingStep(src, ts[i].value)
    {
    }
  }

  /** Every king step from `src` is one of the candidates. */
  lemma KingTargetsComplete(src: Square)
    ensures forall d: Square :: IsKingStep(src, d) ==> Some(d) in KingTargets(src)
  {
    var ts := KingTargets(src);
    forall d: Square | IsKingStep(src, d)
      ensures Some(d) in ts
    {
      var df, dr := src.file - d.file, src.rank - d.rank;
      assert -1 <= df <= 1 && -1 <= dr <= 1;
      TranslateReaches(src, df, dr, d);
      var k := if dr == 0 then (if df == 1 then 0 else 1)
               else if df == 1 then (if dr == 1 then 2 else 3)
               else if df == 0 then (if dr == -1 then 4 else 5)
               else (if dr == 1 then 6 else 7);
      assert ts[k] == Translate(src, df, dr);
    }
  }

  /** The side to move's (queen side, king side) castling rights. */
  function CastlingSides(b: Board): (bool, bool)
  {
    match b.turn
    case White => (b.castlingRights.whiteQueen, b.castlingRights.whiteKing)
    case Black => (b.castlingRights.blackQueen, b.castlingRights.blackKing)
  }

  /**
   * None of the `unwrap()` calls of `king`'s castling conditions panics. Each is
   * reached only when the right is set and every earlier square was empty.
   */
  predicate CastlingUnwrapsSucceed(b: Board, src: Square)
  {
    var (queenSide, kingSide) := CastlingSides(b);
    (kingSide ==>
       Translate(src, 1, 0).Some?
       && (!IsEmpty(b, Translate(src, 1, 0).value) || Translate(src, 2, 0).Some?))
    && (queenSide ==>
          Translate(src, -1, 0).Some?
          && (!IsEmpty(b, Translate(src, -1, 0).value)
              || (Translate(src, -2, 0).Some?
                  && (!IsEmpty(b, Translate(src, -2, 0).value) || Translate(src, -3, 0).Some?))))
  }

  /** The step moves of `king`: one per neighbour on the board not holding an own piece. */
  function KingSteps(b: Board, src: Square): (r: seq<Move>)
    ensures |r| <= 8
    ensures forall m :: m in r ==> m.Move? && m.src == src && IsKingStep(src, m.dst)
    ensures NeverOnOwn(b, r) && QuietIsReversible(b, r)
  {
    KingTargetsSound(src);
    FilterMap(KingTargets(src), (t: Option<Square>) => StepTo(b, src, t))
  }

  /** `king`: the steps to the neighbours, then `Castle(true)`, then `Castle(false)`. */
  function KingMoves(b: Board, src: Square): (r: seq<Move>)
    requires CastlingUnwrapsSucceed(b, src)
    ensures |r| <= 10
    ensures forall m :: m in r ==> !m.EnPassent? && (m.Move? ==> m.src == src && IsKingStep(src, m.dst))
    ensures NeverOnOwn(b, r) && QuietIsReversible(b, r)
    ensures Castle(true) in r <==>
              CastlingSides(b).1 && Free(b, Translate(src, 1, 0)) && Free(b, Translate(src, 2, 0))
    ensures Castle(false) in r <==>
              CastlingSides(b).0 && Free(b, Translate(src, -1, 0))
              && Free(b, Translate(src, -2, 0)) && Free(b, Translate(src, -3, 0))
  {
    var steps := KingSteps(b, src);
    assert Castle(true) !in steps && Castle(false) !in steps;
    var (queenSide, kingSide) := CastlingSides(b);
    var withKingSide :=
      if kingSide
         && IsEmpty(b, Translate(src, 1, 0).value)
         && IsEmpty(b, Translate(src, 2, 0).value)
      then steps + [Castle(true)]
      else steps;
    if queenSide
       && IsEmpty(b, Translate(src, -1, 0).value)
       && IsEmpty(b, Translate(src, -2, 0).value)
       && IsEmpty(b, Translate(src, -3, 0).value)
    then withKingSide + [Castle(false)]
    else withKingSide
  }

  /*
   * Dispatch.
   */

  /** `get_move`: `None` for an empty square, else the generator of the occupant's kind. */
  function GetMove(b: Board, src: Square, pawnInfo: Player -> PawnInfo): (r: Option<seq<Move>>)
    requires GetPiece(b, src).Some? && GetPiece(b, src).value.kind.King? ==>
               CastlingUnwrapsSucceed(b, src)
    ensures r.None? <==> IsEmpty(b, src)
    ensures r.Some? ==> FromSource(r.value, src) && NeverOnOwn(b, r.value)
    ensures r.Some? ==> forall m :: m in r.value ==>
              (m.Castle? ==> GetPiece(b, src).value.kind.King?)
              && (m.EnPassent? ==> GetPiece(b, src).value.kind.Pawn?)
              && (m.Move? ==> m.dst != src)
  {
    match GetPiece(b, src)
    case None => None
    case Some(piece) =>
      match piece.kind
      case Knight => Some(KnightMoves(b, src))
      case Bishop => Some(BishopMoves(b, src))
      case Rook => Some(RookMoves(b, src))
      case Queen => Some(QueenMoves(b, src))
      case Pawn => Some(PawnMoves(b, src, pawnInfo(b.turn)))
      case King => Some(KingMoves(b, src))
  }
}
