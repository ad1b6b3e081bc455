# rhchess move generator in Dafny

A model of the pseudo-legal move generator of the `rhchess_engine` crate and
the position model it reads. Given an immutable board snapshot and a square,
the generator lists the candidate moves of the piece on that square: knight
jumps, sliding rays for bishop, rook and queen, pawn pushes, captures and en
passant, and king steps with castling. Nothing checks whether a move leaves
the mover's king in check.

Modules: `Position` and `MoveGen` follow the two source files, `Options` and
`Iter` support them, `MoveGenLemmas` holds the all-inputs characterisations of
the generators, and `Scenarios` holds worked positions:

- `Options` — the `Option` type and `and_then`.
- `Iter` — the iterator adapters `filter_map` and `map_while` on sequences.
- `Position` (`board.rs`) — `PieceKind`, `Player`, `Piece`, `Square` with
  `Square::new`, `Square::translate` and its `Display` label, `Board` and
  `Board::get_piece`.
- `MoveGen` (`moves.rs`) — `Move`, one generator per piece kind and the
  dispatcher `get_move`.
- `MoveGenLemmas` — both-direction characterisations of the knight, king,
  bishop, rook and queen generators.
- `Scenarios` — concrete positions worked through the generators, as proved lemmas.

Modelling choices:

- `Square` is a subset type: its rank and file are below 8 by type, the
  invariant that `Square::new` and `Square::translate` establish.
- `translate` subtracts its offset, `(file - df, rank - dr)`, as the code does.
  The `i32` subtraction is modelled with two's-complement wrap-around followed
  by the `u8` conversion. Its contract proves that this equals plain integer
  subtraction followed by a bounds check.
- `castling_rights` is a 4-tuple in `board.rs` but is read by field name in
  `moves.rs`. It is the record `CastlingRights(whiteQueen, whiteKing,
  blackQueen, blackKing)`, in the tuple's order. The en-passant field, spelled
  `en_passent` in one file and `en_passant` in the other, is `enPassant`. Squares
  compare structurally.
- The Rust variant `Move::Move(rev, dst, src)` is the constructor `Move`. The
  variant `EnPassent` keeps its spelling.
- The generators are named `KnightMoves`, `BishopMoves`, `RookMoves`,
  `QueenMoves`, `PawnMoves` and `KingMoves`, after `knight` … `king`.
- `Player::pawn_info` has no body in this model. `PawnMoves` receives its
  result, and `GetMove` receives it as a function `Player -> PawnInfo`. The
  type `PawnInfo` carries its promise: a starting rank below 8 and a rank step
  of -1 or 1.
- The `unwrap()` calls in `king`'s castling conditions would panic off the board.
  They become the precondition `CastlingUnwrapsSucceed`. It follows the
  short-circuit order exactly: a square is examined only when the castling right is
  set and every earlier square was empty.

Where the code differs from standard chess rules, the model follows the code:

- Because `translate` subtracts, `Castle(true)` examines the squares at file - 1
  and file - 2 (`moves.rs:189-194`). For a king on e1 these are d1 and c1, the
  queen side, whereas king-side castling normally crosses f1 and g1.
  `Castle(false)` examines file + 1 to file + 3, which are f1, g1 and h1.
  `Scenarios.CastlingBlockedByRookOnH1` shows the consequence: a rook on h1
  rules out `Castle(false)`.

Two further notes about the code:

- En passant compares `src` with the en-passant target square shifted one
  file. A pawn therefore qualifies only when it stands on the target's own rank.
- Every generator decides between capture and own piece by comparing with
  `board.turn`, not with the owner of the piece on `src`.

## Model

| member | source | states |
|---|---|---|
| Iter.FilterMap | rhchess_engine/src/moves.rs:38-52 | the output of `filter_map` is no longer than its input, and a value is in the output exactly when some input maps to `Some` of it |
| Iter.FilterMapOne | rhchess_engine/src/moves.rs:38-52 | over a single input, `filter_map` yields exactly that input's `Some` value, or nothing on `None` |
| Iter.FilterMapAppend | rhchess_engine/src/moves.rs:38-52 | `filter_map` over a concatenation is the concatenation of the two outputs, so results keep input order and each input contributes only its own result |
| Iter.FilterMapPair | rhchess_engine/src/moves.rs:124-139 | `filter_map` over a two-element array keeps the first result, then the second, each when it is `Some` |
| Iter.MapWhile | rhchess_engine/src/moves.rs:110-123 | `map_while` output is the longest prefix whose inputs all map to `Some`, in order; the input after it maps to `None` |
| Position.NewSquare | rhchess_engine/src/board.rs:33-39 | `Square::new(f, r)` is `Some` exactly when `f < 8` and `r < 8`, and then it holds exactly those coordinates |
| Position.NewSquareOfSquare | rhchess_engine/src/board.rs:33-39 | every square is accepted back by `Square::new` from its own coordinates |
| Position.Translate | rhchess_engine/src/board.rs:40-51 | `translate(df, dr)` is `Some` exactly when `0 <= file - df < 8` and `0 <= rank - dr < 8`, and then it is `(file - df, rank - dr)`; negative results fail through the `u8` conversion and `i32` wrap-around never lets one through |
| Position.TranslateZero | rhchess_engine/src/board.rs:40-51 | `translate(0, 0)` is the identity |
| Position.TranslateInverse | rhchess_engine/src/board.rs:40-51 | if `translate(a, b)` yields `t`, then `t.translate(-a, -b)` yields the original square |
| Position.Show | rhchess_engine/src/board.rs:54-58 | the label has two characters: the file letter `a`..`h` for the file and the digit `rank + 1` in `1`..`8` |
| Position.ShowParse | rhchess_engine/src/board.rs:54-58 | reading a label back gives the square it shows, and a label that reads back as a square is that square's label |
| Position.ShowInjective | rhchess_engine/src/board.rs:54-58 | distinct squares have distinct labels |
| Position.Index | rhchess_engine/src/board.rs:100-102 | the slot `rank * 8 + file` of every square lies in `[0, 64)` |
| Position.IndexBijective | rhchess_engine/src/board.rs:100-102 | the slot index is injective over squares and every slot is the index of one square |
| Position.GetPieceSlot | rhchess_engine/src/board.rs:100-102 | `get_piece` reads, for each of the 64 slots, exactly the square that slot stands for |
| MoveGen.StepTo | rhchess_engine/src/moves.rs:39-51 | the knight and king rule: a target yields a move exactly when it is on the board and holds no piece of the side to move; the move is reversible exactly when the target is empty |
| MoveGen.KnightTargetsRight | rhchess_engine/src/moves.rs:17-26 | the first four candidates are the squares one or two files higher and two or one ranks off, `None` when `checked_sub` underflows or the square is off the board |
| MoveGen.KnightTargetsLeft | rhchess_engine/src/moves.rs:27-36 | the last four candidates are the squares one or two files lower and two or one ranks off, `None` when a `checked_sub` underflows or the square is off the board |
| MoveGen.KnightTargetsSound | rhchess_engine/src/moves.rs:16-37 | each of the eight candidate squares, when on the board, is a knight jump from `src` |
| MoveGen.KnightTargetsComplete | rhchess_engine/src/moves.rs:16-37 | every knight jump from `src` that lands on the board is one of the eight candidates |
| MoveGen.KnightMoves | rhchess_engine/src/moves.rs:15-53 | at most 8 moves, all `Move(_, dst, src)` with `dst` a knight jump from `src`, never onto a piece of the side to move, reversible exactly when `dst` is empty |
| MoveGenLemmas.KnightExact | rhchess_engine/src/moves.rs:15-53 | a move is in the knight's list exactly when it jumps from the queried square to a square without a piece of the side to move, with `rev` equal to emptiness |
| MoveGen.Ray | rhchess_engine/src/moves.rs:76-89 | the iterator `(1..8).map(\|x\| src.translate(df * x, dr * x))` has seven entries, one per `x`; `RayEntry` and `RayAt` place them on the board |
| MoveGen.FreeRun | rhchess_engine/src/moves.rs:57-70 | the length of the ray's leading run of on-board empty squares; the entry after the run is off the board or occupied |
| MoveGen.ToMoves | rhchess_engine/src/moves.rs:55-72 | `to_moves` emits, in ray order, moves from `src` onto the ray's squares, never onto an own piece, reversible exactly on empty squares, with only the last one possibly a capture |
| MoveGen.ToMovesPrefix | rhchess_engine/src/moves.rs:55-72 | `to_moves` is exactly the free prefix of the ray as reversible moves, followed by one capture exactly when the first occupied square holds the side not to move; nothing beyond the first off-board or occupied square |
| MoveGen.RayGeometry | rhchess_engine/src/moves.rs:76-89 | every move `to_moves` emits along the ray `(1..8).map(x -> translate(df*x, dr*x))` comes from `src`, lands 1 to 7 steps away along `(-df, -dr)`, not on an own piece, and is reversible exactly when its destination is empty |
| MoveGen.OnRayShape | rhchess_engine/src/moves.rs:76-89 | a square on one of the bishop's rays lies on a diagonal of `src`; one on a rook ray shares its file or rank |
| MoveGen.Slide | rhchess_engine/src/moves.rs:74-92 | four rays concatenated give at most 28 moves, each a slide along one of the four rays |
| MoveGen.RayEntry | rhchess_engine/src/moves.rs:76 | the `i`-th entry of a ray, when on the board, lies `i + 1` steps from `src` along `(-df, -dr)` |
| MoveGen.DiagonalSlides | rhchess_engine/src/moves.rs:74-82 | a slide along any of the four bishop rays ends on a diagonal of `src` |
| MoveGen.OrthogonalSlides | rhchess_engine/src/moves.rs:84-92 | a slide along any of the four rook rays ends on the file or rank of `src` |
| MoveGen.BishopMoves | rhchess_engine/src/moves.rs:74-82 | at most 28 moves, every one from `src` to a different square on one of its diagonals, never onto an own piece, reversible exactly when the destination is empty |
| MoveGen.RookMoves | rhchess_engine/src/moves.rs:84-92 | at most 28 moves, every one from `src` to a different square on its file or rank, never onto an own piece, reversible exactly when the destination is empty |
| MoveGen.QueenMoves | rhchess_engine/src/moves.rs:94-98 | at most 56 moves, every one from `src` along a diagonal, file or rank, never onto an own piece, reversible exactly when the destination is empty |
| MoveGenLemmas.RayAt | rhchess_engine/src/moves.rs:76 | a square `k` steps along a ray is the ray's entry `k - 1` |
| MoveGenLemmas.RayDirection | rhchess_engine/src/moves.rs:76 | the offset pointing from `src` at a square on a ray is that ray's own offset |
| MoveGenLemmas.AlignedOnRay | rhchess_engine/src/moves.rs:74-92 | every square on a diagonal, file or rank of `src` lies on the unit ray pointing at it, a diagonal one for a diagonal and an orthogonal one otherwise |
| MoveGenLemmas.RayClearUpTo | rhchess_engine/src/moves.rs:55-72 | when every square strictly between `src` and a square on the ray is empty, the free run of the ray reaches up to that square |
| MoveGenLemmas.ReachedOverFree | rhchess_engine/src/moves.rs:55-72 | an entry reached over free squares is emitted by `to_moves` unless it holds an own piece: as a reversible move when empty, as a capture otherwise |
| MoveGenLemmas.RayComplete | rhchess_engine/src/moves.rs:55-92 | along a ray, every square reached over empty squares and without an own piece is emitted, reversible exactly when empty |
| MoveGenLemmas.RayClear | rhchess_engine/src/moves.rs:55-92 | every square emitted along a ray is reached over empty squares only |
| MoveGenLemmas.BishopExact | rhchess_engine/src/moves.rs:74-82 | a move is in the bishop's list exactly when it goes from `src` along a diagonal over empty squares to a square without an own piece, with `rev` equal to emptiness |
| MoveGenLemmas.RookExact | rhchess_engine/src/moves.rs:84-92 | a move is in the rook's list exactly when it goes from `src` along its file or rank over empty squares to a square without an own piece, with `rev` equal to emptiness |
| MoveGenLemmas.QueenExact | rhchess_engine/src/moves.rs:94-98 | a move is in the queen's list exactly when it goes from `src` along a diagonal, file or rank over empty squares to a square without an own piece, with `rev` equal to emptiness |
| MoveGenLemmas.FileBetween | rhchess_engine/src/moves.rs:84-92 | a square of the same file at a rank strictly between two others lies between them on the rook's line |
| MoveGenLemmas.RookBlocked | rhchess_engine/src/moves.rs:55-92 | a rook never lands beyond an occupied square that lies between it and the destination |
| MoveGen.PushTo | rhchess_engine/src/moves.rs:102-109 | the push closure yields a move exactly when the square is on the board and empty, and then it is the irreversible `Move(false, s, src)` |
| MoveGen.PawnPushes | rhchess_engine/src/moves.rs:100-123 | forward pushes are irreversible moves from `src` onto empty squares of its file, one and two ranks ahead; at most 2 from the starting rank and 1 elsewhere; none unless the first forward square is on the board and empty; two exactly when on the starting rank with both forward squares empty |
| MoveGen.PawnEnPassant | rhchess_engine/src/moves.rs:140-146 | `EnPassent(src)` is emitted, once, exactly when an en-passant target exists on `src`'s rank one file away |
| MoveGen.PawnCaptures | rhchess_engine/src/moves.rs:124-139 | at most 2 irreversible diagonal moves, each onto the forward diagonal one file aside holding a piece of the side not to move, and every such diagonal is captured |
| MoveGen.CaptureTo | rhchess_engine/src/moves.rs:126-138 | the capture closure yields a move exactly when the square is on the board and holds a piece of the side not to move, and then it is the irreversible `Move(false, s, src)` |
| MoveGen.CapturePair | rhchess_engine/src/moves.rs:124-139 | the captures toward the two files aside are exactly the forward diagonals that hold a piece of the side not to move |
| MoveGen.PawnParts | rhchess_engine/src/moves.rs:102-146 | pushes keep `src`'s file and land on empty squares, captures change file and land on the side not to move, and the en-passant part holds only `EnPassent(src)` |
| MoveGen.PawnEnPassantOnce | rhchess_engine/src/moves.rs:140-148 | in the pushes, en passant, captures concatenation an `EnPassent` can only sit right after the pushes, so there is at most one |
| MoveGen.PawnMoves | rhchess_engine/src/moves.rs:100-149 | all pawn moves come from `src` and are irreversible, none is a castle or lands on an own piece; same-file moves land on empty squares, other-file moves on pieces of the side not to move; `EnPassent(src)` occurs at most once and exactly under the en-passant condition |
| MoveGen.KingTargetsSound | rhchess_engine/src/moves.rs:152-161 | each of the eight translated candidates is a neighbour of `src` |
| MoveGen.KingTargetsComplete | rhchess_engine/src/moves.rs:152-161 | every neighbour of `src` on the board is one of the candidates |
| Position.TranslateReaches | rhchess_engine/src/board.rs:40-51 | `translate` reaches every on-board square at the subtracted offset |
| MoveGen.KingSteps | rhchess_engine/src/moves.rs:162-178 | at most 8 step moves, each from `src` to a neighbour, never onto an own piece, reversible exactly when the destination is empty |
| MoveGenLemmas.KingStepsExact | rhchess_engine/src/moves.rs:152-178 | a move is a king step exactly when it goes from the queried square to a neighbour without a piece of the side to move, with `rev` equal to emptiness |
| MoveGen.KingMoves | rhchess_engine/src/moves.rs:151-203 | at most 10 moves and no en passant; `Castle(true)` appears exactly when the side to move has its king-side right and `translate(1, 0)` and `translate(2, 0)` are empty; `Castle(false)` exactly when it has its queen-side right and `translate(-1..-3, 0)` are empty |
| MoveGenLemmas.KingStepsInKing | rhchess_engine/src/moves.rs:162-202 | the ordinary moves of `king` are exactly its step moves; castling adds only `Castle` entries |
| MoveGen.GetMove | rhchess_engine/src/moves.rs:205-214 | `None` exactly when the source square is empty; otherwise every `Move`/`EnPassent` names the queried square as source, no move lands on an own piece or on its own source, `Castle` only comes from a king and `EnPassent` only from a pawn |
| Scenarios.RookUpRay | rhchess_engine/src/moves.rs:55-72 | on any board with white to move, d5 and d6 empty and a black pawn on d7, `to_moves` from d4 toward the 8th rank yields exactly d5, d6 and the capture on d7 |
| Scenarios.RookReachesD7 | rhchess_engine/src/moves.rs:84-92 | on any board with white to move, d5 and d6 empty and a black pawn on d7, the rook on d4 moves to d5 and d6 and captures on d7 |
| Scenarios.RookMissesD8 | rhchess_engine/src/moves.rs:55-92 | on any such board, whatever else it holds, no rook move from d4 lands on d8 beyond the pawn |
| Scenarios.RookPosition | rhchess_engine/src/moves.rs:84-92 | a concrete board, white to move, holds a white rook on d4 and meets that condition |
| Scenarios.RookPositionDispatch | rhchess_engine/src/moves.rs:205-214 | on that board `get_move` from d4 dispatches to the rook generator |
| Scenarios.CastlingOnEmptyRank | rhchess_engine/src/moves.rs:179-201 | a lone king on e1 with both rights gets both castling moves |
| Scenarios.CastlingBlockedByRookOnH1 | rhchess_engine/src/moves.rs:189-201 | with rooks on a1 and h1, `Castle(true)` is emitted and `Castle(false)` is not, because h1 is one of the squares it examines |
| Scenarios.BlackDoublePush | rhchess_engine/src/moves.rs:100-123 | with black's starting rank 6 and step +1, a black pawn on e7 pushes to e6 and e5 |

## Left out

- `Board::new`, FEN parsing and the `Error` wrapper: `crate::fen` is not part of this model. A board is any value of the `Board` type.
- `Debug` implementations: formatting glue.
- `Player::pawn_info`: its body is not part of this model. Its result is a parameter, as described above.
- `reversible_moves` and `full_moves` are carried as `u16` fields. No generator reads them.
- Legality, check detection, promotion and move application: the code does not do them.
- Squares with out-of-range fields: `Square`'s fields are public in Rust, so such a square can be written as a literal. On one, the `u8` arithmetic `rank * 8 + file` of `get_piece` (`board.rs:101`) can overflow: a rank of 32 or more overflows the product, and a sum past 255 (rank 1, file 250, say) overflows the addition. A debug build panics; a release build wraps, and the wrapped index can read another square's slot (258 wraps to slot 2, c1). Without overflow, `Square { rank: 0, file: 8 }` reads a2's slot, and an index past 63 is out of bounds. `Display` (`board.rs:57`) indexes out of its letter table for a file of 8 or more, prints labels of three or four characters for ranks 9 to 254, and overflows `rank + 1` at rank 255. The model keeps the documented invariant as the type.
- Position.Translate: models `i32` overflow in the subtraction as wrap-around, as in a release build. A debug build panics instead. Overflow needs an offset of at most `file - 2^31` (or `rank - 2^31`), and no caller comes near that.
- MoveGen.QueenMoves: its contract states the geometry of the queen's moves. The order, bishop moves before rook moves, holds by definition and is not restated.
- MoveGen.GetMove: its contract states what the dispatched lists share (source square, no own-piece landing, which kinds may castle or take en passant) but does not restate which generator each kind calls; that is its definition.
