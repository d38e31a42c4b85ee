# chess-system-java: the board, the queen, the king and the match, in Dafny

This project models the core of a console chess program written in Java: the board
(`boardgame.Board`), the move generators of the queen and the king
(`chess.pieces.Queen`, `chess.pieces.King`), and the match (`chess.ChessMatch`). The
match makes and undoes moves, validates them, tests check and checkmate, promotes pawns
and sets up the initial position.

The model has two layers.

- **Rules as values** (module `MatchRules`). A `MatchState` holds everything a match
  holds: the 8×8 grid, each piece's position and move count (as tables keyed by piece),
  `piecesOnTheBoard`, `capturedPieces`, the turn, the current player, the check and
  checkmate flags, the en-passant candidate and the promoted piece. Every modelled
  method of `ChessMatch` is a function from a state to a `Result`. A Java runtime
  fault (`NullPointerException`, `ArrayIndexOutOfBoundsException`, `BoardException`) is a
  `Failure`. A `ChessException` thrown by `performChessMove` is part of the `Played`
  outcome, together with the state the match is left in.
- **The heap** (modules `Boardgame`, `QueenPiece`, `KingPiece`, `ChessGame`).
  - `Board` keeps its squares in an `array2`. `Piece` objects carry their own position
    and move count.
  - The queen's and king's `possibleMoves` fill a fresh `array2<bool>` with loops and
    guarded assignments.
  - `ChessMatch` is a class with the Java fields. Each of its methods is proved to leave
    the match in the state the corresponding `MatchRules` function computes, and to
    report the same result.

The model follows the code as written, including where it departs from the rules of
chess:

- The queen's "left" and "right" rays start one row up and walk along that row, so the
  queen never reaches a square on its own row (`QueenTargetsShape`).
- Both castling blocks of `makeMove` and `undoMove` test `target == source + 2`. A
  kingside castling therefore also moves the queenside rook, and it faults when that rook
  is missing (`CastlingWithoutQueensideRook`). A king's two-step to the left moves the
  king alone.
- The king's queenside castling test re-checks the kingside rook square (c+3)
  (`QueensideRuleAsWritten`).
- The en-passant capture in `makeMove` sits inside the queenside castling block, whose
  moving piece is a king, so it is unreachable. `undoMove` still has its own en-passant
  branch. That branch faults on a pawn's sideways step that captured nothing
  (`PawnSideStepUndoFaults`).
- `undoMove` increases the kingside rook's move count instead of decreasing it, so
  castling then undoing leaves that rook with two more moves (`CastlingUndoneCounts`).
- The inner loop of `testCheckMate` tests `i` rather than `j` against the column count.
  It scans row 0 of the first piece's matrix, and it scans the pieces of the opponent of
  the colour in check. It therefore finds an escape or faults at column 8, and reports
  checkmate only when that opponent has no pieces (`ScanRunsOff`,
  `MateOnlyWithoutPieces`).

The central properties are:

- making then undoing an ordinary move restores the match (`MakeUndoRoundTrip`);
- every step keeps the board, the position table and the rosters consistent
  (`WellFormed`, module `MatchInvariant`);
- the queen's squares follow the first-blocker rule (`QueenWalk`);
- the king's squares are exactly its enterable neighbours plus the castling squares the
  code grants (`KingStepRule`, `KingsideRule`, `QueensideRuleAsWritten`);
- validation order and error messages, self-check roll-back, promotion, and the initial
  position.

## Model

| member | source | states |
|---|---|---|
| Boardgame.Board.constructor | src/boardgame/Board.java:14-16 | a new board has the given rows and columns and every square empty |
| Boardgame.Board.Create | src/boardgame/Board.java:10-17 | creation fails with "Error create board! " exactly when rows < 1 or columns < 1; otherwise the new board is empty |
| Boardgame.Board.PositionExistsInBounds | src/boardgame/Board.java:57-62 | positionExists holds exactly for squares inside the board |
| Boardgame.Board.PieceAt | src/boardgame/Board.java:25-36 | piece(position) succeeds exactly inside the board and returns that square's occupant; outside it fails with "Position not found" |
| Boardgame.Board.ThereIsAPiece | src/boardgame/Board.java:63-68 | fails with "Position not found" outside the board; inside, true exactly when the square is occupied |
| Boardgame.Board.PlacePiece | src/boardgame/Board.java:37-43 | outside the board: "Position not found"; occupied: "There is already a on position"; a null piece: a null-pointer fault; otherwise the square holds the piece and the piece records the position; nothing else changes |
| Boardgame.Board.RemovePiece | src/boardgame/Board.java:44-55 | fails exactly outside the board; otherwise returns the occupant (or null), empties the square and clears the occupant's position, leaving its move count |
| Boardgame.IsThereOpponentPiece | src/chess/pieces/Queen.java:25-27 | succeeds exactly inside the board; true exactly when the square holds a piece of the other colour |
| QueenPiece.Ray | src/chess/pieces/Queen.java:21-27 | defines one ray: the empty squares from its start up to the first blocker, plus that blocker when it is an opponent's |
| QueenPiece.QueenTargets | src/chess/pieces/Queen.java:17-92 | defines the queen's targets as the union of the eight rays from the code's eight start squares |
| QueenPiece.MarkRay | src/chess/pieces/Queen.java:20-27 | one ray's loop: every cell ends as its old value or'ed with membership of the ray (empty squares up to the first blocker, plus that blocker if it is an opponent's) |
| QueenPiece.QueenPossibleMoves | src/chess/pieces/Queen.java:17-92 | with no position it faults; otherwise a fresh board-sized matrix whose true cells are exactly QueenTargets |
| QueenPiece.RayEnterable | src/chess/pieces/Queen.java:21-27 | every square a ray marks is empty or holds an opponent's piece |
| QueenPiece.RayOnLine | src/chess/pieces/Queen.java:21-24 | every square a ray marks lies on the ray's line |
| QueenPiece.RayClosedForm | src/chess/pieces/Queen.java:21-27 | the k-th square of a ray is marked iff the squares before it are empty and on the board and it is enterable |
| QueenPiece.InSomeRay | src/chess/pieces/Queen.java:17-92 | every queen target lies in one of the eight rays as written |
| QueenPiece.FromSomeRay | src/chess/pieces/Queen.java:17-92 | every square of one of the eight rays is a queen target |
| QueenPiece.OnlyOwnWalk | src/chess/pieces/Queen.java:17-92 | a target on a direction's line is marked by that direction's own ray |
| QueenPiece.QueenWalk | src/chess/pieces/Queen.java:17-92 | the k-th square from a ray's base is a target iff every square between is empty and it is enterable (the first-blocker rule) |
| QueenPiece.QueenStopsAtBlocker | src/chess/pieces/Queen.java:21-24 | no square beyond an occupied square on a direction's line is a target |
| QueenPiece.QueenTargetsShape | src/chess/pieces/Queen.java:28-45 | every target is enterable and lies off the queen's own row, since left and right walk the row above |
| KingPiece.CanMove | src/chess/pieces/King.java:20-23 | canMove: the square is empty or holds a piece of the other colour; the lookup fails exactly off the board |
| KingPiece.RookReady | src/chess/pieces/King.java:24-27 | testRookCastling: the square holds a rook of the king's colour with no moves; the lookup fails exactly off the board |
| KingPiece.KingsideCastle | src/chess/pieces/King.java:76-83 | defines the kingside block: c+2 when c+3 holds a ready rook and c+1, c+2 are empty, with the lookup faults |
| KingPiece.QueensideCastle | src/chess/pieces/King.java:85-93 | defines the queenside block as written: c-2 when c+3 holds a ready rook and c-1, c-2, c-3 are empty, with the lookup faults |
| KingPiece.CastleTargets | src/chess/pieces/King.java:74-94 | defines the castling squares: c+2 when the kingside block allows, c-2 when the queenside block allows, or the first fault |
| KingPiece.KingTargets | src/chess/pieces/King.java:29-97 | defines the king's targets: the enterable neighbours, plus the castling squares for a king with no moves while the check flag is off |
| KingPiece.StepsMarked | src/chess/pieces/King.java:33-71 | the eight guarded assignments mark exactly the enterable neighbours on the board |
| KingPiece.MarkStep | src/chess/pieces/King.java:33-36 | one guarded assignment adds its square to the marked set, and only when enterable |
| KingPiece.MarkSteps | src/chess/pieces/King.java:31-71 | after the eight guarded assignments the matrix marks, among all eight neighbours, exactly those on the board and enterable |
| KingPiece.TestRookCastling | src/chess/pieces/King.java:24-27 | the heap test agrees with RookReady, reading the rook's move count from the piece |
| KingPiece.MarkKingside | src/chess/pieces/King.java:76-83 | fails as KingsideCastle fails; otherwise marks c+2 exactly when kingside castling is allowed |
| KingPiece.MarkQueenside | src/chess/pieces/King.java:85-93 | fails as QueensideCastle fails; otherwise marks c-2 exactly when the (c+3-testing) queenside rule allows |
| KingPiece.MarkCastling | src/chess/pieces/King.java:74-94 | the two castling blocks together mark exactly CastleTargets |
| KingPiece.KingPossibleMoves | src/chess/pieces/King.java:29-97 | no position: null-pointer fault; otherwise fails exactly when KingTargets does, else a fresh matrix marking exactly KingTargets |
| KingPiece.KingStepRule | src/chess/pieces/King.java:33-71 | a neighbour is a target iff it is enterable |
| KingPiece.KingGateClosed | src/chess/pieces/King.java:74 | a king that has moved, or is in check, gets neighbours only |
| KingPiece.KingsideRule | src/chess/pieces/King.java:76-83 | c+2 is a target iff c+3 holds an unmoved own rook and c+1, c+2 are empty |
| KingPiece.QueensideRuleAsWritten | src/chess/pieces/King.java:85-93 | c-2 is a target iff c+3 (not c-4) holds an unmoved own rook and c-1, c-2, c-3 are empty |
| KingPiece.KingTargetsEnterable | src/chess/pieces/King.java:29-97 | every target is enterable, and a castling target is empty |
| KingPiece.KingTargetsFailure | src/chess/pieces/King.java:76-93 | the castling blocks fault when c+3 is off the board, or when the kingside rook is ready and c-1 is off the board; with c-3 and c+3 on the board they succeed |
| MatchRules.Opponent | src/chess/ChessMatch.java:213-215 | the opponent is the other colour |
| MatchRules.NextTurn | src/chess/ChessMatch.java:205-208 | the turn goes up by one and the player changes; nothing else changes |
| MatchRules.RemoveFirst | src/chess/ChessMatch.java:109-112 | List.remove takes out one occurrence (multiset minus one); an absent piece leaves the list alone |
| MatchRules.RemoveFirstSplits | src/chess/ChessMatch.java:91 | List.remove(Object) takes out exactly the first occurrence and keeps the rest in order: with k the first index of x, the result is xs[..k] + xs[k+1..] |
| MatchRules.OfColor | src/chess/ChessMatch.java:217 | the filter keeps exactly the pieces of that colour, from the list |
| MatchRules.KingOf | src/chess/ChessMatch.java:216-224 | a result is a king of that colour from the list; it fails with "There is no color …king on the board" iff there is none |
| MatchRules.RemoveAt | src/boardgame/Board.java:44-55 | removePiece on the match state: fails exactly outside the board, returns the occupant and empties its square and position |
| MatchRules.PlaceAt | src/boardgame/Board.java:37-43 | placePiece on the match state: succeeds iff the square is on the board and empty and the piece is not null; the error cases in order |
| MatchRules.ShiftPiece | src/chess/ChessMatch.java:105-112 | succeeds iff the source is on the board and occupied and the target on the board; the piece moves, its count goes up, and a captured piece leaves piecesOnTheBoard for capturedPieces |
| MatchRules.Settle | src/chess/ChessMatch.java:107-112 | landing a lifted piece: succeeds iff the target is on the board; the target's occupant is captured |
| MatchRules.MoveRook | src/chess/ChessMatch.java:116-120 | a castling rook step succeeds iff the rook's square is occupied and its destination free, and moves it and changes its count |
| MatchRules.MakeMove | src/chess/ChessMatch.java:104-146 | makeMove changes only the board, positions, counts and the two lists |
| MatchRules.Restore | src/chess/ChessMatch.java:151-155 | returning a captured piece succeeds iff its square is on the board and free, and moves it from capturedPieces back to piecesOnTheBoard |
| MatchRules.ReturnPiece | src/chess/ChessMatch.java:148-150 | moving the piece back succeeds iff the target holds a piece and the source is free; its count goes down by one |
| MatchRules.UndoEnPassant | src/chess/ChessMatch.java:173-187 | the en-passant branch of undoMove: the piece on the target goes to row 3 or 4 and is then removed and captured |
| MatchRules.UndoMove | src/chess/ChessMatch.java:147-188 | undoMove changes only the board, positions, counts and the two lists |
| MatchRules.RuleTargets | src/chess/ChessMatch.java:229 | defines the squares the MoveRule parameter marks for a piece other than a queen or a king |
| MatchRules.MovesOf | src/chess/ChessMatch.java:44 | defines possibleMoves of a piece on the board, with the queen's and king's faults |
| MatchRules.PossibleMoves | src/chess/ChessMatch.java:41-45 | defines ChessMatch.possibleMoves: source validation, then the piece's moves |
| MatchRules.Attacked | src/chess/ChessMatch.java:228-234 | defines the testCheck loop: whether some listed piece's moves include the king's square, faulting as possibleMoves faults or at a king square off the matrix |
| MatchRules.TestCheck | src/chess/ChessMatch.java:225-235 | defines testCheck: find the king, then scan the opponent's pieces |
| MatchRules.CastleRooks | src/chess/ChessMatch.java:114-128 | defines the two castling blocks of makeMove: c+3 to c+1, then c-4 to c-1, each rook counting one more move |
| MatchRules.UncastleRooks | src/chess/ChessMatch.java:156-171 | defines the two uncastling blocks of undoMove: c+1 to c+3 with one more move, c-1 to c-4 with one fewer |
| MatchRules.ValidateSource | src/chess/ChessMatch.java:189-199 | passing validation means an own piece stands there with at least one move |
| MatchRules.ValidateTarget | src/chess/ChessMatch.java:200-204 | passing validation means the target is among the source piece's moves |
| MatchRules.TryMove | src/chess/ChessMatch.java:248-250 | a trial make-test-undo changes only the board, positions, counts and the two lists |
| MatchRules.EscapeScan | src/chess/ChessMatch.java:243-256 | the scan, if it ends without a fault, reports "not checkmate"; it changes no flag |
| MatchRules.TestCheckMate | src/chess/ChessMatch.java:236-259 | testCheckMate changes only the board, positions, counts and the two lists |
| MatchRules.PromotionKind | src/chess/ChessMatch.java:97-102 | the kind newPiece creates for a valid type is never a pawn or a king |
| MatchRules.NewPieceOf | src/chess/ChessMatch.java:92-101 | defines the piece newPiece(type, colour) creates: of the kind the type names, in that colour |
| MatchRules.ReplacePromotedPiece | src/chess/ChessMatch.java:82-96 | a replacement succeeds only with a piece of the kind the type names in the promoted piece's colour, returns that piece, and changes neither the captured list nor any flag |
| MatchRules.ReplaceClosedForm | src/chess/ChessMatch.java:89-95 | once the checks pass, the promoted piece's square holds the new piece, which has no moves and is appended to piecesOnTheBoard, and the old occupant leaves the board |
| MatchRules.Promotes | src/chess/ChessMatch.java:61-62 | defines the promotion test: a white pawn on row 0 or a black pawn on row 7 |
| MatchRules.PromoteQueen | src/chess/ChessMatch.java:63-64 | defines the promotion step: replace the promoted pawn by a queen and make the queen the promoted piece |
| MatchRules.Promotion | src/chess/ChessMatch.java:59-66 | defines the promotion block: clear promoted, then promote a pawn that reached the far row |
| MatchRules.EnPassantAfter | src/chess/ChessMatch.java:75-79 | defines the en-passant candidate: the moved piece when it is a pawn that moved two rows, else null |
| MatchRules.Conclude | src/chess/ChessMatch.java:67-79 | defines the end of a move: the check flag, checkmate or the next turn, then the en-passant candidate |
| MatchRules.Commit | src/chess/ChessMatch.java:57-80 | defines a move that stands: promotion, then the end of the move, returning the captured piece |
| MatchRules.Judge | src/chess/ChessMatch.java:52-56 | defines the self-check test: undo and "You can't put yourself in check", or commit |
| MatchRules.Attempt | src/chess/ChessMatch.java:52-80 | defines a validated move: makeMove, then the self-check test |
| MatchRules.PerformChessMove | src/chess/ChessMatch.java:47-81 | defines performChessMove: the two validations, then the attempt |
| MatchRules.ToPosition | src/chess/ChessMatch.java:210 | defines the square of a chess coordinate: rank 8 is row 0, column 'a' is column 0 |
| MatchRules.NewMatch | src/chess/ChessMatch.java:26-29 | defines a new match before setup: an empty 8 by 8 board, turn 1, white to play |
| MatchRules.PlaceNewPiece | src/chess/ChessMatch.java:209-212 | defines placeNewPiece: the piece is placed on its square and appended to piecesOnTheBoard |
| MatchRules.Setup | src/chess/ChessMatch.java:260-284 | defines the state after the first placements of initialSetup, following the constant Layout of 22 placements (kind, colour, square) |
| MatchRules.Created | src/chess/ChessMatch.java:261-283 | defines the pieces initialSetup creates: each of the kind and colour its placement names |
| MatchInvariant.LiftCoherent | src/boardgame/Board.java:44-55 | removing a piece keeps board and position table in agreement |
| MatchInvariant.LandCoherent | src/boardgame/Board.java:37-43 | placing a piece keeps board and position table in agreement |
| MatchInvariant.ShiftCoherent | src/chess/ChessMatch.java:105-112 | the move keeps board and positions in agreement and moves exactly the captured piece between the lists |
| MatchInvariant.ShiftWellFormed | src/chess/ChessMatch.java:105-112 | the move keeps the match well formed and leaves the captured piece off the board |
| MatchInvariant.MoveRookWellFormed | src/chess/ChessMatch.java:116-120 | a rook step keeps the match well formed and the lists unchanged |
| MatchInvariant.CastleWellFormed | src/chess/ChessMatch.java:114-128 | the castling blocks keep the match well formed and the lists unchanged |
| MatchInvariant.UncastleWellFormed | src/chess/ChessMatch.java:156-171 | the uncastling blocks keep the match well formed and the lists unchanged |
| MatchInvariant.MakeMoveWellFormed | src/chess/ChessMatch.java:104-146 | makeMove keeps the match well formed |
| MatchInvariant.ReturnWellFormed | src/chess/ChessMatch.java:148-150 | moving the piece back keeps the match well formed |
| MatchInvariant.RestoreWellFormed | src/chess/ChessMatch.java:151-155 | restoring a captured piece keeps the match well formed |
| MatchInvariant.UndoEnPassantWellFormed | src/chess/ChessMatch.java:172-187 | the en-passant undo keeps the match well formed |
| MatchInvariant.UndoMoveWellFormed | src/chess/ChessMatch.java:147-188 | undoMove keeps the match well formed |
| MatchInvariant.ReplaceWellFormed | src/chess/ChessMatch.java:82-96 | a promotion replacement keeps the match well formed, adding the new piece |
| MatchInvariant.PlaceNewWellFormed | src/chess/ChessMatch.java:209-212 | placeNewPiece on a free square succeeds, keeps the match well formed and touches no other piece |
| MatchProperties.MakeMovePlain | src/chess/ChessMatch.java:104-146 | a move that is not a king's two-step right is just the shift |
| MatchProperties.MakeMoveEffects | src/chess/ChessMatch.java:104-113 | the full effect of an ordinary move, square by square and table by table |
| MatchProperties.UndoMoveEffects | src/chess/ChessMatch.java:147-155 | the full effect of undoing an ordinary move |
| MatchProperties.RoundTripSteps | src/chess/ChessMatch.java:104-155 | an ordinary move can always be undone |
| MatchProperties.RoundTripGrid | src/chess/ChessMatch.java:104-155 | undoing a move restores the board |
| MatchProperties.RoundTripPositions | src/chess/ChessMatch.java:104-155 | undoing a move restores every position |
| MatchProperties.RoundTripCounts | src/chess/ChessMatch.java:104-155 | undoing a move restores every move count |
| MatchProperties.RoundTripLists | src/chess/ChessMatch.java:104-155 | undoing a move restores capturedPieces, piecesOnTheBoard as a multiset (exactly when nothing was captured) and every flag |
| MatchProperties.MakeUndoRoundTrip | src/chess/ChessMatch.java:104-188 | make then undo restores the whole match, except that a captured piece returns at the end of piecesOnTheBoard |
| MatchProperties.CastleRooksSucceeds | src/chess/ChessMatch.java:114-128 | the castling blocks succeed iff both rooks' squares are occupied and their destinations free |
| MatchProperties.CastleRooksSquares | src/chess/ChessMatch.java:114-128 | the castling blocks move the c+3 piece to c+1 and the c-4 piece to c-1 |
| MatchProperties.CastleRooksCounts | src/chess/ChessMatch.java:114-128 | both rooks' counts go up by one, and no other count changes |
| MatchProperties.CastleRooksFaults | src/chess/ChessMatch.java:122-128 | with no piece on c-4 the second block faults |
| MatchProperties.UncastleRooksSucceeds | src/chess/ChessMatch.java:156-171 | the uncastling blocks succeed iff both rooks stand at c+1 and c-1 and their home squares are free |
| MatchProperties.UncastleRooksSquares | src/chess/ChessMatch.java:156-171 | the uncastling blocks move the rooks back to c+3 and c-4 |
| MatchProperties.UncastleRooksCounts | src/chess/ChessMatch.java:156-171 | the kingside rook's count goes up and the queenside rook's goes down |
| MatchProperties.CastlingSteps | src/chess/ChessMatch.java:104-128 | a castling move is the king's shift followed by both rook blocks |
| MatchProperties.CastlingAsWritten | src/chess/ChessMatch.java:104-128 | castling moves the king two right and both rooks next to it |
| MatchProperties.CastlingCounts | src/chess/ChessMatch.java:104-128 | castling adds one to the king's and both rooks' counts |
| MatchProperties.CastledLayout | src/chess/ChessMatch.java:104-128 | the squares and counts after castling, with king and rooks distinct |
| MatchProperties.UncastlingSteps | src/chess/ChessMatch.java:147-171 | undoing a king's two-step is the return followed by both uncastling blocks |
| MatchProperties.UncastlingRestores | src/chess/ChessMatch.java:147-171 | undoing castling restores the board it started from |
| MatchProperties.CastlingUndoneAsWritten | src/chess/ChessMatch.java:104-171 | castling then undoing restores the board |
| MatchProperties.UncastlingCounts | src/chess/ChessMatch.java:147-171 | undoing castling: king −1, kingside rook +1, queenside rook −1 |
| MatchProperties.CastlingUndoneCounts | src/chess/ChessMatch.java:104-171 | castling then undoing restores the king's and queenside rook's counts but leaves the kingside rook two up |
| MatchProperties.CastlingWithoutQueensideRook | src/chess/ChessMatch.java:122-128 | a kingside castling with c-4 empty faults with a null pointer |
| MatchProperties.PawnSideStepUndoFaults | src/chess/ChessMatch.java:173-185 | undoing a sideways pawn step that captured nothing, with no en-passant candidate, faults |
| MatchProperties.ValidateSourceOrder | src/chess/ChessMatch.java:189-199 | the four source checks, their order and their messages, and success exactly when all pass |
| MatchProperties.ValidateTargetMeans | src/chess/ChessMatch.java:200-204 | target validation succeeds iff the target is among the piece's moves, else "The piece can't move to target position" |
| MatchProperties.PossibleMovesChecksSource | src/chess/ChessMatch.java:41-45 | possibleMoves succeeds iff the source validates, with the same error, and then returns the piece's non-empty moves |
| MatchProperties.RejectedMoveChangesNothing | src/chess/ChessMatch.java:47-51 | a move failing validation reports that error and leaves the match unchanged |
| MatchProperties.AttackedMeans | src/chess/ChessMatch.java:225-235 | the testCheck loop answers true iff some listed piece's moves include the king's square |
| MatchProperties.NoCheckNoMate | src/chess/ChessMatch.java:236-239 | not in check means no checkmate and no change |
| MatchProperties.ScanRunsOff | src/chess/ChessMatch.java:243-256 | with no marked square left in row 0, the scan faults at column 8 |
| MatchProperties.MateOnlyWithoutPieces | src/chess/ChessMatch.java:236-259 | testCheckMate reports checkmate iff in check and the scanned colour has no pieces, and then changes nothing |
| MatchProperties.SelfCheckRollsBack | src/chess/ChessMatch.java:52-56 | a move leaving the player in check is undone and reports "You can't put yourself in check", flags unchanged |
| MatchProperties.SelfCheckRestores | src/chess/ChessMatch.java:52-56 | for an ordinary move, the self-check roll-back restores the whole match (piecesOnTheBoard up to order) |
| MatchProperties.PromotionEffects | src/chess/ChessMatch.java:59-66 | promoted is the new queen, in the pawn's colour, exactly when a pawn reached the far row, else null; other flags unchanged |
| MatchProperties.CommitEffects | src/chess/ChessMatch.java:57-80 | a committed move returns the captured piece; promoted is a same-colour queen exactly when a pawn reached the far row; check is testCheck of the opponent after the promotion; checkmate is set with turn and player kept exactly when testCheckMate of the opponent holds, otherwise the turn advances and the player changes; the en-passant candidate is set |
| MatchProperties.CommittedMove | src/chess/ChessMatch.java:47-80 | a valid move that does not leave the player in check has those effects, stated from the source square, returning the piece makeMove captured |
| MatchProperties.MovedPieceLands | src/chess/ChessMatch.java:104-108 | after makeMove the moving piece stands on the target |
| MatchProperties.PromotionWellFormed | src/chess/ChessMatch.java:59-66 | the promotion block keeps the match well formed |
| MatchProperties.CommitWellFormed | src/chess/ChessMatch.java:57-80 | committing keeps the match well formed |
| MatchProperties.CommitSteps | src/chess/ChessMatch.java:57-72 | a commit's board and lists are those left by promotion, the check test and testCheckMate |
| MatchProperties.PerformWellFormed | src/chess/ChessMatch.java:47-81 | performChessMove keeps the match well formed |
| MatchProperties.TryWellFormed | src/chess/ChessMatch.java:248-250 | a trial move keeps the match well formed |
| MatchProperties.ScanWellFormed | src/chess/ChessMatch.java:241-256 | the escape scan keeps the match well formed |
| MatchProperties.CheckMateWellFormed | src/chess/ChessMatch.java:236-259 | testCheckMate keeps the match well formed |
| MatchProperties.ReplaceErrors | src/chess/ChessMatch.java:83-88 | "There is no piece to be promoted" without a promoted piece; "Invalid type for promotion" for a type other than B, N, R, Q |
| MatchProperties.ReplaceEffects | src/chess/ChessMatch.java:82-96 | in a well-formed match the replacement succeeds exactly for a piece of the kind the type names in the promoted piece's colour; that piece takes the promoted piece's square with no moves and is appended at the end of piecesOnTheBoard, and the old piece leaves the board and the list |
| MatchProperties.LayoutSquares | src/chess/ChessMatch.java:260-284 | the 22 placements are on the board and pairwise distinct |
| MatchProperties.OccupiedAreLaid | src/chess/ChessMatch.java:260-284 | during setup only laid squares are occupied |
| MatchProperties.NextSquareFree | src/chess/ChessMatch.java:260-284 | each placement's square is still free when its turn comes |
| MatchProperties.SetupStep | src/chess/ChessMatch.java:209-212 | each placeNewPiece of the setup succeeds and extends the set-up state |
| MatchProperties.NewMatchSetUp | src/chess/ChessMatch.java:26-29 | a new match before setup is the empty set-up |
| MatchProperties.SetupCorrect | src/chess/ChessMatch.java:260-284 | initialSetup never faults, and every piece stands on its square with no moves, listed in order |
| MatchProperties.SetupPlacesLayout | src/chess/ChessMatch.java:260-284 | after the placements, each placement's square holds its piece, of the kind and colour the placement names, with no moves |
| MatchProperties.SetupLeavesRestEmpty | src/chess/ChessMatch.java:260-284 | after setup every square not in the layout is empty |
| ChessGame.ChessMatch.constructor | src/chess/ChessMatch.java:26-31 | a new match holds 22 new pieces, each of the kind and colour its placement names, in the state Setup computes |
| ChessGame.ChessMatch.InitialSetup | src/chess/ChessMatch.java:260-284 | the placement loop creates each piece with its placement's kind and colour and reaches the state Setup computes |
| ChessGame.ChessMatch.PlaceNext | src/chess/ChessMatch.java:261-283 | one line of initialSetup: a new piece of the next placement's kind and colour is appended, and the match reaches the state Setup computes for the longer list |
| ChessGame.ChessMatch.PlaceNewPiece | src/chess/ChessMatch.java:209-212 | the heap step agrees with MatchRules.PlaceNewPiece |
| ChessGame.ChessMatch.ShiftPiece | src/chess/ChessMatch.java:105-112 | the heap step agrees with MatchRules.ShiftPiece |
| ChessGame.ChessMatch.MoveRook | src/chess/ChessMatch.java:116-120 | the heap step agrees with MatchRules.MoveRook |
| ChessGame.ChessMatch.CastleRooks | src/chess/ChessMatch.java:114-128 | the heap steps agree with MatchRules.CastleRooks |
| ChessGame.ChessMatch.MakeMove | src/chess/ChessMatch.java:104-146 | makeMove on the heap agrees with MatchRules.MakeMove, and a captured piece is one the match created |
| ChessGame.ChessMatch.Restore | src/chess/ChessMatch.java:151-155 | the heap step agrees with MatchRules.Restore |
| ChessGame.ChessMatch.ReturnPiece | src/chess/ChessMatch.java:148-150 | the heap step agrees with MatchRules.ReturnPiece |
| ChessGame.ChessMatch.UndoEnPassant | src/chess/ChessMatch.java:172-187 | the heap step agrees with MatchRules.UndoEnPassant |
| ChessGame.ChessMatch.UncastleRooks | src/chess/ChessMatch.java:156-171 | the heap steps agree with MatchRules.UncastleRooks |
| ChessGame.ChessMatch.UndoMove | src/chess/ChessMatch.java:147-188 | undoMove on the heap agrees with MatchRules.UndoMove |
| ChessGame.ChessMatch.PossibleMovesOf | src/chess/ChessMatch.java:44 | a piece's matrix fails as MovesOf fails, otherwise marks exactly MovesOf |
| ChessGame.ChessMatch.ValidateSource | src/chess/ChessMatch.java:189-199 | the heap check returns what MatchRules.ValidateSource returns |
| ChessGame.ChessMatch.ValidateTarget | src/chess/ChessMatch.java:200-204 | the heap check returns what MatchRules.ValidateTarget returns |
| ChessGame.ChessMatch.PossibleMoves | src/chess/ChessMatch.java:41-45 | the matrix marks exactly MatchRules.PossibleMoves, or fails with its error |
| ChessGame.ChessMatch.FindKing | src/chess/ChessMatch.java:216-224 | the loop returns what KingOf returns for piecesOnTheBoard |
| ChessGame.ChessMatch.TestCheck | src/chess/ChessMatch.java:225-235 | the loop returns what MatchRules.TestCheck returns |
| ChessGame.ChessMatch.TryMove | src/chess/ChessMatch.java:248-250 | the heap trial agrees with MatchRules.TryMove |
| ChessGame.ChessMatch.ScanEscapes | src/chess/ChessMatch.java:243-256 | the column loop agrees with EscapeScan from column 0 |
| ChessGame.ChessMatch.TestCheckMate | src/chess/ChessMatch.java:236-259 | the heap method agrees with MatchRules.TestCheckMate |
| ChessGame.ChessMatch.NextTurn | src/chess/ChessMatch.java:205-208 | the heap method leaves the state MatchRules.NextTurn computes |
| ChessGame.ChessMatch.ReplacePromotedPiece | src/chess/ChessMatch.java:82-96 | the heap method agrees with MatchRules.ReplacePromotedPiece for the piece it creates, which is new, of the kind the type names and in the promoted piece's colour |
| ChessGame.ChessMatch.PromoteQueen | src/chess/ChessMatch.java:63-64 | the heap step agrees with MatchRules.PromoteQueen; the piece it creates is a queen in the promoted pawn's colour |
| ChessGame.ChessMatch.Promotion | src/chess/ChessMatch.java:59-66 | the promotion block on the heap agrees with MatchRules.Promotion; a piece it creates is a queen in the colour of the piece on the target |
| ChessGame.ChessMatch.Commit | src/chess/ChessMatch.java:57-80 | the rest of the move on the heap agrees with MatchRules.Commit; a piece it creates is a queen in the colour of the piece on the target |
| ChessGame.ChessMatch.Conclude | src/chess/ChessMatch.java:67-80 | the check, checkmate and en-passant steps agree with MatchRules.Conclude |
| ChessGame.ChessMatch.Judge | src/chess/ChessMatch.java:52-56 | the self-check test and roll-back agree with MatchRules.Judge |
| ChessGame.ChessMatch.Attempt | src/chess/ChessMatch.java:52-80 | a validated move on the heap agrees with MatchRules.Attempt; a piece it creates is a queen in the moving piece's colour |
| ChessGame.ChessMatch.PerformChessMove | src/chess/ChessMatch.java:47-81 | performChessMove on the heap returns and leaves what MatchRules.PerformChessMove computes; a piece it creates is a queen in the moving piece's colour |
| ChessGame.AnyMarked | src/chess/ChessMatch.java:196 | the matrix scan answers true iff some cell is marked |
| ChessGame.MarksSome | src/chess/ChessMatch.java:196 | a piece's matrix has a marked cell iff its move set is non-empty |
| ChessGame.CreatedNext | src/chess/ChessMatch.java:260-284 | each new piece of initialSetup has its placement's kind and colour |
| ChessGame.KingAmongColour | src/chess/ChessMatch.java:216-224 | searching the colour-filtered list finds the same king as searching the whole list |

## Left out

- Console input and output, the user interface and `src/application/ProgramTest.java`
  are not modelled.
- The classes of the pawn, knight, bishop and rook are not part of this model. Their move
  generators are a parameter (`MoveRule`) that sees the board, the piece, its square, its
  move count and the en-passant candidate.
- `src/boardgame/Piece.java` is not part of this model.
  - `isThereAnyPossibleMove` is modelled as a scan of the matrix (`AnyMarked`).
  - `possibleMove` is modelled as a lookup in it.
- `ChessPosition` is not part of this model; only its conversion to a board position is
  modelled (`ToPosition`). The public methods take board positions.
- `getPiece`, the getters and the `toString` methods only read; they are not modelled.
- `Board.piece(int, int)` is modelled by the same function as `piece(Position)`
  (`PieceAt`).
- `Piece.position`, `Piece.moveCount` and the match's fields after a runtime fault are
  not stated: a `Failure` carries no state, since Java leaves the objects half-updated.
- `newPiece` ends without a return for a type other than B, N, R and Q. Such a type never
  reaches it, because `replcePromotedPiece` rejects it first.
- The piece `newPiece` creates is an extra ghost argument of the `MatchRules` functions
  `ReplacePromotedPiece`, `Promotion` and `PerformChessMove`. They fail unless it is of
  the kind `PromotionKind` names and in the promoted piece's colour (`NewPieceOf`). The
  heap methods create it with exactly that kind and colour.
- ChessGame.ChessMatch.ScanEscapes: the loops of `testCheckMate` are modelled as the scan
  they reduce to. The row loop never passes row 0, and the first piece's scan always ends
  the method.
- `initialSetup`'s 22 calls are a loop over the constant `Layout`.
- The two castling blocks of `makeMove` (and of `undoMove`), which test the same
  condition, are modelled together as one step with the two rook moves.
- `enPassantVulnerable` and `promoted` are compared by identity, as in Java.
- Integer widths: the turn counter and move counts are unbounded. The Java `int` wraps
  only after 2^31 moves.
