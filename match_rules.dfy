/** The rules of chess.ChessMatch as functions on a value: the match state, the board and
    roster steps the match takes, making and undoing a move, source and target
    validation, check, the checkmate test and promotion, and a whole move. Java runtime
    exceptions are Failure values; a function that fails part-way returns no state. */
module MatchRules {
  import opened Outcomes
  import opened Boardgame
  import opened QueenPiece
  import opened KingPiece

  /** The match's board is always 8 by 8. */
  const Size := 8

  /** Everything a ChessMatch holds, with each piece's position and move count gathered
      into tables keyed by piece (every piece the match has created). */
  datatype MatchState = MatchState(
    grid: Grid,
    pos: map<Piece, Option<Position>>,
    count: map<Piece, int>,
    onBoard: seq<Piece>,     // piecesOnTheBoard
    captured: seq<Piece>,    // capturedPieces
    turn: int,
    player: Color,           // currentPlayer
    check: bool,
    checkMate: bool,
    enPassant: Piece?,       // enPassantVulnerable
    promoted: Piece?)

  /** What a pawn, knight, bishop or rook move generator can see: the board, the piece,
      where it stands, its move count and the match's en-passant candidate. */
  datatype Probe = Probe(grid: Grid, piece: Piece, at: Position, moveCount: int, enPassant: Piece?)

  /** The move generators of the pieces other than queen and king, whose classes are not
      part of this model: whether the probed piece may move to a square. */
  type MoveRule = (Probe, Position) -> bool

  const NoPiece := ChessError("There is no piece on the position")
  const WrongColour := ChessError("The chosen piece is invalid")
  const NoMoves := ChessError("There is no exists move for the chosen piece")
  const CantMove := ChessError("The piece can't move to target position")
  const SelfCheck := ChessError("You can't put yourself in check")
  const NothingToPromote := IllegalState("There is no piece to be promoted")
  const BadPromotion := InvalidParameter("Invalid type for promotion")

  function ColorName(c: Color): string {
    if c == White then "WHITE" else "BLACK"
  }

  function NoKing(c: Color): Error {
    IllegalState("There is no color " + ColorName(c) + "king on the board")
  }

  function PosOf(s: MatchState, x: Piece): Option<Position> {
    if x in s.pos then s.pos[x] else None
  }

  function CountOf(s: MatchState, x: Piece): int {
    CountIn(s.count, x)
  }

  /** ChessMatch.opponent. */
  function Opponent(c: Color): (r: Color)
    ensures r != c
  {
    if c == White then Black else White
  }

  /** ChessMatch.nextTurn: the turn counter advances and the other side plays. */
  function NextTurn(s: MatchState): (r: MatchState)
    ensures r.turn == s.turn + 1 && r.player != s.player
    ensures r == s.(turn := r.turn, player := r.player)
  {
    s.(turn := s.turn + 1, player := if s.player == White then Black else White)
  }

  predicate NoDups(xs: seq<Piece>) {
    forall i, j :: 0 <= i < j < |xs| ==> xs[i] != xs[j]
  }

  /** List.remove(Object): drops the first occurrence of x, if any. */
  function RemoveFirst(xs: seq<Piece>, x: Piece): (r: seq<Piece>)
    ensures multiset(r) == multiset(xs) - multiset{x}
    ensures x !in xs ==> r == xs
  {
    if |xs| == 0 then []
    else if xs[0] == x then (assert xs == [xs[0]] + xs[1..]; xs[1..])
    else (assert xs == [xs[0]] + xs[1..]; [xs[0]] + RemoveFirst(xs[1..], x))
  }

  /** List.remove(Object) takes out the first occurrence of x, at k, and keeps the order
      of the rest. */
  lemma {:induction false} RemoveFirstSplits(xs: seq<Piece>, x: Piece, k: nat)
    requires k < |xs| && xs[k] == x && x !in xs[..k]
    ensures RemoveFirst(xs, x) == xs[..k] + xs[k + 1..]
  {
    if k > 0 {
      assert xs[0] in xs[..k];
      assert xs[1..][..k - 1] == xs[1..k];
      assert x !in xs[1..][..k - 1];
      RemoveFirstSplits(xs[1..], x, k - 1);
      assert xs[..k] == [xs[0]] + xs[1..][..k - 1];
      assert xs[k + 1..] == xs[1..][k - 1 + 1..];
    }
  }

  /** The pieces of xs of the given colour, in order (the stream filter of the source). */
  function OfColor(xs: seq<Piece>, c: Color): (r: seq<Piece>)
    ensures forall x <- r :: x in xs && x.color == c
    ensures forall x <- xs :: x.color == c ==> x in r
    ensures |r| <= |xs|
  {
    if |xs| == 0 then []
    else if xs[0].color == c then [xs[0]] + OfColor(xs[1..], c)
    else OfColor(xs[1..], c)
  }

  /** ChessMatch.king: the first king of the colour among the pieces on the board. */
  function KingOf(xs: seq<Piece>, c: Color): (r: Result<Piece>)
    ensures r.Success? ==> r.value in xs && r.value.kind == King && r.value.color == c
    ensures r.Failure? <==> forall x <- xs :: !(x.kind == King && x.color == c)
    ensures r.Failure? ==> r.error == NoKing(c)
  {
    if |xs| == 0 then Failure(NoKing(c))
    else if xs[0].kind == King && xs[0].color == c then Success(xs[0])
    else KingOf(xs[1..], c)
  }

  // ---- Board steps, with the position table kept in step -------------------------

  /** Board.removePiece: the occupant of a square, which loses its position. */
  function RemoveAt(s: MatchState, at: Position): (r: Result<(Piece?, MatchState)>)
    ensures r.Failure? <==> !InBounds(s.grid, at)
    ensures r.Failure? ==> r.error == PositionNotFound
    ensures r.Success? ==> r.value.0 == At(s.grid, at)
    ensures r.Success? && r.value.0 == null ==> r.value.1 == s
    ensures r.Success? && r.value.0 != null ==>
      r.value.1 == s.(grid := Put(s.grid, at, null), pos := s.pos[r.value.0 := None])
  {
    if !InBounds(s.grid, at) then Failure(PositionNotFound)
    else
      var x := At(s.grid, at);
      if x == null then Success((null, s))
      else Success((x, s.(grid := Put(s.grid, at, null), pos := s.pos[x := None])))
  }

  /** Board.placePiece: an occupied or off-board square is an error, and so is placing
      null; otherwise the piece stands there and records its position. */
  function PlaceAt(s: MatchState, x: Piece?, at: Position): (r: Result<MatchState>)
    ensures r.Success? <==> InBounds(s.grid, at) && At(s.grid, at) == null && x != null
    ensures !InBounds(s.grid, at) ==> r == Failure(PositionNotFound)
    ensures InBounds(s.grid, at) && At(s.grid, at) != null ==> r == Failure(AlreadyOccupied)
    ensures r.Success? ==> r.value == s.(grid := Put(s.grid, at, x), pos := s.pos[x := Some(at)])
  {
    if !InBounds(s.grid, at) then Failure(PositionNotFound)
    else if At(s.grid, at) != null then Failure(AlreadyOccupied)
    else if x == null then Failure(NullPointer)
    else Success(s.(grid := Put(s.grid, at, x), pos := s.pos[x := Some(at)]))
  }

  /** The position table once a piece, if there is one, has left the board. */
  function Vacated(pos: map<Piece, Option<Position>>, x: Piece?): (r: map<Piece, Option<Position>>)
    ensures x == null ==> r == pos
    ensures x != null ==> r == pos[x := None]
  {
    if x == null then pos else var y: Piece := x; pos[y := None]
  }

  /** Where a piece ends up does not depend on the position it had before. */
  lemma VacatedOver(pos: map<Piece, Option<Position>>, p: Piece, x: Piece?, v: Option<Position>)
    ensures Vacated(pos[p := None], x)[p := v] == Vacated(pos, x)[p := v]
  {
  }

  /** increaseMoveCount / decreaseMoveCount. */
  function Bump(s: MatchState, x: Piece, delta: int): MatchState {
    s.(count := s.count[x := CountOf(s, x) + delta])
  }

  /** A captured piece leaves piecesOnTheBoard and joins capturedPieces. */
  function Capture(s: MatchState, x: Piece): MatchState {
    s.(onBoard := RemoveFirst(s.onBoard, x), captured := s.captured + [x])
  }

  // ---- Making and undoing a move --------------------------------------------------

  /** The first block of makeMove: lift the piece from the source, count the move, take
      whatever stands on the target, put the piece there and record any capture. */
  function ShiftPiece(s: MatchState, src: Position, tgt: Position): (r: Result<(Piece?, MatchState)>)
    ensures r.Success? <==> InBounds(s.grid, src) && At(s.grid, src) != null && InBounds(s.grid, tgt)
    ensures r.Success? ==>
      var p: Piece := At(s.grid, src);
      var cap := if tgt == src then null else At(s.grid, tgt);
      && r.value.0 == cap
      && r.value.1 == s.(grid := Put(Put(s.grid, src, null), tgt, p),
                         pos := Vacated(s.pos, cap)[p := Some(tgt)],
                         count := s.count[p := CountOf(s, p) + 1],
                         onBoard := if cap == null then s.onBoard else RemoveFirst(s.onBoard, cap),
                         captured := if cap == null then s.captured else s.captured + [cap])
  {
    var lifted :- RemoveAt(s, src);
    var p := lifted.0;
    if p == null then Failure(NullPointer)
    else
      var counted := Bump(lifted.1, p, 1);
      var cap := if tgt == src || !InBounds(s.grid, tgt) then null else At(s.grid, tgt);
      assert counted == s.(grid := Put(s.grid, src, null), pos := s.pos[p := None],
                           count := s.count[p := CountOf(s, p) + 1]);
      assert InBounds(s.grid, tgt) ==> At(counted.grid, tgt) == cap;
      VacatedOver(s.pos, p, cap, Some(tgt));
      Settle(counted, p, tgt)
  }

  /** The rest of that block, once the piece is lifted and counted: take whatever stands
      on the target, put the piece there and record any capture. */
  function Settle(s: MatchState, p: Piece, tgt: Position): (r: Result<(Piece?, MatchState)>)
    ensures r.Success? <==> InBounds(s.grid, tgt)
    ensures r.Success? ==>
      var cap := At(s.grid, tgt);
      && r.value.0 == cap
      && r.value.1 == s.(grid := Put(s.grid, tgt, p), pos := Vacated(s.pos, cap)[p := Some(tgt)],
                         onBoard := if cap == null then s.onBoard else RemoveFirst(s.onBoard, cap),
                         captured := if cap == null then s.captured else s.captured + [cap])
  {
    var taken :- RemoveAt(s, tgt);
    var cap := taken.0;
    // the target was just emptied, so the piece always lands
    var landed := PlaceAt(taken.1, p, tgt).value;
    PutTwice(s.grid, tgt, null, p);
    assert landed.pos == Vacated(s.pos, cap)[p := Some(tgt)];
    Success((cap, if cap == null then landed else Capture(landed, cap)))
  }

  /** One castling rook move: lift whatever stands on `from`, place it on `to` and change
      its move count by delta. Placing an absent rook is a null-pointer fault. */
  function MoveRook(s: MatchState, from: Position, to: Position, delta: int): (r: Result<MatchState>)
    ensures r.Success? <==> InBounds(s.grid, from) && At(s.grid, from) != null && InBounds(s.grid, to)
                            && (to == from || At(s.grid, to) == null)
    ensures r.Success? ==>
      var x := At(s.grid, from);
      r.value == s.(grid := Put(Put(s.grid, from, null), to, x),
                    pos := s.pos[x := Some(to)],
                    count := s.count[x := CountOf(s, x) + delta])
  {
    var lifted :- RemoveAt(s, from);
    var placed :- PlaceAt(lifted.1, lifted.0, to);
    Success(Bump(placed, lifted.0, delta))
  }

  /** A king move of exactly two columns to the right, the test both castling blocks of
      makeMove and undoMove use. */
  predicate CastlesRight(p: Piece, src: Position, tgt: Position) {
    p.kind == King && tgt.col == src.col + 2
  }

  /** The two castling blocks of makeMove, which test the same condition: the piece on
      (r, c+3) goes to (r, c+1) and then the one on (r, c-4) to (r, c-1), each counting
      one move more. The en-passant block nested in the second of them tests for a pawn
      where a king was just found, and can never run. */
  function CastleRooks(s: MatchState, src: Position): Result<MatchState> {
    var s1 :- MoveRook(s, Position(src.row, src.col + 3), Position(src.row, src.col + 1), 1);
    MoveRook(s1, Position(src.row, src.col - 4), Position(src.row, src.col - 1), 1)
  }

  /** ChessMatch.makeMove: the captured piece, or null, and the new state. Both castling
      blocks test a king move of +2 columns. */
  function MakeMove(s: MatchState, src: Position, tgt: Position): (r: Result<(Piece?, MatchState)>)
    ensures r.Success? ==>
      r.value.1 == s.(grid := r.value.1.grid, pos := r.value.1.pos, count := r.value.1.count,
                      onBoard := r.value.1.onBoard, captured := r.value.1.captured)
  {
    var shifted :- ShiftPiece(s, src, tgt);
    var p := At(s.grid, src);
    if p != null && CastlesRight(p, src, tgt) then
      var castled :- CastleRooks(shifted.1, src);
      Success((shifted.0, castled))
    else
      Success(shifted)
  }

  /** A captured piece comes back: it stands on the target again, leaves capturedPieces
      and is appended to piecesOnTheBoard. */
  function Restore(s: MatchState, cap: Piece, tgt: Position): (r: Result<MatchState>)
    ensures r.Success? <==> InBounds(s.grid, tgt) && At(s.grid, tgt) == null
    ensures r.Success? ==>
      r.value == s.(grid := Put(s.grid, tgt, cap), pos := s.pos[cap := Some(tgt)],
                    onBoard := s.onBoard + [cap], captured := RemoveFirst(s.captured, cap))
  {
    var placed :- PlaceAt(s, cap, tgt);
    Success(placed.(captured := RemoveFirst(placed.captured, cap), onBoard := placed.onBoard + [cap]))
  }

  /** The first block of undoMove: lift the piece from the target, uncount the move and
      put it back on the source. */
  function ReturnPiece(s: MatchState, src: Position, tgt: Position): (r: Result<(Piece, MatchState)>)
    ensures r.Success? <==> InBounds(s.grid, tgt) && At(s.grid, tgt) != null && InBounds(s.grid, src)
                            && (src == tgt || At(s.grid, src) == null)
    ensures r.Success? ==>
      var p := At(s.grid, tgt);
      && r.value.0 == p
      && r.value.1 == s.(grid := Put(Put(s.grid, tgt, null), src, p), pos := s.pos[p := Some(src)],
                         count := s.count[p := CountOf(s, p) - 1])
  {
    var lifted :- RemoveAt(s, tgt);
    var p := lifted.0;
    if p == null then Failure(NullPointer)
    else
      var back :- PlaceAt(Bump(lifted.1, p, -1), p, src);
      assert back.pos == s.pos[p := Some(src)];
      Success((p, back))
  }

  /** The en-passant block of undoMove: whatever stands on the target is put on row 3
      (white mover) or 4 (black mover) of the target's column, taken off again at once
      and recorded as captured. */
  function UndoEnPassant(s: MatchState, mover: Color, tgt: Position): (r: Result<MatchState>)
    ensures var pawnSquare := Position(if mover == White then 3 else 4, tgt.col);
      r.Success? <==> InBounds(s.grid, tgt) && At(s.grid, tgt) != null && InBounds(s.grid, pawnSquare)
                      && (pawnSquare == tgt || At(s.grid, pawnSquare) == null)
    ensures r.Success? ==>
      var x := At(s.grid, tgt);
      r.value == s.(grid := Put(s.grid, tgt, null), pos := s.pos[x := None],
                    onBoard := RemoveFirst(s.onBoard, x), captured := s.captured + [x])
  {
    var lifted :- RemoveAt(s, tgt);
    var pawnSquare := Position(if mover == White then 3 else 4, tgt.col);
    var placed :- PlaceAt(lifted.1, lifted.0, pawnSquare);
    // the pawn was just placed there, so it is taken off again
    var again := RemoveAt(placed, pawnSquare).value;
    var pawn: Piece := again.0;
    PutRestores(lifted.1.grid, pawnSquare, pawn);
    assert again.1.pos == lifted.1.pos;
    Success(again.1.(captured := again.1.captured + [pawn], onBoard := RemoveFirst(again.1.onBoard, pawn)))
  }

  /** The two castling blocks of undoMove, which test the same condition: the piece on
      (r, c+1) goes back to (r, c+3) with its move count increased again, the one on
      (r, c-1) back to (r, c-4) with its count decreased. */
  function UncastleRooks(s: MatchState, src: Position): Result<MatchState> {
    var s1 :- MoveRook(s, Position(src.row, src.col + 1), Position(src.row, src.col + 3), 1);
    MoveRook(s1, Position(src.row, src.col - 1), Position(src.row, src.col - 4), -1)
  }

  /** ChessMatch.undoMove. Both castling blocks test a king move of +2 columns. The
      en-passant block runs for a pawn that changed column whenever the piece given back
      equals the match's en-passant candidate, null included. */
  function UndoMove(s: MatchState, src: Position, tgt: Position, cap: Piece?): (r: Result<MatchState>)
    ensures r.Success? ==>
      r.value == s.(grid := r.value.grid, pos := r.value.pos, count := r.value.count,
                    onBoard := r.value.onBoard, captured := r.value.captured)
  {
    var returned :- ReturnPiece(s, src, tgt);
    var p := returned.0;
    var s0 :- if cap == null then Success(returned.1) else Restore(returned.1, cap, tgt);
    var s1 :- if CastlesRight(p, src, tgt) then UncastleRooks(s0, src) else Success(s0);
    if p.kind == Pawn && src.col != tgt.col && cap == s.enPassant then UndoEnPassant(s1, p.color, tgt)
    else Success(s1)
  }

  // ---- Move generation and validation ---------------------------------------------

  /** The squares a generator other than the queen's or the king's marks. */
  function RuleTargets(rules: MoveRule, probe: Probe): set<Position> {
    set i, j | 0 <= i < |probe.grid| && 0 <= j < |probe.grid[i]| && rules(probe, Position(i, j)) :: Position(i, j)
  }

  /** piece.possibleMoves(), as a set of squares: the queen's and king's generators are
      modelled, the others are `rules`. A piece without a position cannot generate. */
  function MovesOf(s: MatchState, rules: MoveRule, x: Piece): Result<set<Position>> {
    match PosOf(s, x)
    case None => Failure(NullPointer)
    case Some(at) =>
      if x.kind == Queen then Success(QueenTargets(s.grid, at, x.color))
      else if x.kind == King then KingTargets(s.grid, s.count, at, x.color, CountOf(s, x), s.check)
      else Success(RuleTargets(rules, Probe(s.grid, x, at, CountOf(s, x), s.enPassant)))
  }

  /** ChessMatch.validateSourcePosition: the square must be on the board, hold a piece,
      hold one of the current player's, and that piece must have a move; the checks run
      in that order. */
  function ValidateSource(s: MatchState, rules: MoveRule, at: Position): (r: Result<()>)
    ensures r.Success? ==>
      (InBounds(s.grid, at) && At(s.grid, at) != null && At(s.grid, at).color == s.player
       && MovesOf(s, rules, At(s.grid, at)).Success? && MovesOf(s, rules, At(s.grid, at)).value != {})
  {
    if !InBounds(s.grid, at) then Failure(PositionNotFound)
    else
      var x := At(s.grid, at);
      if x == null then Failure(NoPiece)
      else if s.player != x.color then Failure(WrongColour)
      else
        var moves :- MovesOf(s, rules, x);
        if moves == {} then Failure(NoMoves) else Success(())
  }

  /** ChessMatch.validateTargetPosition: the source piece's matrix must mark the target;
      a target outside the matrix is an index fault. */
  function ValidateTarget(s: MatchState, rules: MoveRule, src: Position, tgt: Position): (r: Result<()>)
    ensures r.Success? ==>
      (InBounds(s.grid, src) && At(s.grid, src) != null && InBounds(s.grid, tgt)
       && MovesOf(s, rules, At(s.grid, src)).Success? && tgt in MovesOf(s, rules, At(s.grid, src)).value)
  {
    if !InBounds(s.grid, src) then Failure(PositionNotFound)
    else
      var x := At(s.grid, src);
      if x == null then Failure(NullPointer)
      else
        var moves :- MovesOf(s, rules, x);
        if !InBounds(s.grid, tgt) then Failure(IndexOutOfBounds)
        else if tgt !in moves then Failure(CantMove) else Success(())
  }

  /** ChessMatch.possibleMoves: validate the source, then the piece's squares. */
  function PossibleMoves(s: MatchState, rules: MoveRule, at: Position): Result<set<Position>> {
    var ok :- ValidateSource(s, rules, at);
    MovesOf(s, rules, At(s.grid, at))
  }

  // ---- Check and checkmate --------------------------------------------------------

  /** The loop of testCheck: whether some piece of ps marks the king's square. */
  function Attacked(s: MatchState, rules: MoveRule, ps: seq<Piece>, kp: Position): Result<bool> {
    if |ps| == 0 then Success(false)
    else
      var moves :- MovesOf(s, rules, ps[0]);
      if !InBounds(s.grid, kp) then Failure(IndexOutOfBounds)
      else if kp in moves then Success(true)
      else Attacked(s, rules, ps[1..], kp)
  }

  /** ChessMatch.testCheck: whether a piece of the other colour marks the king's square. */
  function TestCheck(s: MatchState, rules: MoveRule, c: Color): Result<bool> {
    var king :- KingOf(s.onBoard, c);
    match PosOf(s, king)
    case None => Failure(NullPointer)
    case Some(kp) => Attacked(s, rules, OfColor(s.onBoard, Opponent(c)), kp)
  }

  /** One trial of testCheckMate's inner loop: make the move, test whether c is still in
      check, undo the move. */
  function TryMove(s: MatchState, rules: MoveRule, c: Color, src: Position, tgt: Position)
    : (r: Result<(bool, MatchState)>)
    ensures r.Success? ==>
      r.value.1 == s.(grid := r.value.1.grid, pos := r.value.1.pos, count := r.value.1.count,
                      onBoard := r.value.1.onBoard, captured := r.value.1.captured)
  {
    var made :- MakeMove(s, src, tgt);
    var stillInCheck :- TestCheck(made.1, rules, c);
    var back :- UndoMove(made.1, src, tgt, made.0);
    Success((stillInCheck, back))
  }

  /** The column loop of testCheckMate as written: its test bounds the row index, which
      is 0 and stays 0, so it scans row 0 of the first piece's matrix, trying each marked
      square (make, test, undo) until one lifts the check, and faults at column 8. It
      therefore never reports checkmate: it finds an escape or faults. */
  function EscapeScan(s: MatchState, rules: MoveRule, c: Color, p: Piece, moves: set<Position>, j: nat)
    : (r: Result<(bool, MatchState)>)
    ensures r.Success? ==> !r.value.0
    ensures r.Success? ==>
      r.value.1 == s.(grid := r.value.1.grid, pos := r.value.1.pos, count := r.value.1.count,
                      onBoard := r.value.1.onBoard, captured := r.value.1.captured)
    decreases Size - j
  {
    if j >= Size then Failure(IndexOutOfBounds)
    else if Position(0, j) in moves then
      match PosOf(s, p)
      case None => Failure(NullPointer)
      case Some(src) =>
        var tried :- TryMove(s, rules, c, src, Position(0, j));
        if !tried.0 then Success((false, tried.1))
        else EscapeScan(tried.1, rules, c, p, moves, j + 1)
    else EscapeScan(s, rules, c, p, moves, j + 1)
  }

  /** ChessMatch.testCheckMate, with the state it leaves behind: not in check means no
      checkmate; otherwise the pieces of the other colour than c are searched, starting
      with the first, whose scan either finds an escape or faults; with none of them on
      the board the answer is checkmate. */
  function TestCheckMate(s: MatchState, rules: MoveRule, c: Color): (r: Result<(bool, MatchState)>)
    ensures r.Success? ==>
      r.value.1 == s.(grid := r.value.1.grid, pos := r.value.1.pos, count := r.value.1.count,
                      onBoard := r.value.1.onBoard, captured := r.value.1.captured)
  {
    var inCheck :- TestCheck(s, rules, c);
    if !inCheck then Success((false, s))
    else
      var pieces := OfColor(s.onBoard, Opponent(c));
      if |pieces| == 0 then Success((true, s))
      else
        var moves :- MovesOf(s, rules, pieces[0]);
        EscapeScan(s, rules, c, pieces[0], moves, 0)
  }

  // ---- Promotion ------------------------------------------------------------------

  predicate PromotionType(t: string) {
    t == "B" || t == "N" || t == "R" || t == "Q"
  }

  /** ChessMatch.newPiece: the kind a promotion type names. */
  function PromotionKind(t: string): (k: Kind)
    requires PromotionType(t)
    ensures k != Pawn && k != King
  {
    if t == "B" then Bishop else if t == "N" then Knight else if t == "R" then Rook else Queen
  }

  /** The piece newPiece(t, color) creates: one of the kind t names, in that colour. */
  predicate NewPieceOf(q: Piece?, t: string, color: Color) {
    q != null && PromotionType(t) && q.kind == PromotionKind(t) && q.color == color
  }

  /** ChessMatch.replcePromotedPiece, with q the piece newPiece creates: the promoted piece
      leaves its square and piecesOnTheBoard, and q, new to the match with no moves, takes
      the square and is appended to piecesOnTheBoard. A q that is not a piece newPiece
      could create (of the kind t names, in the promoted piece's colour) stands for no
      run of the method and is rejected. */
  function ReplacePromotedPiece(s: MatchState, t: string, q: Piece?): (r: Result<(Piece, MatchState)>)
    ensures r.Success? ==> r.value.0 == q
    ensures r.Success? ==> s.promoted != null && NewPieceOf(q, t, s.promoted.color)
    ensures r.Success? ==>
      r.value.1 == s.(grid := r.value.1.grid, pos := r.value.1.pos, count := r.value.1.count,
                      onBoard := r.value.1.onBoard)
  {
    if s.promoted == null then Failure(NothingToPromote)
    else if !PromotionType(t) then Failure(BadPromotion)
    else
      match PosOf(s, s.promoted)
      case None => Failure(NullPointer)
      case Some(at) =>
        var lifted :- RemoveAt(s, at);
        var s1 := if lifted.0 == null then lifted.1 else lifted.1.(onBoard := RemoveFirst(lifted.1.onBoard, lifted.0));
        if !NewPieceOf(q, t, s.promoted.color) then Failure(NullPointer)
        else
          var s2 := s1.(pos := s1.pos[q := None], count := s1.count[q := 0]);
          match PlaceAt(s2, q, at)
          case Failure(e) => Failure(e)
          case Success(s3) => Success((q, s3.(onBoard := s3.onBoard + [q])))
  }

  /** replcePromotedPiece once its checks pass, in closed form: whatever stands on the
      promoted piece's square leaves the board and piecesOnTheBoard, and q stands there
      with no moves and is appended to piecesOnTheBoard. */
  lemma ReplaceClosedForm(s: MatchState, t: string, q: Piece)
    requires s.promoted != null && PromotionType(t) && PosOf(s, s.promoted).Some?
    requires NewPieceOf(q, t, s.promoted.color)
    requires InBounds(s.grid, PosOf(s, s.promoted).value)
    ensures var at := PosOf(s, s.promoted).value;
      var x := At(s.grid, at);
      ReplacePromotedPiece(s, t, q)
        == Success((q, s.(grid := Put(s.grid, at, q), pos := Vacated(s.pos, x)[q := Some(at)],
                          count := s.count[q := 0],
                          onBoard := (if x == null then s.onBoard else RemoveFirst(s.onBoard, x)) + [q])))
  {
    var at := PosOf(s, s.promoted).value;
    var x := At(s.grid, at);
    var s1 := s.(grid := Put(s.grid, at, null), pos := Vacated(s.pos, x),
                 onBoard := if x == null then s.onBoard else RemoveFirst(s.onBoard, x));
    var s2 := s1.(pos := s1.pos[q := None], count := s1.count[q := 0]);
    var s3 := s2.(grid := Put(s.grid, at, q), pos := Vacated(s.pos, x)[q := Some(at)]);
    assert PlaceAt(s2, q, at) == Success(s3) by {
      PutTwice(s.grid, at, null, q);
      assert s2.pos[q := Some(at)] == Vacated(s.pos, x)[q := Some(at)];
    }
    var lifted := RemoveAt(s, at).value;
    assert lifted.0 == x;
    assert s1 == if x == null then lifted.1 else lifted.1.(onBoard := RemoveFirst(lifted.1.onBoard, x)) by {
      if x == null {
        PutSame(s.grid, at);
      }
    }
    assert ReplacePromotedPiece(s, t, q) == Success((q, s3.(onBoard := s3.onBoard + [q])));
  }

  // ---- A whole move ---------------------------------------------------------------

  /** The outcome of performChessMove when no runtime fault occurs: what it returns (the
      captured piece) or the ChessException it throws, and the state it leaves. */
  datatype Played = Played(result: Result<Piece?>, state: MatchState)

  /** A pawn reaching the far row: row 0 for white, row 7 for black. */
  predicate Promotes(moved: Piece?, tgt: Position) {
    moved != null && moved.kind == Pawn
    && ((moved.color == White && tgt.row == 0) || (moved.color == Black && tgt.row == 7))
  }

  /** A pawn moving two rows becomes the en-passant candidate. */
  function EnPassantAfter(moved: Piece?, src: Position, tgt: Position): Piece? {
    if moved != null && moved.kind == Pawn && (tgt.row == src.row - 2 || tgt.row == src.row + 2) then moved else null
  }

  /** ChessMatch.performChessMove, with q the queen a promotion creates. A failed
      validation changes nothing; a move that leaves the player in check is undone;
      otherwise the move is committed. A Failure of the whole is a runtime fault. */
  function PerformChessMove(s: MatchState, rules: MoveRule, src: Position, tgt: Position, q: Piece?): Result<Played> {
    var sourceOk := ValidateSource(s, rules, src);
    if sourceOk.Failure? then Success(Played(Failure(sourceOk.error), s))
    else
      var targetOk := ValidateTarget(s, rules, src, tgt);
      if targetOk.Failure? then Success(Played(Failure(targetOk.error), s))
      else Attempt(s, rules, src, tgt, q)
  }

  /** A validated move of performChessMove: make it, then undo it if it leaves the
      player in check, or commit it. */
  function Attempt(s: MatchState, rules: MoveRule, src: Position, tgt: Position, q: Piece?): Result<Played> {
    var made :- MakeMove(s, src, tgt);
    Judge(made.1, rules, src, tgt, made.0, q)
  }

  /** A move just made: undone, with the self-check error, if it leaves the player in
      check, committed otherwise. */
  function Judge(s: MatchState, rules: MoveRule, src: Position, tgt: Position, cap: Piece?, q: Piece?): Result<Played> {
    var selfCheck :- TestCheck(s, rules, s.player);
    if selfCheck then
      var back :- UndoMove(s, src, tgt, cap);
      Success(Played(Failure(SelfCheck), back))
    else Commit(s, rules, src, tgt, cap, q)
  }

  /** The rest of performChessMove once the move stands: promotion, check, checkmate or
      the next turn, then the en-passant candidate; the captured piece is returned. */
  function Commit(s: MatchState, rules: MoveRule, src: Position, tgt: Position, cap: Piece?, q: Piece?): Result<Played> {
    if !InBounds(s.grid, tgt) then Failure(PositionNotFound)
    else
      var moved := At(s.grid, tgt);
      var s1 :- Promotion(s, tgt, q);
      Conclude(s1, rules, src, tgt, cap, moved)
  }

  /** The end of a committed move, after the promotion block: the check flag, then
      checkmate or the next turn, then the en-passant candidate of the piece that moved. */
  function Conclude(s: MatchState, rules: MoveRule, src: Position, tgt: Position, cap: Piece?, moved: Piece?)
    : Result<Played>
  {
    var inCheck :- TestCheck(s, rules, Opponent(s.player));
    var s2 := s.(check := inCheck);
    var mate :- TestCheckMate(s2, rules, Opponent(s2.player));
    var s3 := if mate.0 then mate.1.(checkMate := true) else NextTurn(mate.1);
    Success(Played(Success(cap), s3.(enPassant := EnPassantAfter(moved, src, tgt))))
  }

  /** The promotion block of performChessMove: the promoted piece is cleared, and a pawn
      that reached the far row is replaced by a queen, which becomes the promoted piece. */
  function Promotion(s: MatchState, tgt: Position, q: Piece?): Result<MatchState>
    requires InBounds(s.grid, tgt)
  {
    var moved := At(s.grid, tgt);
    if Promotes(moved, tgt) then PromoteQueen(s.(promoted := moved), q) else Success(s.(promoted := null))
  }

  /** The promotion step of performChessMove: replace the pawn by a queen, which becomes
      the match's promoted piece. */
  function PromoteQueen(s: MatchState, q: Piece?): Result<MatchState> {
    var replaced :- ReplacePromotedPiece(s, "Q", q);
    Success(replaced.1.(promoted := replaced.0))
  }

  // ---- The initial position -------------------------------------------------------

  /** One placeNewPiece call of initialSetup: the kind, colour and chess square (column
      letter, rank) of the piece. */
  datatype Placement = Placement(kind: Kind, color: Color, column: char, rank: int)

  /** ChessPosition.toPosition: rank 8 is row 0 and column 'a' is column 0. */
  function ToPosition(column: char, rank: int): Position {
    Position(8 - rank, column as int - 'a' as int)
  }

  /** The 22 placements of initialSetup, in order. */
  const Layout: seq<Placement> := [
    Placement(Rook, White, 'a', 1), Placement(Knight, White, 'b', 1), Placement(Bishop, White, 'c', 1),
    Placement(Queen, White, 'd', 1), Placement(King, White, 'e', 1), Placement(Knight, White, 'g', 1),
    Placement(Pawn, White, 'c', 2), Placement(Pawn, White, 'd', 2), Placement(Pawn, White, 'e', 2),
    Placement(Pawn, White, 'f', 2), Placement(Pawn, White, 'g', 2),
    Placement(Rook, Black, 'a', 8), Placement(Knight, Black, 'b', 8), Placement(Bishop, Black, 'c', 8),
    Placement(Queen, Black, 'd', 8), Placement(King, Black, 'e', 8), Placement(Knight, Black, 'g', 8),
    Placement(Pawn, Black, 'd', 7), Placement(Pawn, Black, 'e', 7), Placement(Pawn, Black, 'f', 7),
    Placement(Pawn, Black, 'g', 7), Placement(Pawn, Black, 'h', 7)]

  /** The pieces initialSetup creates for its first |ps| placements: each of the kind and
      colour its placement names. */
  predicate Created(ps: seq<Piece>)
    requires |ps| <= |Layout|
  {
    forall i :: 0 <= i < |ps| ==> ps[i].kind == Layout[i].kind && ps[i].color == Layout[i].color
  }

  /** The state of a new match before initialSetup: an empty 8 by 8 board, turn 1, white
      to play. */
  function NewMatch(): MatchState {
    MatchState(EmptyGrid(Size, Size), map[], map[], [], [], 1, White, false, false, null, null)
  }

  /** ChessMatch.placeNewPiece, for a piece new to the match. */
  function PlaceNewPiece(s: MatchState, column: char, rank: int, x: Piece): Result<MatchState> {
    var placed :- PlaceAt(s.(pos := s.pos[x := None], count := s.count[x := 0]), x, ToPosition(column, rank));
    Success(placed.(onBoard := placed.onBoard + [x]))
  }

  /** The first |ps| placements of initialSetup, with ps the pieces they create. */
  function Setup(ps: seq<Piece>): Result<MatchState>
    requires |ps| <= |Layout|
  {
    if |ps| == 0 then Success(NewMatch())
    else
      var s :- Setup(ps[..|ps| - 1]);
      var e := Layout[|ps| - 1];
      PlaceNewPiece(s, e.column, e.rank, ps[|ps| - 1])
  }
}
