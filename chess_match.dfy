/** chess.ChessMatch as a heap object: the fields the match updates, the board it owns and
    the pieces it has created, whose positions and move counts live in the pieces
    themselves. Each method is proved against the function of MatchRules that states its
    effect on the match's state as a value. */
module ChessGame {
  import opened Outcomes
  import opened Boardgame
  import opened QueenPiece
  import opened KingPiece
  import opened MatchRules
  import MatchInvariant
  import MatchProperties

  /** What a step that returns a value and a new state reports to its caller. */
  function Reported<T>(r: Result<(T, MatchState)>): (o: Result<T>)
    ensures o.Success? <==> r.Success?
    ensures o.Success? ==> o.value == r.value.0
    ensures o.Failure? ==> o.error == r.error
  {
    match r
    case Success(v) => Success(v.0)
    case Failure(e) => Failure(e)
  }

  /** What a step that only changes the state reports to its caller. */
  function Status(r: Result<MatchState>): (o: Result<()>)
    ensures o.Success? <==> r.Success?
    ensures o.Failure? ==> o.error == r.error
  {
    match r
    case Success(_) => Success(())
    case Failure(e) => Failure(e)
  }

  /** The positions of a set of pieces, as the match's position table. */
  ghost function PositionTable(xs: set<Piece>): map<Piece, Option<Position>>
    reads xs
  {
    map x | x in xs :: x.position
  }

  /** The move counts of a set of pieces, as the match's count table. */
  ghost function CountTable(xs: set<Piece>): map<Piece, int>
    reads xs
  {
    map x | x in xs :: x.moveCount
  }

  class ChessMatch {
    var turn: int
    var currentPlayer: Color
    const board: Board
    var check: bool
    var checkMate: bool
    var enPassantVulnerable: Piece?
    var promoted: Piece?
    var piecesOnTheBoard: seq<Piece>
    var capturedPieces: seq<Piece>
    /** The move generators of pawns, knights, bishops and rooks. */
    const rules: MoveRule
    /** Every piece the match has created. */
    ghost var pieces: set<Piece>

    /** The board is 8 by 8, and every piece the match refers to is one it created. */
    ghost predicate Valid()
      reads this, board, board.cells
    {
      && board.Valid() && board.rows == Size && board.cols == Size
      && (forall q :: InBounds(board.G, q) && At(board.G, q) != null ==> At(board.G, q) in pieces)
      && (forall x <- piecesOnTheBoard :: x in pieces)
      && (promoted != null ==> promoted in pieces)
    }

    /** The match as a value. */
    ghost function State(): MatchState
      reads this, board, pieces
    {
      MatchState(board.G, PositionTable(pieces), CountTable(pieces), piecesOnTheBoard, capturedPieces,
                 turn, currentPlayer, check, checkMate, enPassantVulnerable, promoted)
    }

    /** new ChessMatch(): an 8 by 8 board, turn 1 and white to play, then initialSetup,
        which creates the 22 pieces of Layout, each of its placement's kind and colour,
        and places them in order. */
    constructor (rules: MoveRule)
      ensures Valid() && fresh(board) && fresh(board.cells) && this.rules == rules
      ensures |piecesOnTheBoard| == |Layout| && NoDups(piecesOnTheBoard) && Created(piecesOnTheBoard)
      ensures forall x <- piecesOnTheBoard :: fresh(x)
      ensures Setup(piecesOnTheBoard).Success? && State() == Setup(piecesOnTheBoard).value
    {
      board := new Board(Size, Size);
      this.rules := rules;
      turn := 1;
      currentPlayer := White;
      check := false;
      checkMate := false;
      enPassantVulnerable := null;
      promoted := null;
      piecesOnTheBoard := [];
      capturedPieces := [];
      pieces := {};
      new;
      assert PositionTable(pieces) == map[] && CountTable(pieces) == map[];
      InitialSetup();
    }

    /** ChessMatch.initialSetup: one placeNewPiece per entry of Layout, each with a piece
        created for it. */
    method InitialSetup()
      requires Valid() && State() == NewMatch() && pieces == {}
      modifies this, board, board.cells
      ensures Valid() && |piecesOnTheBoard| == |Layout| && NoDups(piecesOnTheBoard) && Created(piecesOnTheBoard)
      ensures forall x <- piecesOnTheBoard :: fresh(x)
      ensures Setup(piecesOnTheBoard).Success? && State() == Setup(piecesOnTheBoard).value
    {
      for i := 0 to |Layout|
        invariant Valid() && |piecesOnTheBoard| == i && NoDups(piecesOnTheBoard) && Created(piecesOnTheBoard)
        invariant forall x <- pieces :: fresh(x)
        invariant Setup(piecesOnTheBoard).Success? && State() == Setup(piecesOnTheBoard).value
      {
        var x := PlaceNext();
      }
    }

    /** One placeNewPiece of initialSetup: a piece of the next placement's kind and colour
        is created and placed on the placement's square. */
    method PlaceNext() returns (x: Piece)
      requires Valid() && |piecesOnTheBoard| < |Layout| && NoDups(piecesOnTheBoard) && Created(piecesOnTheBoard)
      requires Setup(piecesOnTheBoard).Success? && State() == Setup(piecesOnTheBoard).value
      modifies this, board, board.cells, pieces
      ensures fresh(x) && piecesOnTheBoard == old(piecesOnTheBoard) + [x] && pieces == old(pieces) + {x}
      ensures Valid() && NoDups(piecesOnTheBoard) && Created(piecesOnTheBoard)
      ensures Setup(piecesOnTheBoard).Success? && State() == Setup(piecesOnTheBoard).value
    {
      var e := Layout[|piecesOnTheBoard|];
      x := new Piece(e.kind, e.color);
      ghost var ps := piecesOnTheBoard;
      SetupNext(ps, x);
      CreatedNext(ps, x);
      var placed := PlaceNewPiece(e.column, e.rank, x);
      assert piecesOnTheBoard == ps + [x];
    }

    /** ChessMatch.placeNewPiece, for a piece just created: it is placed on the board
        and appended to piecesOnTheBoard. */
    method PlaceNewPiece(column: char, rank: int, x: Piece) returns (r: Result<()>)
      requires Valid() && x !in pieces && x.position == None && x.moveCount == 0
      modifies this, board, board.cells, pieces, x
      ensures Valid() && pieces == old(pieces) + {x}
      ensures var spec := MatchRules.PlaceNewPiece(old(State()), column, rank, x);
        && r == Status(spec)
        && (spec.Success? ==> State() == spec.value)
    {
      r := Introduce(x, ToPosition(column, rank));
    }

    /** A piece just created joins the match: it is placed on the square and appended to
        piecesOnTheBoard. */
    method Introduce(x: Piece, at: Position) returns (r: Result<()>)
      requires Valid() && x !in pieces && x.position == None && x.moveCount == 0
      modifies this, board, board.cells, pieces, x
      ensures Valid() && pieces == old(pieces) + {x}
      ensures var spec := PlaceAt(old(State()).(pos := old(State()).pos[x := None],
                                                count := old(State()).count[x := 0]), x, at);
        && r == Status(spec)
        && (spec.Success? ==> State() == spec.value.(onBoard := old(piecesOnTheBoard) + [x]))
    {
      pieces := pieces + {x};
      assert PositionTable(pieces) == old(PositionTable(pieces))[x := None];
      assert CountTable(pieces) == old(CountTable(pieces))[x := 0];
      r := Land(x, at);
      if r.Success? {
        Enlist(x);
      }
    }

    /** piecesOnTheBoard.add. */
    method Enlist(x: Piece)
      requires Valid() && x in pieces
      modifies this
      ensures Valid() && pieces == old(pieces)
      ensures State() == old(State()).(onBoard := old(piecesOnTheBoard) + [x])
    {
      piecesOnTheBoard := piecesOnTheBoard + [x];
      assert PositionTable(pieces) == old(PositionTable(pieces));
      assert CountTable(pieces) == old(CountTable(pieces));
    }

    /** piecesOnTheBoard.remove. */
    method Drop(x: Piece)
      requires Valid()
      modifies this
      ensures Valid() && pieces == old(pieces)
      ensures State() == old(State()).(onBoard := RemoveFirst(old(piecesOnTheBoard), x))
    {
      RemoveFirstWithin(piecesOnTheBoard, x);
      piecesOnTheBoard := RemoveFirst(piecesOnTheBoard, x);
      assert PositionTable(pieces) == old(PositionTable(pieces));
      assert CountTable(pieces) == old(CountTable(pieces));
    }

    /** Board.removePiece, as makeMove and undoMove call it. */
    method Lift(at: Position) returns (r: Result<Piece?>)
      requires Valid()
      modifies board, board.cells, pieces
      ensures Valid()
      ensures var spec := RemoveAt(old(State()), at);
        && r == Reported(spec)
        && State() == if spec.Success? then spec.value.1 else old(State())
    {
      if board.PositionExists(at) {
        assert board.cells[at.row, at.col] == At(board.G, at);
      }
      r := board.RemovePiece(at);
      if r.Failure? || r.value == null {
        if r.Success? {
          PutSame(old(board.G), at);
        }
        assert PositionTable(pieces) == old(PositionTable(pieces));
        assert CountTable(pieces) == old(CountTable(pieces));
      } else {
        var x := r.value;
        assert PositionTable(pieces) == old(PositionTable(pieces))[x := None];
        assert CountTable(pieces) == old(CountTable(pieces));
      }
    }

    /** Board.placePiece, as makeMove and undoMove call it. */
    method Land(x: Piece?, at: Position) returns (r: Result<()>)
      requires Valid() && (x != null ==> x in pieces)
      modifies board, board.cells, pieces
      ensures Valid()
      ensures var spec := PlaceAt(old(State()), x, at);
        && r == Status(spec)
        && State() == if spec.Success? then spec.value else old(State())
    {
      r := board.PlacePiece(x, at);
      if r.Failure? {
        assert PositionTable(pieces) == old(PositionTable(pieces));
        assert CountTable(pieces) == old(CountTable(pieces));
      } else {
        assert PositionTable(pieces) == old(PositionTable(pieces))[x := Some(at)];
        assert CountTable(pieces) == old(CountTable(pieces));
      }
    }

    /** Piece.increaseMoveCount (delta 1) and decreaseMoveCount (delta -1). */
    method BumpCount(x: Piece, delta: int)
      requires Valid() && x in pieces
      modifies x
      ensures Valid()
      ensures State() == Bump(old(State()), x, delta)
    {
      x.moveCount := x.moveCount + delta;
      assert PositionTable(pieces) == old(PositionTable(pieces));
      assert CountTable(pieces) == old(CountTable(pieces))[x := old(x.moveCount) + delta];
    }

    /** The capture block of makeMove: the piece leaves piecesOnTheBoard and joins
        capturedPieces. */
    method TakeOff(x: Piece)
      requires Valid()
      modifies this
      ensures Valid() && pieces == old(pieces)
      ensures State() == Capture(old(State()), x)
    {
      RemoveFirstWithin(piecesOnTheBoard, x);
      piecesOnTheBoard := RemoveFirst(piecesOnTheBoard, x);
      capturedPieces := capturedPieces + [x];
      assert PositionTable(pieces) == old(PositionTable(pieces));
      assert CountTable(pieces) == old(CountTable(pieces));
    }

    /** The first block of makeMove: the piece on the source moves to the target, counting
        one move more, and whatever stood there is captured. Reports the moved piece and
        the captured one. */
    method ShiftPiece(src: Position, tgt: Position) returns (r: Result<(Piece, Piece?)>)
      requires Valid()
      modifies this, board, board.cells, pieces
      ensures Valid() && pieces == old(pieces)
      ensures var spec := MatchRules.ShiftPiece(old(State()), src, tgt);
        && (r.Success? <==> spec.Success?)
        && (r.Failure? ==> r.error == spec.error)
        && (r.Success? ==> r.value.0 == At(old(board.G), src) && r.value.1 == spec.value.0
                           && State() == spec.value.1)
    {
      var lifted :- Lift(src);
      if lifted == null {
        return Failure(NullPointer);
      }
      var p: Piece := lifted;
      BumpCount(p, 1);
      var cap :- Settle(p, tgt);
      r := Success((p, cap));
    }

    /** The rest of that block: whatever stands on the target is lifted and captured,
        and the piece takes its place. */
    method Settle(p: Piece, tgt: Position) returns (r: Result<Piece?>)
      requires Valid() && p in pieces
      modifies this, board, board.cells, pieces
      ensures Valid() && pieces == old(pieces)
      ensures var spec := MatchRules.Settle(old(State()), p, tgt);
        && r == Reported(spec)
        && (spec.Success? ==> State() == spec.value.1)
    {
      var cap :- Lift(tgt);
      var placed := Land(p, tgt);
      if cap != null {
        TakeOff(cap);
      }
      r := Success(cap);
    }

    /** One castling rook move of makeMove or undoMove: the piece on `from` goes to `to`
        and its move count changes by delta. */
    method MoveRook(from: Position, to: Position, delta: int) returns (r: Result<()>)
      requires Valid()
      modifies board, board.cells, pieces
      ensures Valid()
      ensures var spec := MatchRules.MoveRook(old(State()), from, to, delta);
        && r == Status(spec)
        && (spec.Success? ==> State() == spec.value)
    {
      var rook :- Lift(from);
      var placed :- Land(rook, to);
      BumpCount(rook, delta);
      r := Success(());
    }

    /** The two castling blocks of makeMove. */
    method CastleRooks(src: Position) returns (r: Result<()>)
      requires Valid()
      modifies board, board.cells, pieces
      ensures Valid()
      ensures var spec := MatchRules.CastleRooks(old(State()), src);
        && r == Status(spec)
        && (spec.Success? ==> State() == spec.value)
    {
      var kingside :- MoveRook(Position(src.row, src.col + 3), Position(src.row, src.col + 1), 1);
      r := MoveRook(Position(src.row, src.col - 4), Position(src.row, src.col - 1), 1);
    }

    /** ChessMatch.makeMove: the captured piece, or null. */
    method MakeMove(src: Position, tgt: Position) returns (r: Result<Piece?>)
      requires Valid()
      modifies this, board, board.cells, pieces
      ensures Valid() && pieces == old(pieces)
      ensures var spec := MatchRules.MakeMove(old(State()), src, tgt);
        && r == Reported(spec)
        && (spec.Success? ==> State() == spec.value.1)
      ensures r.Success? && r.value != null ==> r.value in pieces
    {
      var shifted :- ShiftPiece(src, tgt);
      if CastlesRight(shifted.0, src, tgt) {
        var castled :- CastleRooks(src);
      }
      r := Success(shifted.1);
    }

    /** The capture block of undoMove: the captured piece stands on the target again,
        leaves capturedPieces and is appended to piecesOnTheBoard. */
    method Restore(cap: Piece, tgt: Position) returns (r: Result<()>)
      requires Valid() && cap in pieces
      modifies this, board, board.cells, pieces
      ensures Valid() && pieces == old(pieces)
      ensures var spec := MatchRules.Restore(old(State()), cap, tgt);
        && r == Status(spec)
        && (spec.Success? ==> State() == spec.value)
    {
      var placed :- Land(cap, tgt);
      capturedPieces := RemoveFirst(capturedPieces, cap);
      Enlist(cap);
      r := Success(());
    }

    /** The first block of undoMove: the piece on the target goes back to the source,
        counting one move less. Reports the piece. */
    method ReturnPiece(src: Position, tgt: Position) returns (r: Result<Piece>)
      requires Valid()
      modifies board, board.cells, pieces
      ensures Valid()
      ensures var spec := MatchRules.ReturnPiece(old(State()), src, tgt);
        && r == Reported(spec)
        && (spec.Success? ==> State() == spec.value.1)
    {
      var lifted :- Lift(tgt);
      if lifted == null {
        return Failure(NullPointer);
      }
      var p: Piece := lifted;
      BumpCount(p, -1);
      var placed :- Land(p, src);
      r := Success(p);
    }

    /** The en-passant block of undoMove: the piece on the target is put on row 3 (white
        mover) or 4 (black mover) of its column, taken off again and captured. */
    method UndoEnPassant(mover: Color, tgt: Position) returns (r: Result<()>)
      requires Valid()
      modifies this, board, board.cells, pieces
      ensures Valid() && pieces == old(pieces)
      ensures var spec := MatchRules.UndoEnPassant(old(State()), mover, tgt);
        && r == Status(spec)
        && (spec.Success? ==> State() == spec.value)
    {
      var pawn :- Lift(tgt);
      var pawnSquare := Position(if mover == White then 3 else 4, tgt.col);
      var placed :- Land(pawn, pawnSquare);
      // the pawn was just placed there, so it is taken off again
      var again := Lift(pawnSquare);
      var captured: Piece := again.value;
      TakeOff(captured);
      r := Success(());
    }

    /** The two castling blocks of undoMove. */
    method UncastleRooks(src: Position) returns (r: Result<()>)
      requires Valid()
      modifies board, board.cells, pieces
      ensures Valid()
      ensures var spec := MatchRules.UncastleRooks(old(State()), src);
        && r == Status(spec)
        && (spec.Success? ==> State() == spec.value)
    {
      var kingside :- MoveRook(Position(src.row, src.col + 1), Position(src.row, src.col + 3), 1);
      r := MoveRook(Position(src.row, src.col - 1), Position(src.row, src.col - 4), -1);
    }

    /** ChessMatch.undoMove. */
    method UndoMove(src: Position, tgt: Position, cap: Piece?) returns (r: Result<()>)
      requires Valid() && (cap != null ==> cap in pieces)
      modifies this, board, board.cells, pieces
      ensures Valid() && pieces == old(pieces)
      ensures var spec := MatchRules.UndoMove(old(State()), src, tgt, cap);
        && r == Status(spec)
        && (spec.Success? ==> State() == spec.value)
    {
      var p :- ReturnPiece(src, tgt);
      if cap != null {
        var restored :- Restore(cap, tgt);
      }
      if CastlesRight(p, src, tgt) {
        var uncastled :- UncastleRooks(src);
      }
      if p.kind == Pawn && src.col != tgt.col && cap == enPassantVulnerable {
        r := UndoEnPassant(p.color, tgt);
      } else {
        r := Success(());
      }
    }

    // ---- Move generation and validation -------------------------------------------

    /** The possibleMoves of a pawn, knight, bishop or rook: a fresh matrix marking the
        squares `rules` allows. A piece without a position cannot generate. */
    method RuleMoves(x: Piece) returns (r: Result<array2<bool>>)
      requires Valid() && x in pieces
      ensures x.position.None? ==> r == Failure(NullPointer)
      ensures x.position.Some? ==>
        (r.Success? && fresh(r.value) && r.value.Length0 == Size && r.value.Length1 == Size
         && MarksExactly(r.value, RuleTargets(rules, Probe(board.G, x, x.position.value, x.moveCount, enPassantVulnerable))))
    {
      if x.position.None? {
        return Failure(NullPointer);
      }
      var probe := Probe(board.Snapshot(), x, x.position.value, x.moveCount, enPassantVulnerable);
      var mat := new bool[Size, Size]((i, j) => rules(probe, Position(i, j)));
      r := Success(mat);
    }

    /** piece.possibleMoves(): a fresh 8 by 8 matrix marking exactly the squares MovesOf
        gives, or the error the generator raises. */
    method PossibleMovesOf(x: Piece) returns (r: Result<array2<bool>>)
      requires Valid() && x in pieces
      ensures var spec := MovesOf(State(), rules, x);
        && (r.Failure? <==> spec.Failure?)
        && (r.Failure? ==> r.error == spec.error)
        && (r.Success? ==> fresh(r.value) && r.value.Length0 == Size && r.value.Length1 == Size
                           && MarksExactly(r.value, spec.value))
    {
      assert PosOf(State(), x) == x.position && CountOf(State(), x) == x.moveCount;
      if x.kind == Queen {
        r := QueenPossibleMoves(board, x);
      } else if x.kind == King {
        r := KingPossibleMoves(board, x, check, CountTable(pieces));
      } else {
        r := RuleMoves(x);
      }
    }

    /** ChessMatch.validateSourcePosition: the checks run in order, and the last one asks
        the piece's matrix whether it marks anything. */
    method ValidateSource(at: Position) returns (r: Result<()>)
      requires Valid()
      ensures r == MatchRules.ValidateSource(State(), rules, at)
    {
      var occupied :- board.ThereIsAPiece(at);
      if !occupied {
        return Failure(NoPiece);
      }
      var x := board.PieceAt(at).value;
      if currentPlayer != x.color {
        return Failure(WrongColour);
      }
      var mat :- PossibleMovesOf(x);
      var any := AnyMarked(mat);
      MarksSome(mat, MovesOf(State(), rules, x).value, State(), rules, x);
      if !any {
        return Failure(NoMoves);
      }
      r := Success(());
    }

    /** ChessMatch.validateTargetPosition: the source piece's matrix must mark the target;
        reading the matrix outside its bounds is an index fault. */
    method ValidateTarget(src: Position, tgt: Position) returns (r: Result<()>)
      requires Valid()
      ensures r == MatchRules.ValidateTarget(State(), rules, src, tgt)
    {
      var x :- board.PieceAt(src);
      if x == null {
        return Failure(NullPointer);
      }
      var mat :- PossibleMovesOf(x);
      if !(0 <= tgt.row < mat.Length0 && 0 <= tgt.col < mat.Length1) {
        return Failure(IndexOutOfBounds);
      }
      if !mat[tgt.row, tgt.col] {
        return Failure(CantMove);
      }
      r := Success(());
    }

    /** ChessMatch.possibleMoves: validate the source, then the piece's matrix. */
    method PossibleMoves(at: Position) returns (r: Result<array2<bool>>)
      requires Valid()
      ensures var spec := MatchRules.PossibleMoves(State(), rules, at);
        && (r.Failure? <==> spec.Failure?)
        && (r.Failure? ==> r.error == spec.error)
        && (r.Success? ==> fresh(r.value) && r.value.Length0 == Size && r.value.Length1 == Size
                           && MarksExactly(r.value, spec.value))
    {
      var ok :- ValidateSource(at);
      var x := board.PieceAt(at).value;
      r := PossibleMovesOf(x);
    }

    // ---- Check and checkmate -----------------------------------------------------

    /** ChessMatch.king: the pieces of the colour, filtered from piecesOnTheBoard in
        order, are searched for the first king. */
    method FindKing(c: Color) returns (r: Result<Piece>)
      ensures r == KingOf(piecesOnTheBoard, c)
    {
      var pieceList := OfColor(piecesOnTheBoard, c);
      KingAmongColour(piecesOnTheBoard, c);
      var i := 0;
      while i < |pieceList|
        invariant 0 <= i <= |pieceList|
        invariant KingOf(pieceList, c) == KingOf(pieceList[i..], c)
      {
        assert pieceList[i] in pieceList;
        KingOfAt(pieceList, i, c);
        if pieceList[i].kind == King {
          return Success(pieceList[i]);
        }
        i := i + 1;
      }
      r := Failure(NoKing(c));
    }

    /** ChessMatch.testCheck: whether a piece of the other colour marks the square of
        the king of colour c. */
    method TestCheck(c: Color) returns (r: Result<bool>)
      requires Valid()
      ensures r == MatchRules.TestCheck(State(), rules, c)
    {
      var king :- FindKing(c);
      assert PosOf(State(), king) == king.position;
      if king.position.None? {
        return Failure(NullPointer);
      }
      var kp := king.position.value;
      var opponents := OfColor(piecesOnTheBoard, Opponent(c));
      var i := 0;
      while i < |opponents|
        invariant 0 <= i <= |opponents|
        invariant Attacked(State(), rules, opponents, kp) == Attacked(State(), rules, opponents[i..], kp)
      {
        assert opponents[i..][1..] == opponents[i + 1..];
        var mat :- PossibleMovesOf(opponents[i]);
        if !(0 <= kp.row < Size && 0 <= kp.col < Size) {
          return Failure(IndexOutOfBounds);
        }
        if mat[kp.row, kp.col] {
          return Success(true);
        }
        i := i + 1;
      }
      r := Success(false);
    }

    /** One trial of testCheckMate's inner loop: make the move, test whether c is still
        in check, undo the move. */
    method TryMove(c: Color, src: Position, tgt: Position) returns (r: Result<bool>)
      requires Valid()
      modifies this, board, board.cells, pieces
      ensures Valid() && pieces == old(pieces)
      ensures var spec := MatchRules.TryMove(old(State()), rules, c, src, tgt);
        && r == Reported(spec)
        && (spec.Success? ==> State() == spec.value.1)
    {
      var cap :- MakeMove(src, tgt);
      var stillInCheck :- TestCheck(c);
      var back :- UndoMove(src, tgt, cap);
      r := Success(stillInCheck);
    }

    /** The column loop of testCheckMate over row 0 of the first piece's matrix: each
        marked square is tried until one lifts the check; the loop's own test never
        stops it, so reading column 8 faults. */
    method ScanEscapes(c: Color, p: Piece, mat: array2<bool>, ghost moves: set<Position>)
      returns (r: Result<bool>)
      requires Valid() && p in pieces
      requires mat.Length0 == Size && mat.Length1 == Size && MarksExactly(mat, moves)
      modifies this, board, board.cells, pieces
      ensures Valid() && pieces == old(pieces)
      ensures var spec := EscapeScan(old(State()), rules, c, p, moves, 0);
        && r == Reported(spec)
        && (spec.Success? ==> State() == spec.value.1)
    {
      ghost var spec := EscapeScan(State(), rules, c, p, moves, 0);
      var j := 0;
      while true
        invariant Valid() && pieces == old(pieces) && 0 <= j <= Size
        invariant spec == EscapeScan(State(), rules, c, p, moves, j)
        decreases Size - j
      {
        if j >= Size {
          return Failure(IndexOutOfBounds);
        }
        var done, res := EscapeStep(c, p, j, mat[0, j], moves);
        if done {
          return res;
        }
        j := j + 1;
      }
    }

    /** One column of that loop: a marked square is tried, and the scan is done when the
        trial faults or lifts the check; otherwise it goes on at the next column. */
    method EscapeStep(c: Color, p: Piece, j: nat, marked: bool, ghost moves: set<Position>)
      returns (done: bool, r: Result<bool>)
      requires Valid() && p in pieces && j < Size && (marked <==> Position(0, j) in moves)
      modifies this, board, board.cells, pieces
      ensures Valid() && pieces == old(pieces)
      ensures var spec := EscapeScan(old(State()), rules, c, p, moves, j);
        && (done ==> r == Reported(spec) && (spec.Success? ==> State() == spec.value.1))
        && (!done ==> spec == EscapeScan(State(), rules, c, p, moves, j + 1))
    {
      done := false;
      r := Success(false);
      if marked {
        assert PosOf(State(), p) == p.position;
        if p.position.None? {
          return true, Failure(NullPointer);
        }
        var tried := TryMove(c, p.position.value, Position(0, j));
        if tried.Failure? {
          return true, Failure(tried.error);
        }
        if !tried.value {
          return true, Success(false);
        }
      }
    }

    /** ChessMatch.testCheckMate: not in check means no checkmate; otherwise the first
        piece of the other colour than c is searched for an escape, and with none of
        them on the board the answer is checkmate. */
    method TestCheckMate(c: Color) returns (r: Result<bool>)
      requires Valid()
      modifies this, board, board.cells, pieces
      ensures Valid() && pieces == old(pieces)
      ensures var spec := MatchRules.TestCheckMate(old(State()), rules, c);
        && r == Reported(spec)
        && (spec.Success? ==> State() == spec.value.1)
    {
      var inCheck :- TestCheck(c);
      if !inCheck {
        return Success(false);
      }
      var pieceList := OfColor(piecesOnTheBoard, Opponent(c));
      if |pieceList| == 0 {
        return Success(true);
      }
      var mat :- PossibleMovesOf(pieceList[0]);
      r := ScanEscapes(c, pieceList[0], mat, MovesOf(State(), rules, pieceList[0]).value);
    }

    /** ChessMatch.nextTurn. */
    method NextTurn()
      requires Valid()
      modifies this
      ensures Valid() && pieces == old(pieces)
      ensures State() == MatchRules.NextTurn(old(State()))
    {
      turn := turn + 1;
      currentPlayer := if currentPlayer == White then Black else White;
      assert PositionTable(pieces) == old(PositionTable(pieces));
      assert CountTable(pieces) == old(CountTable(pieces));
    }

    // ---- Promotion and a whole move ----------------------------------------------

    /** ChessMatch.replcePromotedPiece: the promoted piece leaves its square and
        piecesOnTheBoard, and a new piece of the type named takes its place. Reports the
        new piece, which is also the ghost q. */
    method ReplacePromotedPiece(t: string) returns (r: Result<Piece>, ghost q: Piece?)
      requires Valid()
      modifies this, board, board.cells, pieces
      ensures Valid()
      ensures q == null ==> pieces == old(pieces)
      ensures q != null ==> fresh(q) && pieces == old(pieces) + {q}
      ensures q != null ==> old(promoted) != null && NewPieceOf(q, t, old(promoted).color)
      ensures var spec := MatchRules.ReplacePromotedPiece(old(State()), t, q);
        && r == Reported(spec)
        && (spec.Success? ==> State() == spec.value.1)
    {
      q := null;
      if promoted == null {
        return Failure(NothingToPromote), null;
      }
      if !PromotionType(t) {
        return Failure(BadPromotion), null;
      }
      assert PosOf(State(), promoted) == promoted.position;
      if promoted.position.None? {
        return Failure(NullPointer), null;
      }
      var at := promoted.position.value;
      var lifted :- Unseat(at);
      var x := new Piece(PromotionKind(t), promoted.color);
      q := x;
      var placed := Introduce(x, at);
      r := Success(x);
    }

    /** The removal half of replcePromotedPiece: whatever stands on the square is lifted
        and, if anything was there, dropped from piecesOnTheBoard. */
    method Unseat(at: Position) returns (r: Result<()>)
      requires Valid()
      modifies this, board, board.cells, pieces
      ensures Valid() && pieces == old(pieces)
      ensures var spec := RemoveAt(old(State()), at);
        && (r.Success? <==> spec.Success?)
        && (r.Failure? ==> r.error == spec.error)
        && (spec.Success? ==> At(board.G, at) == null)
        && (spec.Success? && spec.value.0 == null ==> State() == spec.value.1)
        && (spec.Success? && spec.value.0 != null ==>
              State() == spec.value.1.(onBoard := RemoveFirst(spec.value.1.onBoard, spec.value.0)))
    {
      var p :- Lift(at);
      if p != null {
        Drop(p);
      }
      r := Success(());
    }

    /** The promotion block of performChessMove: the promoted piece is cleared, and a
        pawn that reached the far row is replaced by a queen, which becomes the promoted
        piece. */
    method Promotion(tgt: Position) returns (r: Result<()>, ghost q: Piece?)
      requires Valid() && 0 <= tgt.row < Size && 0 <= tgt.col < Size
      modifies this, board, board.cells, pieces
      ensures Valid()
      ensures q == null ==> pieces == old(pieces)
      ensures q != null ==> fresh(q) && pieces == old(pieces) + {q}
      ensures q != null ==> var g := old(State()).grid;
        InBounds(g, tgt) && At(g, tgt) != null && q.kind == Queen && q.color == At(g, tgt).color
      ensures var spec := MatchRules.Promotion(old(State()), tgt, q);
        && r == Status(spec)
        && (spec.Success? ==> State() == spec.value)
    {
      var moved := board.cells[tgt.row, tgt.col];
      assert moved == At(board.G, tgt);
      SetPromoted(null);
      q := null;
      r := Success(());
      if Promotes(moved, tgt) {
        SetPromoted(moved);
        r, q := PromoteQueen();
      }
    }

    /** The promotion step of performChessMove: the promoted pawn is replaced by a queen,
        which becomes the promoted piece. */
    method PromoteQueen() returns (r: Result<()>, ghost q: Piece?)
      requires Valid()
      modifies this, board, board.cells, pieces
      ensures Valid()
      ensures q == null ==> pieces == old(pieces)
      ensures q != null ==> fresh(q) && pieces == old(pieces) + {q}
      ensures q != null ==> old(promoted) != null && q.kind == Queen && q.color == old(promoted).color
      ensures var spec := MatchRules.PromoteQueen(old(State()), q);
        && r == Status(spec)
        && (spec.Success? ==> State() == spec.value)
    {
      var replaced;
      replaced, q := ReplacePromotedPiece("Q");
      var queen :- replaced;
      SetPromoted(queen);
      r := Success(());
    }

    /** promoted = ... */
    method SetPromoted(x: Piece?)
      requires Valid() && (x != null ==> x in pieces)
      modifies this
      ensures Valid() && pieces == old(pieces)
      ensures State() == old(State()).(promoted := x)
    {
      promoted := x;
      assert PositionTable(pieces) == old(PositionTable(pieces));
      assert CountTable(pieces) == old(CountTable(pieces));
    }

    /** The rest of performChessMove once the move stands: promotion, check, checkmate
        or the next turn, then the en-passant candidate. Reports the captured piece. */
    method Commit(src: Position, tgt: Position, cap: Piece?) returns (r: Result<Piece?>, ghost q: Piece?)
      requires Valid()
      modifies this, board, board.cells, pieces
      ensures Valid()
      ensures q != null ==> fresh(q)
      ensures q != null ==> var g := old(State()).grid;
        InBounds(g, tgt) && At(g, tgt) != null && q.kind == Queen && q.color == At(g, tgt).color
      ensures var spec := MatchRules.Commit(old(State()), rules, src, tgt, cap, q);
        && (spec.Success? ==> r == spec.value.result && State() == spec.value.state)
        && (spec.Failure? ==> r == Failure(spec.error))
    {
      q := null;
      var moved :- board.PieceAt(tgt);
      var promotedOk;
      promotedOk, q := Promotion(tgt);
      if promotedOk.Failure? {
        return Failure(promotedOk.error), q;
      }
      r := Conclude(src, tgt, cap, moved);
    }

    /** The end of performChessMove: the check flag, checkmate or the next turn, and the
        en-passant candidate. */
    method Conclude(src: Position, tgt: Position, cap: Piece?, moved: Piece?) returns (r: Result<Piece?>)
      requires Valid()
      modifies this, board, board.cells, pieces
      ensures Valid() && pieces == old(pieces)
      ensures var spec := MatchRules.Conclude(old(State()), rules, src, tgt, cap, moved);
        && (spec.Success? ==> r == spec.value.result && State() == spec.value.state)
        && (spec.Failure? ==> r == Failure(spec.error))
    {
      var inCheck :- TestCheck(Opponent(currentPlayer));
      SetCheck(inCheck);
      var mate :- TestCheckMate(Opponent(currentPlayer));
      CloseTurn(mate, EnPassantAfter(moved, src, tgt));
      r := Success(cap);
    }

    /** Checkmate is declared or the turn passes; then the en-passant candidate is set. */
    method CloseTurn(mate: bool, candidate: Piece?)
      requires Valid()
      modifies this
      ensures Valid() && pieces == old(pieces)
      ensures State() == (if mate then old(State()).(checkMate := true) else MatchRules.NextTurn(old(State())))
                           .(enPassant := candidate)
    {
      if mate {
        SetCheckMate();
      } else {
        NextTurn();
      }
      SetEnPassant(candidate);
    }

    /** check = ... */
    method SetCheck(v: bool)
      requires Valid()
      modifies this
      ensures Valid() && pieces == old(pieces)
      ensures State() == old(State()).(check := v)
    {
      check := v;
      assert PositionTable(pieces) == old(PositionTable(pieces));
      assert CountTable(pieces) == old(CountTable(pieces));
    }

    /** checkMate = true. */
    method SetCheckMate()
      requires Valid()
      modifies this
      ensures Valid() && pieces == old(pieces)
      ensures State() == old(State()).(checkMate := true)
    {
      checkMate := true;
      assert PositionTable(pieces) == old(PositionTable(pieces));
      assert CountTable(pieces) == old(CountTable(pieces));
    }

    /** enPassantVulnerable = ... */
    method SetEnPassant(x: Piece?)
      requires Valid()
      modifies this
      ensures Valid() && pieces == old(pieces)
      ensures State() == old(State()).(enPassant := x)
    {
      enPassantVulnerable := x;
      assert PositionTable(pieces) == old(PositionTable(pieces));
      assert CountTable(pieces) == old(CountTable(pieces));
    }

    /** ChessMatch.performChessMove, with q the queen a promotion creates: a failed
        validation changes nothing, a move that leaves the player in check is undone,
        and otherwise the move is committed. Reports the captured piece or the
        ChessException; a Failure of the model function is a runtime fault. */
    method PerformChessMove(src: Position, tgt: Position) returns (r: Result<Piece?>, ghost q: Piece?)
      requires Valid()
      modifies this, board, board.cells, pieces
      ensures Valid()
      ensures q != null ==> fresh(q)
      ensures q != null ==> var g := old(State()).grid;
        InBounds(g, src) && At(g, src) != null && q.kind == Queen && q.color == At(g, src).color
      ensures var spec := MatchRules.PerformChessMove(old(State()), rules, src, tgt, q);
        && (spec.Success? ==> r == spec.value.result && State() == spec.value.state)
        && (spec.Failure? ==> r == Failure(spec.error))
    {
      q := null;
      var sourceOk := ValidateSource(src);
      if sourceOk.Failure? {
        return Failure(sourceOk.error), null;
      }
      var targetOk := ValidateTarget(src, tgt);
      if targetOk.Failure? {
        return Failure(targetOk.error), null;
      }
      r, q := Attempt(src, tgt);
    }

    /** A validated move: made, then undone if it leaves the player in check, or
        committed. */
    method Attempt(src: Position, tgt: Position) returns (r: Result<Piece?>, ghost q: Piece?)
      requires Valid()
      modifies this, board, board.cells, pieces
      ensures Valid()
      ensures q != null ==> fresh(q)
      ensures q != null ==> var g := old(State()).grid;
        InBounds(g, src) && At(g, src) != null && q.kind == Queen && q.color == At(g, src).color
      ensures var spec := MatchRules.Attempt(old(State()), rules, src, tgt, q);
        && (spec.Success? ==> r == spec.value.result && State() == spec.value.state)
        && (spec.Failure? ==> r == Failure(spec.error))
    {
      q := null;
      ghost var before := State();
      var cap :- MakeMove(src, tgt);
      MatchProperties.MovedPieceLands(before, src, tgt);
      r, q := Judge(src, tgt, cap);
    }

    /** The move just made stands unless it leaves the current player in check. */
    method Judge(src: Position, tgt: Position, cap: Piece?) returns (r: Result<Piece?>, ghost q: Piece?)
      requires Valid() && (cap != null ==> cap in pieces)
      modifies this, board, board.cells, pieces
      ensures Valid()
      ensures q != null ==> fresh(q)
      ensures q != null ==> var g := old(State()).grid;
        InBounds(g, tgt) && At(g, tgt) != null && q.kind == Queen && q.color == At(g, tgt).color
      ensures var spec := MatchRules.Judge(old(State()), rules, src, tgt, cap, q);
        && (spec.Success? ==> r == spec.value.result && State() == spec.value.state)
        && (spec.Failure? ==> r == Failure(spec.error))
    {
      q := null;
      var selfCheck :- TestCheck(currentPlayer);
      if selfCheck {
        var back :- UndoMove(src, tgt, cap);
        return Failure(SelfCheck), null;
      }
      r, q := Commit(src, tgt, cap);
    }
  }

  /** The next placement of initialSetup, for a piece new to the match. */
  lemma SetupNext(ps: seq<Piece>, x: Piece)
    requires |ps| < |Layout| && NoDups(ps) && x !in ps
    ensures Setup(ps).Success? && NoDups(ps + [x]) && Setup(ps + [x]).Success?
    ensures Setup(ps + [x]) == MatchRules.PlaceNewPiece(Setup(ps).value, Layout[|ps|].column, Layout[|ps|].rank, x)
  {
    MatchInvariant.AppendNoDups(ps, x);
    MatchProperties.SetupCorrect(ps + [x]);
    assert (ps + [x])[..|ps|] == ps;
  }

  /** The next piece initialSetup creates, of its placement's kind and colour. */
  lemma CreatedNext(ps: seq<Piece>, x: Piece)
    requires |ps| < |Layout| && Created(ps)
    requires x.kind == Layout[|ps|].kind && x.color == Layout[|ps|].color
    ensures Created(ps + [x])
  {
    assert forall i :: 0 <= i < |ps| ==> (ps + [x])[i] == ps[i];
  }

  /** Removing an element from a list leaves only elements of the list. */
  lemma RemoveFirstWithin(xs: seq<Piece>, x: Piece)
    ensures forall y <- RemoveFirst(xs, x) :: y in xs
  {
    var rest := RemoveFirst(xs, x);
    forall y <- rest
      ensures y in xs
    {
      assert y in multiset(rest);
    }
  }

  /** Piece.isThereAnyPossibleMove: whether the matrix marks some square. */
  method AnyMarked(mat: array2<bool>) returns (b: bool)
    ensures b <==> exists i, j :: 0 <= i < mat.Length0 && 0 <= j < mat.Length1 && mat[i, j]
  {
    for i := 0 to mat.Length0
      invariant forall i', j :: 0 <= i' < i && 0 <= j < mat.Length1 ==> !mat[i', j]
    {
      for j := 0 to mat.Length1
        invariant forall j' :: 0 <= j' < j ==> !mat[i, j']
      {
        if mat[i, j] {
          return true;
        }
      }
    }
    return false;
  }

  /** Every square a piece's generator marks is on the board. */
  lemma MovesOnBoard(s: MatchState, rules: MoveRule, x: Piece, q: Position)
    requires MovesOf(s, rules, x).Success? && q in MovesOf(s, rules, x).value
    ensures InBounds(s.grid, q)
  {
    var at := PosOf(s, x).value;
    if x.kind == Queen {
      QueenTargetsShape(s.grid, at, x.color, q);
    } else if x.kind == King {
      KingTargetsEnterable(s.grid, s.count, at, x.color, CountOf(s, x), s.check, q);
    }
  }

  /** A matrix marking exactly a piece's squares on an 8 by 8 board marks something iff
      the piece has a square to go to. */
  lemma MarksSome(mat: array2<bool>, moves: set<Position>, s: MatchState, rules: MoveRule, x: Piece)
    requires IsRect(s.grid, Size, Size) && mat.Length0 == Size && mat.Length1 == Size
    requires MovesOf(s, rules, x).Success? && moves == MovesOf(s, rules, x).value
    requires MarksExactly(mat, moves)
    ensures moves != {} <==> exists i, j :: 0 <= i < mat.Length0 && 0 <= j < mat.Length1 && mat[i, j]
  {
    if moves != {} {
      var q :| q in moves;
      MovesOnBoard(s, rules, x, q);
      assert mat[q.row, q.col];
    }
  }

  /** One step of the search for the king, at a piece of the colour searched. */
  lemma KingOfAt(xs: seq<Piece>, i: nat, c: Color)
    requires i < |xs| && xs[i].color == c
    ensures KingOf(xs[i..], c) == if xs[i].kind == King then Success(xs[i]) else KingOf(xs[i + 1..], c)
  {
    assert xs[i..][1..] == xs[i + 1..];
  }

  /** The first king of a colour is the first king among the pieces of that colour. */
  lemma {:induction false} KingAmongColour(xs: seq<Piece>, c: Color)
    ensures KingOf(xs, c) == KingOf(OfColor(xs, c), c)
  {
    if |xs| > 0 {
      KingAmongColour(xs[1..], c);
      if xs[0].color == c {
        assert ([xs[0]] + OfColor(xs[1..], c))[1..] == OfColor(xs[1..], c);
      }
    }
  }
}
