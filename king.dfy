/** The king's move generator (chess.pieces.King): the eight neighbouring squares, plus
    the two castling squares when the king has not moved and the match is not in check. */
module KingPiece {
  import opened Outcomes
  import opened Boardgame

  /** The move count of a piece, from a table of counts; pieces the table does not list
      count as never moved. */
  function CountIn(counts: map<Piece, int>, x: Piece): int {
    if x in counts then counts[x] else 0
  }

  /** King.canMove: the square is empty or holds a piece of the other colour. Looking up
      a square off the board is an error. */
  function CanMove(g: Grid, color: Color, q: Position): (r: Result<bool>)
    ensures r.Failure? <==> !InBounds(g, q)
  {
    if !InBounds(g, q) then Failure(PositionNotFound)
    else Success(At(g, q) == null || At(g, q).color != color)
  }

  /** King.testRookCastling: the square holds a rook of the king's colour that has never
      moved. Looking up a square off the board is an error. */
  function RookReady(g: Grid, counts: map<Piece, int>, color: Color, q: Position): (r: Result<bool>)
    ensures r.Failure? <==> !InBounds(g, q)
  {
    if !InBounds(g, q) then Failure(PositionNotFound)
    else
      var x := At(g, q);
      Success(x != null && x.kind == Rook && x.color == color && CountIn(counts, x) == 0)
  }

  /** Board.piece(q) == null, with the lookup's bounds check. */
  function Empty(g: Grid, q: Position): (r: Result<bool>)
    ensures r.Failure? <==> !InBounds(g, q)
  {
    if !InBounds(g, q) then Failure(PositionNotFound) else Success(At(g, q) == null)
  }

  /** The kingside emptiness test: (r, c+1), then (r, c+2) only when the first is empty. */
  function KingsidePathEmpty(g: Grid, at: Position): Result<bool> {
    var e1 :- Empty(g, Position(at.row, at.col + 1));
    if !e1 then Success(false) else Empty(g, Position(at.row, at.col + 2))
  }

  /** The queenside emptiness test: (r, c-1), (r, c-2), (r, c-3), each looked up only when
      the ones before it are empty. */
  function QueensidePathEmpty(g: Grid, at: Position): Result<bool> {
    var e1 :- Empty(g, Position(at.row, at.col - 1));
    if !e1 then Success(false)
    else
      var e2 :- Empty(g, Position(at.row, at.col - 2));
      if !e2 then Success(false) else Empty(g, Position(at.row, at.col - 3))
  }

  /** The kingside block: (r, c+2) is marked when (r, c+3) holds an unmoved rook of the
      king's colour and the two squares between are empty. */
  function KingsideCastle(g: Grid, counts: map<Piece, int>, at: Position, color: Color): Result<bool> {
    var ready :- RookReady(g, counts, color, Position(at.row, at.col + 3));
    if ready then KingsidePathEmpty(g, at) else Success(false)
  }

  /** The queenside block as written: (r, c-2) is marked when the kingside rook square
      (r, c+3) passes the rook test and the three squares left of the king are empty. */
  function QueensideCastle(g: Grid, counts: map<Piece, int>, at: Position, color: Color): Result<bool> {
    var ready :- RookReady(g, counts, color, Position(at.row, at.col + 3));
    if ready then QueensidePathEmpty(g, at) else Success(false)
  }

  /** The eight squares around p. */
  function Neighbours(p: Position): set<Position> {
    var r := p.row;
    var c := p.col;
    {Position(r - 1, c), Position(r + 1, c), Position(r, c - 1), Position(r, c + 1),
     Position(r - 1, c - 1), Position(r - 1, c + 1), Position(r + 1, c - 1), Position(r + 1, c + 1)}
  }

  /** The neighbours a king of the given colour may step to. */
  function Steps(g: Grid, at: Position, color: Color): set<Position> {
    set q | q in Neighbours(at) && InBounds(g, q) && CanMove(g, color, q) == Success(true)
  }

  /** The squares King.possibleMoves marks for a king of the given colour at `at` whose own
      move count is ownCount, while the match's check flag is `check`. When the castling
      gate is open the lookups of (r, c+3) and of the path squares may fall off the board,
      which is an error. As the source writes it, the queenside test looks at the rook
      square (r, c+3) of the kingside test again; (r, c-4) is never examined. */
  function KingTargets(g: Grid, counts: map<Piece, int>, at: Position, color: Color,
                       ownCount: int, check: bool): Result<set<Position>>
  {
    var near := Steps(g, at, color);
    if ownCount != 0 || check then Success(near)
    else
      var castling :- CastleTargets(g, counts, at, color);
      Success(near + castling)
  }

  /** The squares the two castling blocks mark, or the error one of their lookups raises. */
  function CastleTargets(g: Grid, counts: map<Piece, int>, at: Position, color: Color): Result<set<Position>> {
    var kingside :- KingsideCastle(g, counts, at, color);
    var queenside :- QueensideCastle(g, counts, at, color);
    Success((if kingside then {Position(at.row, at.col + 2)} else {})
            + (if queenside then {Position(at.row, at.col - 2)} else {}))
  }

  /** The move counts the heap holds, as the table `counts` records them for every piece
      on the board. */
  ghost predicate CountsAgree(board: Board, counts: map<Piece, int>)
    reads board, board.cells, set q | InBounds(board.G, q) && At(board.G, q) != null :: At(board.G, q)
    requires board.Valid()
  {
    forall q :: InBounds(board.G, q) && At(board.G, q) != null ==>
      At(board.G, q) in counts && counts[At(board.G, q)] == At(board.G, q).moveCount
  }

  /** `mat` marks exactly the squares of S a king of the given colour can move to. */
  ghost predicate Marked(mat: array2<bool>, g: Grid, color: Color, S: set<Position>)
    reads mat
  {
    forall i, j {:trigger mat[i, j]} :: 0 <= i < mat.Length0 && 0 <= j < mat.Length1 ==>
      (mat[i, j] <==> Position(i, j) in S && CanMove(g, color, Position(i, j)) == Success(true))
  }

  /** `mat` marks exactly the squares of S. */
  ghost predicate MarksExactly(mat: array2<bool>, S: set<Position>)
    reads mat
  {
    forall i, j :: 0 <= i < mat.Length0 && 0 <= j < mat.Length1 ==> (mat[i, j] <==> Position(i, j) in S)
  }

  /** Once every neighbour has had its guarded assignment, `mat` marks exactly the king's
      steps. */
  lemma StepsMarked(mat: array2<bool>, g: Grid, at: Position, color: Color)
    requires IsRect(g, mat.Length0, mat.Length1)
    requires Marked(mat, g, color, Neighbours(at))
    ensures MarksExactly(mat, Steps(g, at, color))
  {
    forall i, j | 0 <= i < mat.Length0 && 0 <= j < mat.Length1
      ensures mat[i, j] <==> Position(i, j) in Steps(g, at, color)
    {
      assert InBounds(g, Position(i, j));
    }
  }

  /** One of the eight guarded assignments: marks q when it is on the board and the king
      can move there. */
  method MarkStep(board: Board, mat: array2<bool>, q: Position, color: Color, ghost S: set<Position>)
    requires board.Valid()
    requires mat.Length0 == board.rows && mat.Length1 == board.cols
    requires Marked(mat, board.G, color, S)
    modifies mat
    ensures Marked(mat, board.G, color, S + {q})
  {
    if board.PositionExists(q) {
      var x := board.PieceAt(q);
      if x.value == null || x.value.color != color {
        mat[q.row, q.col] := true;
      }
    }
  }

  /** The eight guarded assignments of King.possibleMoves, marking the king's steps. */
  method MarkSteps(board: Board, mat: array2<bool>, at: Position, color: Color)
    requires board.Valid()
    requires mat.Length0 == board.rows && mat.Length1 == board.cols
    requires Marked(mat, board.G, color, {})
    modifies mat
    ensures Marked(mat, board.G, color, Neighbours(at))
  {
    MarkOrthogonal(board, mat, at, color);
    MarkDiagonal(board, mat, at, color);
    assert Orthogonal(at) + Diagonal(at) == Neighbours(at);
  }

  /** Above, below, left and right of p. */
  function Orthogonal(p: Position): set<Position> {
    {Position(p.row - 1, p.col), Position(p.row + 1, p.col), Position(p.row, p.col - 1), Position(p.row, p.col + 1)}
  }

  /** The four diagonal neighbours of p. */
  function Diagonal(p: Position): set<Position> {
    {Position(p.row - 1, p.col - 1), Position(p.row - 1, p.col + 1), Position(p.row + 1, p.col - 1), Position(p.row + 1, p.col + 1)}
  }

  /** The first four guarded assignments: above, below, left, right. */
  method MarkOrthogonal(board: Board, mat: array2<bool>, at: Position, color: Color)
    requires board.Valid()
    requires mat.Length0 == board.rows && mat.Length1 == board.cols
    requires Marked(mat, board.G, color, {})
    modifies mat
    ensures Marked(mat, board.G, color, Orthogonal(at))
  {
    var row := at.row;
    var col := at.col;
    MarkStep(board, mat, Position(row - 1, col), color, {});
    MarkStep(board, mat, Position(row + 1, col), color, {Position(row - 1, col)});
    MarkStep(board, mat, Position(row, col - 1), color, {Position(row - 1, col), Position(row + 1, col)});
    MarkStep(board, mat, Position(row, col + 1), color,
             {Position(row - 1, col), Position(row + 1, col), Position(row, col - 1)});
  }

  /** The last four guarded assignments: NW, NE, SW, SE. */
  method MarkDiagonal(board: Board, mat: array2<bool>, at: Position, color: Color)
    requires board.Valid()
    requires mat.Length0 == board.rows && mat.Length1 == board.cols
    requires Marked(mat, board.G, color, Orthogonal(at))
    modifies mat
    ensures Marked(mat, board.G, color, Orthogonal(at) + Diagonal(at))
  {
    var row := at.row;
    var col := at.col;
    var S := Orthogonal(at);
    MarkStep(board, mat, Position(row - 1, col - 1), color, S);
    S := S + {Position(row - 1, col - 1)};
    MarkStep(board, mat, Position(row - 1, col + 1), color, S);
    S := S + {Position(row - 1, col + 1)};
    MarkStep(board, mat, Position(row + 1, col - 1), color, S);
    S := S + {Position(row + 1, col - 1)};
    MarkStep(board, mat, Position(row + 1, col + 1), color, S);
    assert S + {Position(row + 1, col + 1)} == Orthogonal(at) + Diagonal(at);
  }

  /** King.testRookCastling on the heap: the rook's move count is read from the piece. */
  method TestRookCastling(board: Board, q: Position, color: Color, ghost counts: map<Piece, int>)
    returns (r: Result<bool>)
    requires board.Valid() && CountsAgree(board, counts)
    ensures r == RookReady(board.G, counts, color, q)
  {
    var x :- board.PieceAt(q);
    return Success(x != null && x.kind == Rook && x.color == color && x.moveCount == 0);
  }

  /** The kingside block of King.possibleMoves, marking (r, c+2) in `mat`. */
  method MarkKingside(board: Board, mat: array2<bool>, at: Position, color: Color,
                      ghost counts: map<Piece, int>, ghost S: set<Position>)
    returns (r: Result<()>)
    requires board.Valid() && CountsAgree(board, counts)
    requires mat.Length0 == board.rows && mat.Length1 == board.cols
    requires MarksExactly(mat, S)
    modifies mat
    ensures var spec := KingsideCastle(board.G, counts, at, color);
      && (r.Failure? <==> spec.Failure?)
      && (r.Failure? ==> r.error == spec.error)
      && (r.Success? ==> MarksExactly(mat, S + if spec.value then {Position(at.row, at.col + 2)} else {}))
  {
    var ready :- TestRookCastling(board, Position(at.row, at.col + 3), color, counts);
    if ready {
      var e1 :- board.PieceAt(Position(at.row, at.col + 1));
      if e1 == null {
        // (r, c+1) and (r, c+3) are on the board, so (r, c+2) is too
        var e2 := board.PieceAt(Position(at.row, at.col + 2));
        if e2.value == null {
          mat[at.row, at.col + 2] := true;
        }
      }
    }
    r := Success(());
  }

  /** The queenside block of King.possibleMoves, marking (r, c-2) in `mat`. */
  method MarkQueenside(board: Board, mat: array2<bool>, at: Position, color: Color,
                       ghost counts: map<Piece, int>, ghost S: set<Position>)
    returns (r: Result<()>)
    requires board.Valid() && CountsAgree(board, counts)
    requires mat.Length0 == board.rows && mat.Length1 == board.cols
    requires MarksExactly(mat, S)
    modifies mat
    ensures var spec := QueensideCastle(board.G, counts, at, color);
      && (r.Failure? <==> spec.Failure?)
      && (r.Failure? ==> r.error == spec.error)
      && (r.Success? ==> MarksExactly(mat, S + if spec.value then {Position(at.row, at.col - 2)} else {}))
  {
    var ready :- TestRookCastling(board, Position(at.row, at.col + 3), color, counts);
    if ready {
      var e1 :- board.PieceAt(Position(at.row, at.col - 1));
      if e1 == null {
        var e2 :- board.PieceAt(Position(at.row, at.col - 2));
        if e2 == null {
          var e3 :- board.PieceAt(Position(at.row, at.col - 3));
          if e3 == null {
            mat[at.row, at.col - 2] := true;
          }
        }
      }
    }
    r := Success(());
  }

  /** The two castling blocks of King.possibleMoves, adding CastleTargets to the marks. */
  method MarkCastling(board: Board, mat: array2<bool>, at: Position, color: Color,
                      ghost counts: map<Piece, int>, ghost S: set<Position>)
    returns (r: Result<()>)
    requires board.Valid() && CountsAgree(board, counts)
    requires mat.Length0 == board.rows && mat.Length1 == board.cols
    requires MarksExactly(mat, S)
    modifies mat
    ensures var spec := CastleTargets(board.G, counts, at, color);
      && (r.Failure? <==> spec.Failure?)
      && (r.Failure? ==> r.error == spec.error)
      && (r.Success? ==> MarksExactly(mat, S + spec.value))
  {
    var _ :- MarkKingside(board, mat, at, color, counts, S);
    ghost var kingside := KingsideCastle(board.G, counts, at, color).value;
    ghost var S1 := S + if kingside then {Position(at.row, at.col + 2)} else {};
    var _ :- MarkQueenside(board, mat, at, color, counts, S1);
    r := Success(());
  }

  /** King.possibleMoves: a fresh rows-by-cols matrix marking exactly KingTargets, or the
      error one of the castling lookups raises. The king's own move count and position
      are read from the piece, the check flag is the match's. */
  method KingPossibleMoves(board: Board, king: Piece, check: bool, ghost counts: map<Piece, int>)
    returns (r: Result<array2<bool>>)
    requires board.Valid() && CountsAgree(board, counts)
    ensures king.position.None? ==> r == Failure(NullPointer)
    ensures king.position.Some? ==>
      var spec := KingTargets(board.G, counts, king.position.value, king.color, king.moveCount, check);
      && (r.Failure? <==> spec.Failure?)
      && (r.Failure? ==> r.error == spec.error)
      && (r.Success? ==> (fresh(r.value)
           && r.value.Length0 == board.rows && r.value.Length1 == board.cols
           && MarksExactly(r.value, spec.value)))
  {
    if king.position.None? {
      return Failure(NullPointer);
    }
    var at := king.position.value;
    var color := king.color;
    var mat := new bool[board.rows, board.cols]((i, j) => false);
    assert Marked(mat, board.G, color, {});
    MarkSteps(board, mat, at, color);
    StepsMarked(mat, board.G, at, color);
    if king.moveCount == 0 && !check {
      var _ :- MarkCastling(board, mat, at, color, counts, Steps(board.G, at, color));
    }
    r := Success(mat);
  }

  /** The castling gate is open: the king has not moved and the match is not in check. */
  predicate GateOpen(ownCount: int, check: bool) {
    ownCount == 0 && !check
  }

  /** Each of the eight neighbours is marked iff it is on the board and empty or an
      opponent's. */
  lemma KingStepRule(g: Grid, counts: map<Piece, int>, at: Position, color: Color, ownCount: int,
                     check: bool, q: Position)
    requires q in Neighbours(at)
    requires KingTargets(g, counts, at, color, ownCount, check).Success?
    ensures q in KingTargets(g, counts, at, color, ownCount, check).value <==> Enterable(g, q, color)
  {
    assert q != Position(at.row, at.col + 2) && q != Position(at.row, at.col - 2);
  }

  /** With the gate closed (the king has moved, or the match is in check) only neighbours
      can be marked, and no lookup can fail. */
  lemma KingGateClosed(g: Grid, counts: map<Piece, int>, at: Position, color: Color, ownCount: int, check: bool)
    requires !GateOpen(ownCount, check)
    ensures KingTargets(g, counts, at, color, ownCount, check).Success?
    ensures KingTargets(g, counts, at, color, ownCount, check).value <= Neighbours(at)
  {
  }

  /** Kingside castling: with the gate open, (r, c+2) is marked iff (r, c+3) holds an
      unmoved rook of the king's colour and (r, c+1) and (r, c+2) are empty. */
  lemma KingsideRule(g: Grid, counts: map<Piece, int>, at: Position, color: Color)
    requires KingTargets(g, counts, at, color, 0, false).Success?
    ensures var rook := Position(at.row, at.col + 3);
      Position(at.row, at.col + 2) in KingTargets(g, counts, at, color, 0, false).value <==>
        InBounds(g, rook) && At(g, rook) != null && At(g, rook).kind == Rook
        && At(g, rook).color == color && CountIn(counts, At(g, rook)) == 0
        && InBounds(g, Position(at.row, at.col + 1)) && At(g, Position(at.row, at.col + 1)) == null
        && InBounds(g, Position(at.row, at.col + 2)) && At(g, Position(at.row, at.col + 2)) == null
  {
    assert Position(at.row, at.col + 2) !in Neighbours(at);
  }

  /** Queenside castling as written: with the gate open, (r, c-2) is marked iff the same
      kingside rook test on (r, c+3) passes and (r, c-1), (r, c-2), (r, c-3) are empty.
      The square (r, c-4), where the queenside rook stands, plays no part. */
  lemma QueensideRuleAsWritten(g: Grid, counts: map<Piece, int>, at: Position, color: Color)
    requires KingTargets(g, counts, at, color, 0, false).Success?
    ensures var rook := Position(at.row, at.col + 3);
      Position(at.row, at.col - 2) in KingTargets(g, counts, at, color, 0, false).value <==>
        InBounds(g, rook) && At(g, rook) != null && At(g, rook).kind == Rook
        && At(g, rook).color == color && CountIn(counts, At(g, rook)) == 0
        && InBounds(g, Position(at.row, at.col - 1)) && At(g, Position(at.row, at.col - 1)) == null
        && InBounds(g, Position(at.row, at.col - 2)) && At(g, Position(at.row, at.col - 2)) == null
        && InBounds(g, Position(at.row, at.col - 3)) && At(g, Position(at.row, at.col - 3)) == null
  {
    assert Position(at.row, at.col - 2) !in Neighbours(at);
  }

  /** The king never marks a square off the board or one holding a piece of its own
      colour; the castling squares it marks are empty. */
  lemma KingTargetsEnterable(g: Grid, counts: map<Piece, int>, at: Position, color: Color,
                             ownCount: int, check: bool, q: Position)
    requires KingTargets(g, counts, at, color, ownCount, check).Success?
    requires q in KingTargets(g, counts, at, color, ownCount, check).value
    ensures Enterable(g, q, color)
    ensures q !in Neighbours(at) ==> At(g, q) == null
  {
  }

  /** The lookups the open gate makes: (r, c+3) must be on the board, and once the rook
      test there passes, the queenside path must be too as far as it is examined; with
      the king's row on the board from c-3 to c+3 nothing fails. */
  lemma KingTargetsFailure(g: Grid, counts: map<Piece, int>, at: Position, color: Color)
    ensures !InBounds(g, Position(at.row, at.col + 3)) ==>
      KingTargets(g, counts, at, color, 0, false) == Failure(PositionNotFound)
    ensures RookReady(g, counts, color, Position(at.row, at.col + 3)) == Success(true)
            && InBounds(g, Position(at.row, at.col + 1))
            && !InBounds(g, Position(at.row, at.col - 1)) ==>
      KingTargets(g, counts, at, color, 0, false) == Failure(PositionNotFound)
    ensures InBounds(g, Position(at.row, at.col - 3)) && InBounds(g, Position(at.row, at.col + 3)) ==>
      KingTargets(g, counts, at, color, 0, false).Success?
  {
  }
}
