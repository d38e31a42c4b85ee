/** The queen's move generator (chess.pieces.Queen): eight straight walks from the
    queen's square, each marking empty squares until it reaches the edge of the board
    or a piece, and marking that piece's square when it belongs to the opponent. */
module QueenPiece {
  import opened Outcomes
  import opened Boardgame

  /** One step along a line: a change of row and of column, each in {-1, 0, 1}. */
  datatype Direction = Direction(dr: int, dc: int)

  predicate IsUnit(d: Direction) {
    -1 <= d.dr <= 1 && -1 <= d.dc <= 1 && (d.dr != 0 || d.dc != 0)
  }

  function Step(p: Position, d: Direction): Position {
    Position(p.row + d.dr, p.col + d.dc)
  }

  /** How far k steps along one component of a unit direction move a coordinate. */
  function Scale(x: int, k: int): int {
    if x == 1 then k else if x == -1 then -k else 0
  }

  /** p moved k steps along d. */
  function Along(p: Position, d: Direction, k: int): Position {
    Position(p.row + Scale(d.dr, k), p.col + Scale(d.dc, k))
  }

  /** How many squares of the board remain ahead of p along d, counting p. */
  function Reach(g: Grid, p: Position, d: Direction): nat
    requires IsUnit(d)
  {
    if !InBounds(g, p) then 0
    else if d.dr == -1 then p.row + 1
    else if d.dr == 1 then |g| - p.row
    else if d.dc == -1 then p.col + 1
    else |g[p.row]| - p.col
  }

  /** The squares one walk marks, starting at p (the first square examined): every empty
      square up to the first occupied one, and that one too when it holds a piece of
      the other colour. */
  function Ray(g: Grid, p: Position, d: Direction, color: Color): set<Position>
    requires IsUnit(d)
    decreases Reach(g, p, d)
  {
    if !InBounds(g, p) then {}
    else if At(g, p) == null then {p} + Ray(g, Step(p, d), d, color)
    else if At(g, p).color != color then {p}
    else {}
  }

  /** The first k squares a walk from p along d examines are on the board and empty. */
  predicate ClearBefore(g: Grid, p: Position, d: Direction, k: int) {
    forall m :: 0 <= m < k ==> InBounds(g, Along(p, d, m)) && At(g, Along(p, d, m)) == null
  }

  const Up := Direction(-1, 0)
  const Down := Direction(1, 0)
  const Left := Direction(0, -1)
  const Right := Direction(0, 1)
  const NorthWest := Direction(-1, -1)
  const NorthEast := Direction(-1, 1)
  const SouthEast := Direction(1, 1)
  const SouthWest := Direction(1, -1)

  /** The squares Queen.possibleMoves marks for a queen of the given colour standing at
      `at`. The "left" and "right" walks start one row up, at (r-1, c-1) and (r-1, c+1),
      and keep to row r-1, as the source writes them. */
  function QueenTargets(g: Grid, at: Position, color: Color): set<Position> {
    var r := at.row;
    var c := at.col;
    Ray(g, Position(r - 1, c), Up, color)
    + Ray(g, Position(r - 1, c - 1), Left, color)
    + Ray(g, Position(r - 1, c + 1), Right, color)
    + Ray(g, Position(r + 1, c), Down, color)
    + Ray(g, Position(r - 1, c - 1), NorthWest, color)
    + Ray(g, Position(r - 1, c + 1), NorthEast, color)
    + Ray(g, Position(r + 1, c + 1), SouthEast, color)
    + Ray(g, Position(r + 1, c - 1), SouthWest, color)
  }

  /** Marks, in `mat`, the squares of one walk: the while loop and the opponent test
      that follows it, as each of the eight blocks of Queen.possibleMoves writes them. */
  method MarkRay(board: Board, mat: array2<bool>, start: Position, d: Direction, color: Color)
    requires board.Valid() && IsUnit(d)
    requires mat.Length0 == board.rows && mat.Length1 == board.cols
    modifies mat
    ensures forall i, j :: 0 <= i < mat.Length0 && 0 <= j < mat.Length1 ==>
      mat[i, j] == (old(mat[i, j]) || Position(i, j) in Ray(board.G, start, d, color))
  {
    var p := start;
    ghost var walked: set<Position> := {};
    while board.PositionExists(p) && !board.ThereIsAPiece(p).value
      invariant Ray(board.G, start, d, color) == walked + Ray(board.G, p, d, color)
      invariant forall i, j :: 0 <= i < mat.Length0 && 0 <= j < mat.Length1 ==>
        mat[i, j] == (old(mat[i, j]) || Position(i, j) in walked)
      decreases Reach(board.G, p, d)
    {
      mat[p.row, p.col] := true;
      walked := walked + {p};
      p := Step(p, d);
    }
    if board.PositionExists(p) {
      var opponent := IsThereOpponentPiece(board, color, p);
      if opponent.value {
        mat[p.row, p.col] := true;
      }
    }
  }

  /** Queen.possibleMoves: a fresh rows-by-cols matrix marking exactly QueenTargets. A
      queen that is not on the board has no position to start from. */
  method QueenPossibleMoves(board: Board, queen: Piece) returns (r: Result<array2<bool>>)
    requires board.Valid()
    ensures r.Failure? <==> queen.position.None?
    ensures r.Failure? ==> r.error == NullPointer
    ensures r.Success? ==> (fresh(r.value)
      && r.value.Length0 == board.rows && r.value.Length1 == board.cols
      && forall i, j :: 0 <= i < board.rows && 0 <= j < board.cols ==>
           (r.value[i, j] <==> Position(i, j) in QueenTargets(board.G, queen.position.value, queen.color)))
  {
    if queen.position.None? {
      return Failure(NullPointer);
    }
    var at := queen.position.value;
    var color := queen.color;
    var mat := new bool[board.rows, board.cols]((i, j) => false);
    MarkRay(board, mat, Position(at.row - 1, at.col), Up, color);
    MarkRay(board, mat, Position(at.row - 1, at.col - 1), Left, color);
    MarkRay(board, mat, Position(at.row - 1, at.col + 1), Right, color);
    MarkRay(board, mat, Position(at.row + 1, at.col), Down, color);
    MarkRay(board, mat, Position(at.row - 1, at.col - 1), NorthWest, color);
    MarkRay(board, mat, Position(at.row - 1, at.col + 1), NorthEast, color);
    MarkRay(board, mat, Position(at.row + 1, at.col + 1), SouthEast, color);
    MarkRay(board, mat, Position(at.row + 1, at.col - 1), SouthWest, color);
    r := Success(mat);
  }

  /** The square a walk along d counts its steps from: the queen's own square, except
      for the "left" and "right" walks, which the source starts one row up. */
  function WalkBase(at: Position, d: Direction): Position {
    if d == Left || d == Right then Position(at.row - 1, at.col) else at
  }

  predicate QueenDirection(d: Direction) {
    d == Up || d == Left || d == Right || d == Down
    || d == NorthWest || d == NorthEast || d == SouthEast || d == SouthWest
  }

  /** A walk marks only squares of the board, and none holding a piece of its own colour. */
  lemma {:induction false} RayEnterable(g: Grid, p: Position, d: Direction, color: Color, q: Position)
    requires IsUnit(d) && q in Ray(g, p, d, color)
    ensures Enterable(g, q, color)
    decreases Reach(g, p, d)
  {
    if InBounds(g, p) && At(g, p) == null && q != p {
      RayEnterable(g, Step(p, d), d, color, q);
    }
  }

  /** Everything a walk marks lies on its line, some k >= 0 steps from where it starts. */
  lemma {:induction false} RayOnLine(g: Grid, p: Position, d: Direction, color: Color, q: Position)
    returns (k: nat)
    requires IsUnit(d) && q in Ray(g, p, d, color)
    ensures q == Along(p, d, k)
    decreases Reach(g, p, d)
  {
    if q == p {
      k := 0;
    } else {
      var k1 := RayOnLine(g, Step(p, d), d, color, q);
      k := k1 + 1;
    }
  }

  /** One step then k steps is k + 1 steps. */
  lemma AlongStep(p: Position, d: Direction, k: int)
    requires IsUnit(d)
    ensures Along(Step(p, d), d, k) == Along(p, d, k + 1)
  {
  }

  /** A clear stretch of k >= 1 squares is a clear first square and a clear stretch of
      k - 1 squares after it. */
  lemma ClearBeforeSplit(g: Grid, p: Position, d: Direction, k: int)
    requires IsUnit(d) && k >= 1
    ensures ClearBefore(g, p, d, k) <==>
      InBounds(g, p) && At(g, p) == null && ClearBefore(g, Step(p, d), d, k - 1)
  {
    if ClearBefore(g, p, d, k) {
      ClearBeforeRest(g, p, d, k);
    }
    if InBounds(g, p) && At(g, p) == null && ClearBefore(g, Step(p, d), d, k - 1) {
      ClearBeforeJoin(g, p, d, k);
    }
  }

  lemma ClearBeforeRest(g: Grid, p: Position, d: Direction, k: int)
    requires IsUnit(d) && k >= 1 && ClearBefore(g, p, d, k)
    ensures InBounds(g, p) && At(g, p) == null && ClearBefore(g, Step(p, d), d, k - 1)
  {
    assert Along(p, d, 0) == p;
    forall m | 0 <= m < k - 1
      ensures InBounds(g, Along(Step(p, d), d, m)) && At(g, Along(Step(p, d), d, m)) == null
    {
      AlongStep(p, d, m);
      assert 0 <= m + 1 < k;
    }
  }

  lemma ClearBeforeJoin(g: Grid, p: Position, d: Direction, k: int)
    requires IsUnit(d) && k >= 1
    requires InBounds(g, p) && At(g, p) == null && ClearBefore(g, Step(p, d), d, k - 1)
    ensures ClearBefore(g, p, d, k)
  {
    forall m | 0 <= m < k
      ensures InBounds(g, Along(p, d, m)) && At(g, Along(p, d, m)) == null
    {
      if m == 0 {
        assert Along(p, d, 0) == p;
      } else {
        AlongStep(p, d, m - 1);
        assert 0 <= m - 1 < k - 1;
      }
    }
  }

  /** A square k >= 1 steps along a walk is marked iff the walk passes its first square,
      which is then empty, and the rest of the walk marks it. */
  lemma RayAfterFirst(g: Grid, p: Position, d: Direction, color: Color, k: int)
    requires IsUnit(d) && k >= 1
    ensures Along(p, d, k) in Ray(g, p, d, color) <==>
      InBounds(g, p) && At(g, p) == null && Along(Step(p, d), d, k - 1) in Ray(g, Step(p, d), d, color)
  {
    AlongStep(p, d, k - 1);
    assert Along(p, d, k) != p;
  }

  /** The first-blocker rule in closed form: the square k steps along a walk is marked iff
      the k squares before it are on the board and empty and it is itself on the board
      and empty or an opponent's. */
  lemma {:induction false} RayClosedForm(g: Grid, p: Position, d: Direction, color: Color, k: nat)
    requires IsUnit(d)
    ensures Along(p, d, k) in Ray(g, p, d, color) <==>
      ClearBefore(g, p, d, k) && Enterable(g, Along(p, d, k), color)
    decreases k
  {
    if k == 0 {
      assert Along(p, d, 0) == p;
    } else {
      RayClosedForm(g, Step(p, d), d, color, k - 1);
      RayAfterFirst(g, p, d, color, k);
      ClearBeforeSplit(g, p, d, k);
      AlongStep(p, d, k - 1);
    }
  }

  /** Every square the queen marks comes from one of its eight walks, and each walk's
      first square is one step from its base. */
  lemma InSomeRay(g: Grid, at: Position, color: Color, q: Position) returns (d: Direction)
    requires q in QueenTargets(g, at, color)
    ensures QueenDirection(d) && q in Ray(g, Step(WalkBase(at, d), d), d, color)
  {
    var r := at.row;
    var c := at.col;
    if q in Ray(g, Position(r - 1, c), Up, color) {
      d := Up;
    } else if q in Ray(g, Position(r - 1, c - 1), Left, color) {
      d := Left;
    } else if q in Ray(g, Position(r - 1, c + 1), Right, color) {
      d := Right;
    } else if q in Ray(g, Position(r + 1, c), Down, color) {
      d := Down;
    } else if q in Ray(g, Position(r - 1, c - 1), NorthWest, color) {
      d := NorthWest;
    } else if q in Ray(g, Position(r - 1, c + 1), NorthEast, color) {
      d := NorthEast;
    } else if q in Ray(g, Position(r + 1, c + 1), SouthEast, color) {
      d := SouthEast;
    } else {
      d := SouthWest;
      assert q in Ray(g, Position(r + 1, c - 1), SouthWest, color);
    }
    assert Step(WalkBase(at, d), d) == Position(WalkBase(at, d).row + d.dr, WalkBase(at, d).col + d.dc);
  }

  /** Conversely, each walk's marks belong to the queen's. */
  lemma FromSomeRay(g: Grid, at: Position, color: Color, d: Direction, q: Position)
    requires QueenDirection(d) && q in Ray(g, Step(WalkBase(at, d), d), d, color)
    ensures q in QueenTargets(g, at, color)
  {
  }

  /** A square of a queen's walk, k >= 1 steps from the walk base along d, is on no other
      walk, except the first square of "left" ("right"), which is also the first square of
      the north-west (north-east) walk. */
  lemma OnlyOwnWalk(g: Grid, at: Position, color: Color, d: Direction, k: nat)
    requires QueenDirection(d) && k >= 1
    requires Along(WalkBase(at, d), d, k) in QueenTargets(g, at, color)
    ensures Along(WalkBase(at, d), d, k) in Ray(g, Step(WalkBase(at, d), d), d, color)
  {
    var q := Along(WalkBase(at, d), d, k);
    var e := InSomeRay(g, at, color, q);
    var s := Step(WalkBase(at, e), e);
    var k1 := RayOnLine(g, s, e, color, q);
    if e != d {
      RayEnterable(g, s, e, color, q);
      // the two lines meet only at the first square of the walk along d
      assert q == Step(WalkBase(at, d), d);
    }
  }

  /** The clear stretch of a walk that starts one step from b, in steps counted from b. */
  predicate ClearBetween(g: Grid, b: Position, d: Direction, k: int) {
    forall m :: 1 <= m < k ==> InBounds(g, Along(b, d, m)) && At(g, Along(b, d, m)) == null
  }

  lemma ClearFromBase(g: Grid, b: Position, d: Direction, k: int)
    requires IsUnit(d)
    ensures ClearBefore(g, Step(b, d), d, k - 1) <==> ClearBetween(g, b, d, k)
  {
    if ClearBefore(g, Step(b, d), d, k - 1) {
      forall m | 1 <= m < k
        ensures InBounds(g, Along(b, d, m)) && At(g, Along(b, d, m)) == null
      {
        AlongStep(b, d, m - 1);
      }
    }
    if ClearBetween(g, b, d, k) {
      forall m | 0 <= m < k - 1
        ensures InBounds(g, Along(Step(b, d), d, m)) && At(g, Along(Step(b, d), d, m)) == null
      {
        AlongStep(b, d, m);
      }
    }
  }

  /** The first-blocker rule for each of the queen's eight walks, stated on the whole
      matrix: the square k >= 1 steps from the walk base along d is marked iff the squares
      1 .. k-1 steps along are on the board and empty and it is itself on the board and
      empty or an opponent's. For the column and the four diagonals the base is the
      queen's square; for "left" and "right" it is the square above the queen, so those
      walks run along row r-1. */
  lemma QueenWalk(g: Grid, at: Position, color: Color, d: Direction, k: nat)
    requires QueenDirection(d) && k >= 1
    ensures Along(WalkBase(at, d), d, k) in QueenTargets(g, at, color) <==>
      ClearBetween(g, WalkBase(at, d), d, k) && Enterable(g, Along(WalkBase(at, d), d, k), color)
  {
    var b := WalkBase(at, d);
    var q := Along(b, d, k);
    assert q in Ray(g, Step(b, d), d, color) <==> ClearBetween(g, b, d, k) && Enterable(g, q, color) by {
      RayClosedForm(g, Step(b, d), d, color, k - 1);
      AlongStep(b, d, k - 1);
      ClearFromBase(g, b, d, k);
    }
    if q in QueenTargets(g, at, color) {
      OnlyOwnWalk(g, at, color, d, k);
    } else if q in Ray(g, Step(b, d), d, color) {
      FromSomeRay(g, at, color, d, q);
    }
  }

  /** Nothing beyond the first occupied square of a walk is marked. */
  lemma QueenStopsAtBlocker(g: Grid, at: Position, color: Color, d: Direction, b: nat, k: nat)
    requires QueenDirection(d) && 1 <= b < k
    requires InBounds(g, Along(WalkBase(at, d), d, b)) && At(g, Along(WalkBase(at, d), d, b)) != null
    ensures Along(WalkBase(at, d), d, k) !in QueenTargets(g, at, color)
  {
    QueenWalk(g, at, color, d, k);
  }

  /** The queen marks only squares of the board that are empty or an opponent's; since
      every walk starts a row away from the queen's own row, nothing in row r is marked,
      the queen's own square included. */
  lemma QueenTargetsShape(g: Grid, at: Position, color: Color, q: Position)
    requires q in QueenTargets(g, at, color)
    ensures Enterable(g, q, color)
    ensures q.row != at.row
  {
    var d := InSomeRay(g, at, color, q);
    var s := Step(WalkBase(at, d), d);
    var k := RayOnLine(g, s, d, color, q);
    RayEnterable(g, s, d, color, q);
  }
}
