/** The board game layer: positions, pieces and the rows-by-columns grid of optional
    pieces (boardgame.Board). No chess rule lives here. */
module Boardgame {
  import opened Outcomes

  datatype Color = White | Black

  /** The piece variant, standing for the subclass of chess.ChessPiece. */
  datatype Kind = Pawn | Knight | Bishop | Rook | Queen | King

  /** A (row, column) coordinate, zero-based; it may lie off the board. */
  datatype Position = Position(row: int, col: int)

  const PositionNotFound := BoardError("Position not found")
  const AlreadyOccupied := BoardError("There is already a on position")
  const CreateFailed := BoardError("Error create board! ")

  /** A piece: its variant and colour never change; the board stamps its position and
      the match counts its moves. */
  class Piece {
    const kind: Kind
    const color: Color
    var position: Option<Position>
    var moveCount: int

    constructor (kind: Kind, color: Color)
      ensures this.kind == kind && this.color == color
      ensures position == None && moveCount == 0
    {
      this.kind := kind;
      this.color := color;
      position := None;
      moveCount := 0;
    }
  }

  /** The contents of a board as a value: row by row, null for an empty square. */
  type Grid = seq<seq<Piece?>>

  predicate InBounds(g: Grid, p: Position) {
    0 <= p.row < |g| && 0 <= p.col < |g[p.row]|
  }

  predicate IsRect(g: Grid, rows: int, cols: int) {
    |g| == rows && forall i :: 0 <= i < |g| ==> |g[i]| == cols
  }

  function At(g: Grid, p: Position): Piece?
    requires InBounds(g, p)
  {
    g[p.row][p.col]
  }

  /** The grid with square p holding x and every other square as before. */
  function Put(g: Grid, p: Position, x: Piece?): (r: Grid)
    requires InBounds(g, p)
    ensures |r| == |g| && forall i :: 0 <= i < |g| ==> |r[i]| == |g[i]|
    ensures forall q :: InBounds(g, q) ==> At(r, q) == if q == p then x else At(g, q)
  {
    g[p.row := g[p.row][p.col := x]]
  }

  /** A square a piece of the given colour may end a move on: on the board and empty, or
      holding a piece of the other colour. */
  predicate Enterable(g: Grid, q: Position, color: Color) {
    InBounds(g, q) && (At(g, q) == null || At(g, q).color != color)
  }

  /** An empty grid of the given size. */
  function EmptyGrid(rows: nat, cols: nat): (g: Grid)
    ensures IsRect(g, rows, cols)
    ensures forall q :: InBounds(g, q) ==> At(g, q) == null
  {
    seq(rows, i => seq(cols, j => null))
  }

  /** Putting back what a square held undoes a Put: placing a piece on an empty square
      and then removing it again gives back the grid exactly. */
  lemma PutRestores(g: Grid, p: Position, x: Piece?)
    requires InBounds(g, p)
    ensures Put(Put(g, p, x), p, At(g, p)) == g
  {
    var h := Put(Put(g, p, x), p, At(g, p));
    assert h[p.row] == g[p.row];
  }

  /** A second write to a square overrides the first. */
  lemma PutTwice(g: Grid, p: Position, x: Piece?, y: Piece?)
    requires InBounds(g, p)
    ensures Put(Put(g, p, x), p, y) == Put(g, p, y)
  {
    assert Put(Put(g, p, x), p, y)[p.row] == Put(g, p, y)[p.row];
  }

  /** Writing back what a square already holds changes nothing. */
  lemma PutSame(g: Grid, p: Position)
    requires InBounds(g, p)
    ensures Put(g, p, At(g, p)) == g
  {
    assert Put(g, p, At(g, p))[p.row] == g[p.row];
  }

  class Board {
    const rows: int
    const cols: int
    const cells: array2<Piece?>
    /** The contents of `cells`, as a value. */
    ghost var G: Grid

    ghost predicate Valid()
      reads this, cells
    {
      && rows >= 1 && cols >= 1
      && cells.Length0 == rows && cells.Length1 == cols
      && IsRect(G, rows, cols)
      && forall i, j :: 0 <= i < rows && 0 <= j < cols ==> cells[i, j] == G[i][j]
    }

    constructor (rows: int, cols: int)
      requires rows >= 1 && cols >= 1
      ensures Valid() && fresh(cells)
      ensures this.rows == rows && this.cols == cols
      ensures G == EmptyGrid(rows, cols)
    {
      this.rows := rows;
      this.cols := cols;
      cells := new Piece?[rows, cols]((i, j) => null);
      G := EmptyGrid(rows, cols);
    }

    /** The constructor together with its argument check: a board needs at least one
        row and one column; a new board is empty. */
    static method Create(rows: int, cols: int) returns (r: Result<Board>)
      ensures r.Failure? <==> rows < 1 || cols < 1
      ensures r.Failure? ==> r.error == CreateFailed
      ensures r.Success? ==> fresh(r.value) && fresh(r.value.cells) && r.value.Valid()
      ensures r.Success? ==> r.value.rows == rows && r.value.cols == cols
      ensures r.Success? ==> forall q :: InBounds(r.value.G, q) ==> At(r.value.G, q) == null
    {
      if rows < 1 || cols < 1 {
        return Failure(CreateFailed);
      }
      var b := new Board(rows, cols);
      r := Success(b);
    }

    predicate PositionExists(p: Position)
      reads this
    {
      0 <= p.row < rows && 0 <= p.col < cols
    }

    lemma PositionExistsInBounds(p: Position)
      requires Valid()
      ensures PositionExists(p) <==> InBounds(G, p)
    {
    }

    /** The occupant of a square, or null; a position off the board is an error. */
    function PieceAt(p: Position): (r: Result<Piece?>)
      reads this, cells
      requires Valid()
      ensures r.Success? <==> InBounds(G, p)
      ensures r.Failure? ==> r.error == PositionNotFound
      ensures r.Success? ==> r.value == At(G, p)
    {
      if !PositionExists(p) then Failure(PositionNotFound) else Success(cells[p.row, p.col])
    }

    /** Whether a square is occupied; a position off the board is an error. */
    function ThereIsAPiece(p: Position): (r: Result<bool>)
      reads this, cells
      requires Valid()
      ensures r.Success? <==> InBounds(G, p)
      ensures r.Failure? ==> r.error == PositionNotFound
      ensures r.Success? ==> (r.value <==> At(G, p) != null)
    {
      if !PositionExists(p) then Failure(PositionNotFound) else Success(PieceAt(p).value != null)
    }

    /** The whole grid, read square by square from the array. */
    function Snapshot(): (g: Grid)
      reads this, cells
      requires Valid()
      ensures g == G
    {
      var g := seq(rows, i requires 0 <= i < rows reads this, cells =>
                seq(cols, j requires 0 <= j < cols reads this, cells => cells[i, j]));
      assert forall i :: 0 <= i < rows ==> g[i] == G[i];
      g
    }

    /** Places a piece on an empty square and stamps the piece's position. An occupied or
        off-board square is an error, raised before anything changes; placing null
        stores nothing and fails on the null piece. */
    method PlacePiece(piece: Piece?, p: Position) returns (r: Result<()>)
      requires Valid()
      modifies this`G, cells, piece
      ensures Valid()
      ensures !InBounds(old(G), p) ==> r == Failure(PositionNotFound)
      ensures InBounds(old(G), p) && At(old(G), p) != null ==> r == Failure(AlreadyOccupied)
      ensures InBounds(old(G), p) && At(old(G), p) == null && piece == null ==> r == Failure(NullPointer)
      ensures r.Success? <==> InBounds(old(G), p) && At(old(G), p) == null && piece != null
      ensures r.Success? ==> r == Success(()) && G == Put(old(G), p, piece) && piece.position == Some(p)
      ensures r.Failure? ==> G == old(G) && (piece != null ==> piece.position == old(piece.position))
      ensures piece != null ==> piece.moveCount == old(piece.moveCount)
    {
      var occupied := ThereIsAPiece(p);
      if occupied.Failure? {
        return Failure(occupied.error);
      }
      if occupied.value {
        return Failure(AlreadyOccupied);
      }
      cells[p.row, p.col] := piece;
      G := Put(G, p, piece);
      if piece == null {
        PutSame(old(G), p);
        return Failure(NullPointer);
      }
      piece.position := Some(p);
      r := Success(());
    }

    /** The occupant of square p, if any, as a set: what RemovePiece may change. */
    ghost function OccupantOf(p: Position): set<Piece>
      reads this, cells
      requires Valid()
    {
      if PositionExists(p) && cells[p.row, p.col] != null then {cells[p.row, p.col]} else {}
    }

    /** Takes the occupant off a square and clears its position. An empty square gives
        null and changes nothing; an off-board square is an error. */
    method RemovePiece(p: Position) returns (r: Result<Piece?>)
      requires Valid()
      modifies this`G, cells, OccupantOf(p)
      ensures Valid()
      ensures r.Failure? <==> !InBounds(old(G), p)
      ensures r.Failure? ==> r.error == PositionNotFound && G == old(G)
      ensures r.Success? ==> r.value == At(old(G), p) && G == Put(old(G), p, null)
      ensures r.Success? && r.value != null ==> r.value.position == None
      ensures r.Success? && r.value != null ==> r.value.moveCount == old(r.value.moveCount)
    {
      if !PositionExists(p) {
        return Failure(PositionNotFound);
      }
      var occupant := PieceAt(p);
      if occupant.value == null {
        PutSame(G, p);
        return Success(null);
      }
      var aux := occupant.value;
      aux.position := None;
      cells[p.row, p.col] := null;
      G := Put(G, p, null);
      r := Success(aux);
    }
  }

  /** The other colour's piece on a square: ChessPiece.isThereOpponentPiece, which looks
      the square up on the board (an off-board square is an error). */
  function IsThereOpponentPiece(board: Board, color: Color, p: Position): (r: Result<bool>)
    reads board, board.cells
    requires board.Valid()
    ensures r.Success? <==> InBounds(board.G, p)
    ensures r.Success? ==> (r.value <==> At(board.G, p) != null && At(board.G, p).color != color)
  {
    var occupant :- board.PieceAt(p);
    Success(occupant != null && occupant.color != color)
  }
}
