/** What the match rules promise: the effect of making and undoing a move, the make/undo
    round trip, castling as written, validation order, the self-check rollback, the
    bookkeeping of a committed move, promotion, the checkmate test as written and the
    initial position. */
module MatchProperties {
  import opened Outcomes
  import opened Boardgame
  import opened KingPiece
  import opened MatchRules
  import opened MatchInvariant

  predicate SameShape(g: Grid, h: Grid) {
    |g| == |h| && forall i :: 0 <= i < |g| ==> |g[i]| == |h[i]|
  }

  /** Lifting the occupant of `from` and putting it on `to`, square by square. */
  lemma ShiftSquares(g: Grid, from: Position, to: Position)
    requires InBounds(g, from) && InBounds(g, to)
    ensures var h := Put(Put(g, from, null), to, At(g, from));
      && SameShape(h, g)
      && forall q :: InBounds(g, q) ==>
           At(h, q) == if q == to then At(g, from) else if q == from then null else At(g, q)
  {
    var h1 := Put(g, from, null);
    forall q | InBounds(g, q)
      ensures At(Put(h1, to, At(g, from)), q) == if q == to then At(g, from) else if q == from then null else At(g, q)
    {
      assert InBounds(h1, q);
    }
  }

  /** Grids of the same shape with the same occupant on every square are equal. */
  lemma GridsEqual(g: Grid, h: Grid)
    requires SameShape(g, h)
    requires forall q :: InBounds(g, q) ==> At(g, q) == At(h, q)
    ensures g == h
  {
    forall i | 0 <= i < |g|
      ensures g[i] == h[i]
    {
      forall j | 0 <= j < |g[i]|
        ensures g[i][j] == h[i][j]
      {
        assert At(g, Position(i, j)) == At(h, Position(i, j));
      }
    }
  }

  // ---- makeMove and undoMove ------------------------------------------------------

  /** Without the castling blocks, makeMove is its first block. */
  lemma MakeMovePlain(s: MatchState, src: Position, tgt: Position)
    requires InBounds(s.grid, src) && At(s.grid, src) != null
    requires !CastlesRight(At(s.grid, src), src, tgt)
    ensures MakeMove(s, src, tgt) == ShiftPiece(s, src, tgt)
  {
  }

  /** makeMove for a piece that is not a king moving two columns right: the source
      empties, the piece stands on the target and counts one more move, the target's
      former occupant, if any, is returned and moved from piecesOnTheBoard to
      capturedPieces, and nothing else changes. */
  lemma MakeMoveEffects(s: MatchState, src: Position, tgt: Position)
    requires InBounds(s.grid, src) && InBounds(s.grid, tgt) && At(s.grid, src) != null
    requires !CastlesRight(At(s.grid, src), src, tgt)
    ensures MakeMove(s, src, tgt).Success?
    ensures var p := At(s.grid, src);
      var cap := if tgt == src then null else At(s.grid, tgt);
      var t := MakeMove(s, src, tgt).value.1;
      && MakeMove(s, src, tgt).value.0 == cap
      && SameShape(t.grid, s.grid)
      && (forall q :: InBounds(s.grid, q) ==>
            At(t.grid, q) == if q == tgt then p else if q == src then null else At(s.grid, q))
      && t.pos == Vacated(s.pos, cap)[p := Some(tgt)]
      && t.count == s.count[p := CountOf(s, p) + 1]
      && t.onBoard == (if cap == null then s.onBoard else RemoveFirst(s.onBoard, cap))
      && t.captured == (if cap == null then s.captured else s.captured + [cap])
      && SameFlags(s, t)
  {
    MakeMovePlain(s, src, tgt);
  }

  /** undoMove for a piece that is not a king moving two columns right and not a pawn
      taking the en-passant branch: the piece on the target goes back to the source with
      one move fewer, and a piece given back returns to the target, leaves
      capturedPieces and is appended to piecesOnTheBoard. */
  lemma UndoMoveEffects(s: MatchState, src: Position, tgt: Position, cap: Piece?)
    requires InBounds(s.grid, src) && InBounds(s.grid, tgt) && At(s.grid, tgt) != null
    requires src == tgt || At(s.grid, src) == null
    requires cap != null ==> src != tgt
    requires !CastlesRight(At(s.grid, tgt), src, tgt)
    requires !(At(s.grid, tgt).kind == Pawn && src.col != tgt.col && cap == s.enPassant)
    ensures UndoMove(s, src, tgt, cap).Success?
    ensures var p := At(s.grid, tgt);
      var t := UndoMove(s, src, tgt, cap).value;
      && SameShape(t.grid, s.grid)
      && (forall q :: InBounds(s.grid, q) ==>
            At(t.grid, q) == if q == src then p else if q == tgt then cap else At(s.grid, q))
      && t.pos == (if cap == null then s.pos[p := Some(src)] else s.pos[p := Some(src)][cap := Some(tgt)])
      && t.count == s.count[p := CountOf(s, p) - 1]
      && t.onBoard == (if cap == null then s.onBoard else s.onBoard + [cap])
      && t.captured == (if cap == null then s.captured else RemoveFirst(s.captured, cap))
      && SameFlags(s, t)
  {
    var back := ReturnPiece(s, src, tgt).value.1;
    var s0 := if cap == null then back else Restore(back, cap, tgt).value;
    assert UndoMove(s, src, tgt, cap) == Success(s0);
    ReturnSquares(s.grid, src, tgt, cap);
  }

  /** The squares of undoMove's first two blocks: the piece on tgt goes back to src and
      cap, if any, returns to tgt. */
  lemma ReturnSquares(g: Grid, src: Position, tgt: Position, cap: Piece?)
    requires InBounds(g, src) && InBounds(g, tgt)
    requires src == tgt || At(g, src) == null
    requires cap != null ==> src != tgt
    ensures var h := Put(Put(g, tgt, null), src, At(g, tgt));
      var u := if cap == null then h else Put(h, tgt, cap);
      && SameShape(u, g)
      && forall q :: InBounds(g, q) ==>
           At(u, q) == if q == src then At(g, tgt) else if q == tgt then cap else At(g, q)
  {
    var h1 := Put(g, tgt, null);
    var h := Put(h1, src, At(g, tgt));
    forall q | InBounds(g, q)
      ensures At(h, q) == if q == src then At(g, tgt) else if q == tgt then null else At(g, q)
    {
      assert InBounds(h1, q);
    }
  }

  /** The facts about s the round trip below needs. */
  ghost predicate RoundTripReady(s: MatchState, src: Position, tgt: Position) {
    && InBounds(s.grid, src) && InBounds(s.grid, tgt) && At(s.grid, src) != null
    && (var p := At(s.grid, src); p in s.pos && s.pos[p] == Some(src) && p in s.count)
    && (var cap := if tgt == src then null else At(s.grid, tgt);
        cap != null ==> cap in s.pos && s.pos[cap] == Some(tgt) && cap != At(s.grid, src)
                        && cap !in s.captured && cap in s.onBoard)
    && !CastlesRight(At(s.grid, src), src, tgt)
    && (var cap := if tgt == src then null else At(s.grid, tgt);
        !(At(s.grid, src).kind == Pawn && src.col != tgt.col && cap == s.enPassant))
  }

  /** The move made, and the effects of undoing it. */
  lemma RoundTripSteps(s: MatchState, src: Position, tgt: Position)
    requires RoundTripReady(s, src, tgt)
    ensures MakeMove(s, src, tgt).Success?
    ensures var m := MakeMove(s, src, tgt).value;
      && m.0 == (if tgt == src then null else At(s.grid, tgt))
      && InBounds(m.1.grid, tgt) && At(m.1.grid, tgt) == At(s.grid, src)
      && UndoMove(m.1, src, tgt, m.0).Success?
  {
    var p := At(s.grid, src);
    var cap := if tgt == src then null else At(s.grid, tgt);
    MakeMoveEffects(s, src, tgt);
    var t := MakeMove(s, src, tgt).value.1;
    UndoMoveEffects(t, src, tgt, cap);
  }

  lemma RoundTripGrid(s: MatchState, src: Position, tgt: Position)
    requires RoundTripReady(s, src, tgt)
    ensures MakeMove(s, src, tgt).Success?
    ensures var m := MakeMove(s, src, tgt).value;
      UndoMove(m.1, src, tgt, m.0).Success? && UndoMove(m.1, src, tgt, m.0).value.grid == s.grid
  {
    RoundTripSteps(s, src, tgt);
    var cap := if tgt == src then null else At(s.grid, tgt);
    MakeMoveEffects(s, src, tgt);
    var t := MakeMove(s, src, tgt).value.1;
    UndoMoveEffects(t, src, tgt, cap);
    ShiftedBack(s.grid, t.grid, UndoMove(t, src, tgt, cap).value.grid, src, tgt);
  }

  /** A piece moved from src to tgt and moved back, with whatever stood on tgt put back
      there, leaves the board as it was. */
  lemma ShiftedBack(g: Grid, t: Grid, u: Grid, src: Position, tgt: Position)
    requires InBounds(g, src) && InBounds(g, tgt)
    requires SameShape(t, g) && SameShape(u, t)
    requires forall q :: InBounds(g, q) ==>
      At(t, q) == if q == tgt then At(g, src) else if q == src then null else At(g, q)
    requires forall q :: InBounds(t, q) ==>
      At(u, q) == if q == src then At(t, tgt) else if q == tgt then (if tgt == src then null else At(g, tgt))
                  else At(t, q)
    ensures u == g
  {
    forall q | InBounds(u, q)
      ensures At(u, q) == At(g, q)
    {
      assert InBounds(t, q) && InBounds(g, q);
    }
    GridsEqual(u, g);
  }

  /** Updating a key twice keeps the second value; writing back a key's value changes
      nothing. */
  lemma UpdateTwice<V>(m: map<Piece, V>, k: Piece, v: V, w: V)
    ensures m[k := v][k := w] == m[k := w]
  {
  }

  lemma UpdateSame<V>(m: map<Piece, V>, k: Piece)
    requires k in m
    ensures m[k := m[k]] == m
  {
  }

  lemma RoundTripPositions(s: MatchState, src: Position, tgt: Position)
    requires RoundTripReady(s, src, tgt)
    ensures MakeMove(s, src, tgt).Success?
    ensures var m := MakeMove(s, src, tgt).value;
      UndoMove(m.1, src, tgt, m.0).Success? && UndoMove(m.1, src, tgt, m.0).value.pos == s.pos
  {
    RoundTripSteps(s, src, tgt);
    var p: Piece := At(s.grid, src);
    var cap := if tgt == src then null else At(s.grid, tgt);
    MakeMoveEffects(s, src, tgt);
    var t := MakeMove(s, src, tgt).value.1;
    UndoMoveEffects(t, src, tgt, cap);
    var u := UndoMove(t, src, tgt, cap).value;
    if cap == null {
      assert u.pos == s.pos[p := Some(tgt)][p := Some(src)];
      UpdateTwice(s.pos, p, Some(tgt), Some(src));
      UpdateSame(s.pos, p);
    } else {
      var x: Piece := cap;
      var m1: map<Piece, Option<Position>> := s.pos[x := None];
      assert u.pos == m1[p := Some(tgt)][p := Some(src)][x := Some(tgt)];
      UpdateTwice(m1, p, Some(tgt), Some(src));
      assert m1[p := Some(src)] == m1 by {
        UpdateSame(m1, p);
      }
      UpdateTwice(s.pos, x, None, Some(tgt));
      UpdateSame(s.pos, x);
    }
  }

  lemma RoundTripCounts(s: MatchState, src: Position, tgt: Position)
    requires RoundTripReady(s, src, tgt)
    ensures MakeMove(s, src, tgt).Success?
    ensures var m := MakeMove(s, src, tgt).value;
      UndoMove(m.1, src, tgt, m.0).Success? && UndoMove(m.1, src, tgt, m.0).value.count == s.count
  {
    RoundTripSteps(s, src, tgt);
    var p: Piece := At(s.grid, src);
    var cap := if tgt == src then null else At(s.grid, tgt);
    MakeMoveEffects(s, src, tgt);
    var t := MakeMove(s, src, tgt).value.1;
    UndoMoveEffects(t, src, tgt, cap);
    var u := UndoMove(t, src, tgt, cap).value;
    assert CountOf(t, p) == CountOf(s, p) + 1;
    assert u.count == s.count[p := CountOf(s, p) + 1][p := CountOf(s, p)];
    UpdateTwice(s.count, p, CountOf(s, p) + 1, CountOf(s, p));
    UpdateSame(s.count, p);
  }

  lemma RoundTripLists(s: MatchState, src: Position, tgt: Position)
    requires RoundTripReady(s, src, tgt)
    ensures MakeMove(s, src, tgt).Success?
    ensures var m := MakeMove(s, src, tgt).value;
      var u := UndoMove(m.1, src, tgt, m.0);
      && u.Success?
      && u.value.captured == s.captured
      && multiset(u.value.onBoard) == multiset(s.onBoard)
      && (m.0 == null ==> u.value.onBoard == s.onBoard)
      && SameFlags(s, u.value)
  {
    RoundTripSteps(s, src, tgt);
    var cap := if tgt == src then null else At(s.grid, tgt);
    MakeMoveEffects(s, src, tgt);
    var t := MakeMove(s, src, tgt).value.1;
    UndoMoveEffects(t, src, tgt, cap);
    if cap != null {
      var x: Piece := cap;
      RemoveFirstAppended(s.captured, x);
      assert x in multiset(s.onBoard);
    }
  }

  /** undoMove(s, t, makeMove(s, t)) for a move that is neither a king moving two columns
      right nor a pawn changing column while the captured piece equals the en-passant
      candidate: every square, position and move count is as before, capturedPieces is
      as before and piecesOnTheBoard holds the same pieces, the captured one re-appended. */
  lemma MakeUndoRoundTrip(s: MatchState, src: Position, tgt: Position)
    requires WellFormed(s)
    requires InBounds(s.grid, src) && InBounds(s.grid, tgt) && At(s.grid, src) != null
    requires !CastlesRight(At(s.grid, src), src, tgt)
    requires var cap := if tgt == src then null else At(s.grid, tgt);
      !(At(s.grid, src).kind == Pawn && src.col != tgt.col && cap == s.enPassant)
    ensures MakeMove(s, src, tgt).Success?
    ensures var m := MakeMove(s, src, tgt).value;
      var u := UndoMove(m.1, src, tgt, m.0);
      && u.Success?
      && u.value == s.(onBoard := u.value.onBoard)
      && multiset(u.value.onBoard) == multiset(s.onBoard)
      && (m.0 == null ==> u.value == s)
  {
    var p := At(s.grid, src);
    assert p in s.pos && s.pos[p] == Some(src);
    if tgt != src && At(s.grid, tgt) != null {
      var x := At(s.grid, tgt);
      assert s.pos[x] == Some(tgt);
      assert x in OnSquares(s);
    }
    RoundTripGrid(s, src, tgt);
    RoundTripPositions(s, src, tgt);
    RoundTripCounts(s, src, tgt);
    RoundTripLists(s, src, tgt);
  }

  /** Room for the rook moves of castling around a king that started on src: pieces on
      (r, c+3) and (r, c-4), nothing on (r, c+1) and (r, c-1). */
  ghost predicate CastleRoom(g: Grid, src: Position) {
    && InBounds(g, Position(src.row, src.col - 4)) && InBounds(g, Position(src.row, src.col + 3))
    && At(g, Position(src.row, src.col + 3)) != null && At(g, Position(src.row, src.col + 1)) == null
    && At(g, Position(src.row, src.col - 4)) != null && At(g, Position(src.row, src.col - 1)) == null
  }

  /** The rook moves of castling succeed exactly when there is room for them. */
  lemma CastleRooksSucceeds(s: MatchState, src: Position)
    ensures CastleRooks(s, src).Success? <==> CastleRoom(s.grid, src)
  {
    var a := Position(src.row, src.col + 3);
    var b := Position(src.row, src.col + 1);
    if MoveRook(s, a, b, 1).Success? {
      var s1 := MoveRook(s, a, b, 1).value;
      if InBounds(s.grid, Position(src.row, src.col - 4)) {
        assert At(s1.grid, Position(src.row, src.col - 4)) == At(s.grid, Position(src.row, src.col - 4));
        assert At(s1.grid, Position(src.row, src.col - 1)) == At(s.grid, Position(src.row, src.col - 1));
      }
    }
  }

  /** The rook moves of castling: the piece on (r, c+3) now stands on (r, c+1), the one
      on (r, c-4) on (r, c-1), their squares are empty and no other square changes. */
  lemma CastleRooksSquares(s: MatchState, r: int, c: int)
    requires CastleRooks(s, Position(r, c)).Success?
    ensures CastleRoom(s.grid, Position(r, c))
    ensures var t := CastleRooks(s, Position(r, c)).value;
      && SameShape(t.grid, s.grid)
      && forall q :: InBounds(s.grid, q) ==>
           At(t.grid, q) == if q == Position(r, c + 1) then At(s.grid, Position(r, c + 3))
                            else if q == Position(r, c - 1) then At(s.grid, Position(r, c - 4))
                            else if q == Position(r, c + 3) || q == Position(r, c - 4) then null
                            else At(s.grid, q)
  {
    CastleRooksSucceeds(s, Position(r, c));
    var a, b, d, e := Position(r, c + 3), Position(r, c + 1), Position(r, c - 4), Position(r, c - 1);
    assert CastleRooks(s, Position(r, c)).value.grid
        == Put(Put(Put(Put(s.grid, a, null), b, At(s.grid, a)), d, null), e, At(s.grid, d)) by {
      var s1 := MoveRook(s, a, b, 1).value;
      assert At(s1.grid, d) == At(s.grid, d);
    }
    TwoShifts(s.grid, a, b, d, e);
  }

  /** Two pieces moved one after the other, square by square, when the second move
      neither starts nor ends where the first one did. */
  lemma TwoShifts(g: Grid, a: Position, b: Position, d: Position, e: Position)
    requires InBounds(g, a) && InBounds(g, b) && InBounds(g, d) && InBounds(g, e)
    requires d != a && d != b && e != a && e != b
    ensures var h := Put(Put(g, a, null), b, At(g, a));
      var t := Put(Put(h, d, null), e, At(g, d));
      && SameShape(t, g)
      && forall q :: InBounds(g, q) ==>
           At(t, q) == if q == b then At(g, a) else if q == e then At(g, d)
                       else if q == a || q == d then null else At(g, q)
  {
    var h := Put(Put(g, a, null), b, At(g, a));
    ShiftSquares(g, a, b);
    ShiftSquares(h, d, e);
  }

  /** The two rooks moved in castling count one move more each; no other count changes. */
  lemma CastleRooksCounts(s: MatchState, src: Position)
    requires CastleRooks(s, src).Success?
    requires At(s.grid, Position(src.row, src.col + 3)) != At(s.grid, Position(src.row, src.col - 4))
    ensures var t := CastleRooks(s, src).value;
      var kingside := At(s.grid, Position(src.row, src.col + 3));
      var queenside := At(s.grid, Position(src.row, src.col - 4));
      && CountOf(t, kingside) == CountOf(s, kingside) + 1
      && CountOf(t, queenside) == CountOf(s, queenside) + 1
      && forall x :: x != kingside && x != queenside ==> CountOf(t, x) == CountOf(s, x)
  {
    CastleRooksSucceeds(s, src);
    var s1 := MoveRook(s, Position(src.row, src.col + 3), Position(src.row, src.col + 1), 1).value;
    assert At(s1.grid, Position(src.row, src.col - 4)) == At(s.grid, Position(src.row, src.col - 4));
  }

  /** With no piece on (r, c-4) and none on (r, c-1), the second rook move places null:
      a fault, after the first rook has moved. */
  lemma CastleRooksFaults(s: MatchState, src: Position)
    requires InBounds(s.grid, Position(src.row, src.col - 4)) && InBounds(s.grid, Position(src.row, src.col + 3))
    requires At(s.grid, Position(src.row, src.col + 3)) != null && At(s.grid, Position(src.row, src.col + 1)) == null
    requires At(s.grid, Position(src.row, src.col - 4)) == null && At(s.grid, Position(src.row, src.col - 1)) == null
    ensures CastleRooks(s, src) == Failure(NullPointer)
  {
    var s1 := MoveRook(s, Position(src.row, src.col + 3), Position(src.row, src.col + 1), 1).value;
    assert At(s1.grid, Position(src.row, src.col - 4)) == null && At(s1.grid, Position(src.row, src.col - 1)) == null;
    assert RemoveAt(s1, Position(src.row, src.col - 4)) == Success((null, s1));
  }

  /** Room for the rook moves of undoMove: pieces on (r, c+1) and (r, c-1), nothing on
      (r, c+3) and (r, c-4). */
  ghost predicate UncastleRoom(g: Grid, src: Position) {
    && InBounds(g, Position(src.row, src.col - 4)) && InBounds(g, Position(src.row, src.col + 3))
    && At(g, Position(src.row, src.col + 1)) != null && At(g, Position(src.row, src.col + 3)) == null
    && At(g, Position(src.row, src.col - 1)) != null && At(g, Position(src.row, src.col - 4)) == null
  }

  /** The rook moves of undoMove succeed exactly when there is room for them. */
  lemma UncastleRooksSucceeds(s: MatchState, src: Position)
    ensures UncastleRooks(s, src).Success? <==> UncastleRoom(s.grid, src)
  {
    var a := Position(src.row, src.col + 1);
    var b := Position(src.row, src.col + 3);
    if MoveRook(s, a, b, 1).Success? {
      var s1 := MoveRook(s, a, b, 1).value;
      if InBounds(s.grid, Position(src.row, src.col - 4)) {
        assert At(s1.grid, Position(src.row, src.col - 1)) == At(s.grid, Position(src.row, src.col - 1));
        assert At(s1.grid, Position(src.row, src.col - 4)) == At(s.grid, Position(src.row, src.col - 4));
      }
    }
  }

  /** The rook moves of undoMove put the pieces on (r, c+1) and (r, c-1) back on (r, c+3)
      and (r, c-4); no other square changes. */
  lemma UncastleRooksSquares(s: MatchState, r: int, c: int)
    requires UncastleRooks(s, Position(r, c)).Success?
    ensures UncastleRoom(s.grid, Position(r, c))
    ensures var t := UncastleRooks(s, Position(r, c)).value;
      && SameShape(t.grid, s.grid)
      && forall q :: InBounds(s.grid, q) ==>
           At(t.grid, q) == if q == Position(r, c + 3) then At(s.grid, Position(r, c + 1))
                            else if q == Position(r, c - 4) then At(s.grid, Position(r, c - 1))
                            else if q == Position(r, c + 1) || q == Position(r, c - 1) then null
                            else At(s.grid, q)
  {
    UncastleRooksSucceeds(s, Position(r, c));
    var a, b, d, e := Position(r, c + 1), Position(r, c + 3), Position(r, c - 1), Position(r, c - 4);
    assert UncastleRooks(s, Position(r, c)).value.grid
        == Put(Put(Put(Put(s.grid, a, null), b, At(s.grid, a)), d, null), e, At(s.grid, d)) by {
      var s1 := MoveRook(s, a, b, 1).value;
      assert At(s1.grid, d) == At(s.grid, d);
    }
    TwoShifts(s.grid, a, b, d, e);
  }

  /** Undoing castling counts the piece going back to (r, c+3) up and the one going back
      to (r, c-4) down; no other count changes. */
  lemma UncastleRooksCounts(s: MatchState, src: Position)
    requires UncastleRooks(s, src).Success?
    requires At(s.grid, Position(src.row, src.col + 1)) != At(s.grid, Position(src.row, src.col - 1))
    ensures var t := UncastleRooks(s, src).value;
      var kingside := At(s.grid, Position(src.row, src.col + 1));
      var queenside := At(s.grid, Position(src.row, src.col - 1));
      && CountOf(t, kingside) == CountOf(s, kingside) + 1
      && CountOf(t, queenside) == CountOf(s, queenside) - 1
      && forall x :: x != kingside && x != queenside ==> CountOf(t, x) == CountOf(s, x)
  {
    UncastleRooksSucceeds(s, src);
    var a, b, d, e := Position(src.row, src.col + 1), Position(src.row, src.col + 3),
                      Position(src.row, src.col - 1), Position(src.row, src.col - 4);
    var kingside, queenside := At(s.grid, a), At(s.grid, d);
    assert UncastleRooks(s, src).value.count
        == s.count[kingside := CountOf(s, kingside) + 1][queenside := CountOf(s, queenside) - 1] by {
      var s1 := MoveRook(s, a, b, 1).value;
      assert At(s1.grid, d) == queenside;
    }
  }

  /** A king on (r, c) with pieces on (r, c+3) and (r, c-4) and the squares (r, c+1),
      (r, c+2) and (r, c-1) empty: the layout of castling as makeMove handles it. */
  ghost predicate CastlingReady(s: MatchState, r: int, c: int) {
    && InBounds(s.grid, Position(r, c - 4)) && InBounds(s.grid, Position(r, c + 3))
    && At(s.grid, Position(r, c)) != null && At(s.grid, Position(r, c)).kind == King
    && At(s.grid, Position(r, c + 3)) != null && At(s.grid, Position(r, c - 4)) != null
    && At(s.grid, Position(r, c + 1)) == null && At(s.grid, Position(r, c + 2)) == null
    && At(s.grid, Position(r, c - 1)) == null
  }

  /** The king's step of castling leaves room for the rook moves, which then follow. */
  lemma CastlingSteps(s: MatchState, r: int, c: int)
    requires CastlingReady(s, r, c)
    ensures ShiftPiece(s, Position(r, c), Position(r, c + 2)).Success?
    ensures var shifted := ShiftPiece(s, Position(r, c), Position(r, c + 2)).value;
      && shifted.0 == null
      && CastleRooks(shifted.1, Position(r, c)).Success?
      && MakeMove(s, Position(r, c), Position(r, c + 2)) == Success((null, CastleRooks(shifted.1, Position(r, c)).value))
  {
    var shifted := ShiftPiece(s, Position(r, c), Position(r, c + 2)).value;
    KingStepRoom(s.grid, r, c);
    CastleRooksSucceeds(shifted.1, Position(r, c));
  }

  /** The king's step from (r, c) to (r, c+2) keeps the room the rook moves need. */
  lemma KingStepRoom(g: Grid, r: int, c: int)
    requires InBounds(g, Position(r, c - 4)) && InBounds(g, Position(r, c + 3))
    requires At(g, Position(r, c + 3)) != null && At(g, Position(r, c - 4)) != null
    requires At(g, Position(r, c + 1)) == null && At(g, Position(r, c - 1)) == null
    ensures CastleRoom(Put(Put(g, Position(r, c), null), Position(r, c + 2), At(g, Position(r, c))), Position(r, c))
  {
    var h := Put(g, Position(r, c), null);
    assert InBounds(h, Position(r, c - 4)) && InBounds(h, Position(r, c + 3));
    assert At(h, Position(r, c + 3)) != null && At(h, Position(r, c + 1)) == null;
    assert At(h, Position(r, c - 4)) != null && At(h, Position(r, c - 1)) == null;
  }

  /** Castling as written, made: the king goes to (r, c+2), the piece on (r, c+3) to
      (r, c+1) and the one on (r, c-4) to (r, c-1); nothing is captured. */
  lemma CastlingAsWritten(s: MatchState, r: int, c: int)
    requires CastlingReady(s, r, c)
    ensures MakeMove(s, Position(r, c), Position(r, c + 2)).Success?
    ensures var k := At(s.grid, Position(r, c));
      var kingside := At(s.grid, Position(r, c + 3));
      var queenside := At(s.grid, Position(r, c - 4));
      var m := MakeMove(s, Position(r, c), Position(r, c + 2)).value;
      var t := m.1;
      && m.0 == null
      && SameShape(t.grid, s.grid)
      && (forall q :: InBounds(s.grid, q) ==>
            At(t.grid, q) == if q == Position(r, c + 2) then k
                            else if q == Position(r, c + 1) then kingside
                            else if q == Position(r, c - 1) then queenside
                            else if q == Position(r, c) || q == Position(r, c + 3) || q == Position(r, c - 4) then null
                            else At(s.grid, q))
  {
    CastlingSteps(s, r, c);
    var shifted := ShiftPiece(s, Position(r, c), Position(r, c + 2)).value;
    CastledBoard(shifted.1, s.grid, r, c);
  }

  /** The rook moves of castling after the king's step from g, square by square against g. */
  lemma CastledBoard(h: MatchState, g: Grid, r: int, c: int)
    requires InBounds(g, Position(r, c - 4)) && InBounds(g, Position(r, c + 3))
    requires h.grid == Put(Put(g, Position(r, c), null), Position(r, c + 2), At(g, Position(r, c)))
    requires CastleRooks(h, Position(r, c)).Success?
    ensures var t := CastleRooks(h, Position(r, c)).value.grid;
      && SameShape(t, g)
      && forall q :: InBounds(g, q) ==>
           At(t, q) == if q == Position(r, c + 2) then At(g, Position(r, c))
                       else if q == Position(r, c + 1) then At(g, Position(r, c + 3))
                       else if q == Position(r, c - 1) then At(g, Position(r, c - 4))
                       else if q == Position(r, c) || q == Position(r, c + 3) || q == Position(r, c - 4) then null
                       else At(g, q)
  {
    CastleRooksSquares(h, r, c);
    CastledSquaresMade(g, h.grid, CastleRooks(h, Position(r, c)).value.grid, r, c);
  }

  /** Square by square: the king's step of castling followed by the rook moves. */
  lemma CastledSquaresMade(g: Grid, h: Grid, t: Grid, r: int, c: int)
    requires InBounds(g, Position(r, c - 4)) && InBounds(g, Position(r, c + 3))
    requires h == Put(Put(g, Position(r, c), null), Position(r, c + 2), At(g, Position(r, c)))
    requires SameShape(t, h)
    requires forall q :: InBounds(h, q) ==>
      At(t, q) == if q == Position(r, c + 1) then At(h, Position(r, c + 3))
                  else if q == Position(r, c - 1) then At(h, Position(r, c - 4))
                  else if q == Position(r, c + 3) || q == Position(r, c - 4) then null
                  else At(h, q)
    ensures SameShape(t, g)
    ensures forall q :: InBounds(g, q) ==>
      At(t, q) == if q == Position(r, c + 2) then At(g, Position(r, c))
                  else if q == Position(r, c + 1) then At(g, Position(r, c + 3))
                  else if q == Position(r, c - 1) then At(g, Position(r, c - 4))
                  else if q == Position(r, c) || q == Position(r, c + 3) || q == Position(r, c - 4) then null
                  else At(g, q)
  {
    var h1 := Put(g, Position(r, c), null);
    forall q | InBounds(g, q)
      ensures At(h, q) == if q == Position(r, c + 2) then At(g, Position(r, c))
                          else if q == Position(r, c) then null else At(g, q)
    {
      assert InBounds(h1, q);
    }
  }

  /** Castling as written counts one move more for the king and for each of the two
      pieces it moves beside it. */
  lemma CastlingCounts(s: MatchState, r: int, c: int)
    requires CastlingReady(s, r, c) && Coherent(s)
    ensures MakeMove(s, Position(r, c), Position(r, c + 2)).Success?
    ensures var t := MakeMove(s, Position(r, c), Position(r, c + 2)).value.1;
      && CountOf(t, At(s.grid, Position(r, c))) == CountOf(s, At(s.grid, Position(r, c))) + 1
      && CountOf(t, At(s.grid, Position(r, c + 3))) == CountOf(s, At(s.grid, Position(r, c + 3))) + 1
      && CountOf(t, At(s.grid, Position(r, c - 4))) == CountOf(s, At(s.grid, Position(r, c - 4))) + 1
  {
    CastlingSteps(s, r, c);
    var k := At(s.grid, Position(r, c));
    var kingside := At(s.grid, Position(r, c + 3));
    var queenside := At(s.grid, Position(r, c - 4));
    assert s.pos[k] == Some(Position(r, c)) && s.pos[kingside] == Some(Position(r, c + 3));
    assert s.pos[queenside] == Some(Position(r, c - 4));
    var shifted := ShiftPiece(s, Position(r, c), Position(r, c + 2)).value;
    assert At(shifted.1.grid, Position(r, c + 3)) == kingside;
    assert At(shifted.1.grid, Position(r, c - 4)) == queenside;
    CastleRooksCounts(shifted.1, Position(r, c));
  }

  /** undoMove of a king that moved two columns right and captured nothing: the king goes
      back, then the rook moves of undoMove follow. */
  lemma UncastlingSteps(t: MatchState, src: Position)
    requires InBounds(t.grid, src) && InBounds(t.grid, Position(src.row, src.col + 2))
    requires var k := At(t.grid, Position(src.row, src.col + 2)); k != null && k.kind == King
    requires At(t.grid, src) == null
    ensures ReturnPiece(t, src, Position(src.row, src.col + 2)).Success?
    ensures UndoMove(t, src, Position(src.row, src.col + 2), null)
         == UncastleRooks(ReturnPiece(t, src, Position(src.row, src.col + 2)).value.1, src)
  {
  }

  /** Castling as written, undone: every square is restored. */
  lemma CastlingUndoneAsWritten(s: MatchState, r: int, c: int)
    requires CastlingReady(s, r, c)
    ensures MakeMove(s, Position(r, c), Position(r, c + 2)).Success?
    ensures var t := MakeMove(s, Position(r, c), Position(r, c + 2)).value.1;
      var u := UndoMove(t, Position(r, c), Position(r, c + 2), null);
      u.Success? && u.value.grid == s.grid
  {
    CastlingAsWritten(s, r, c);
    UncastlingRestores(s.grid, MakeMove(s, Position(r, c), Position(r, c + 2)).value.1, r, c);
  }

  /** undoMove on a board castled as written from g gives back g. */
  lemma UncastlingRestores(g: Grid, t: MatchState, r: int, c: int)
    requires InBounds(g, Position(r, c - 4)) && InBounds(g, Position(r, c + 3))
    requires At(g, Position(r, c)) != null && At(g, Position(r, c)).kind == King
    requires At(g, Position(r, c + 3)) != null && At(g, Position(r, c - 4)) != null
    requires At(g, Position(r, c + 1)) == null && At(g, Position(r, c + 2)) == null
    requires At(g, Position(r, c - 1)) == null
    requires SameShape(t.grid, g)
    requires forall q :: InBounds(g, q) ==>
      At(t.grid, q) == if q == Position(r, c + 2) then At(g, Position(r, c))
                       else if q == Position(r, c + 1) then At(g, Position(r, c + 3))
                       else if q == Position(r, c - 1) then At(g, Position(r, c - 4))
                       else if q == Position(r, c) || q == Position(r, c + 3) || q == Position(r, c - 4) then null
                       else At(g, q)
    ensures var u := UndoMove(t, Position(r, c), Position(r, c + 2), null);
      u.Success? && u.value.grid == g
  {
    var src := Position(r, c);
    var tgt := Position(r, c + 2);
    assert At(t.grid, tgt) == At(g, src) && At(t.grid, src) == null;
    UncastlingSteps(t, src);
    UncastledBoard(ReturnPiece(t, src, tgt).value.1, g, t.grid, r, c);
  }

  /** The rook moves of undoMove, after the king went back on a board castled as written
      from g, give back g. */
  lemma UncastledBoard(b: MatchState, g: Grid, t: Grid, r: int, c: int)
    requires InBounds(g, Position(r, c - 4)) && InBounds(g, Position(r, c + 3))
    requires At(g, Position(r, c + 3)) != null && At(g, Position(r, c - 4)) != null
    requires At(g, Position(r, c + 1)) == null && At(g, Position(r, c + 2)) == null
    requires At(g, Position(r, c - 1)) == null
    requires SameShape(t, g)
    requires forall q :: InBounds(g, q) ==>
      At(t, q) == if q == Position(r, c + 2) then At(g, Position(r, c))
                  else if q == Position(r, c + 1) then At(g, Position(r, c + 3))
                  else if q == Position(r, c - 1) then At(g, Position(r, c - 4))
                  else if q == Position(r, c) || q == Position(r, c + 3) || q == Position(r, c - 4) then null
                  else At(g, q)
    requires b.grid == Put(Put(t, Position(r, c + 2), null), Position(r, c), At(t, Position(r, c + 2)))
    ensures UncastleRooks(b, Position(r, c)).Success?
    ensures UncastleRooks(b, Position(r, c)).value.grid == g
  {
    var src := Position(r, c);
    ReturnedSquares(g, t, b.grid, r, c);
    UncastleRooksSucceeds(b, src);
    UncastleRooksSquares(b, r, c);
    CastledSquaresRestored(g, t, b.grid, UncastleRooks(b, src).value.grid, r, c);
  }

  /** The board castled as written from g, with the king put back, leaves room for the
      rook moves of undoMove. */
  lemma ReturnedSquares(g: Grid, t: Grid, b: Grid, r: int, c: int)
    requires InBounds(g, Position(r, c - 4)) && InBounds(g, Position(r, c + 3))
    requires At(g, Position(r, c + 3)) != null && At(g, Position(r, c - 4)) != null
    requires SameShape(t, g)
    requires forall q :: InBounds(g, q) ==>
      At(t, q) == if q == Position(r, c + 2) then At(g, Position(r, c))
                  else if q == Position(r, c + 1) then At(g, Position(r, c + 3))
                  else if q == Position(r, c - 1) then At(g, Position(r, c - 4))
                  else if q == Position(r, c) || q == Position(r, c + 3) || q == Position(r, c - 4) then null
                  else At(g, q)
    requires b == Put(Put(t, Position(r, c + 2), null), Position(r, c), At(t, Position(r, c + 2)))
    ensures UncastleRoom(b, Position(r, c))
  {
    var t1 := Put(t, Position(r, c + 2), null);
    assert At(b, Position(r, c + 1)) == At(t1, Position(r, c + 1)) == At(t, Position(r, c + 1));
    assert At(b, Position(r, c - 1)) == At(t1, Position(r, c - 1)) == At(t, Position(r, c - 1));
    assert At(b, Position(r, c + 3)) == At(t1, Position(r, c + 3)) == At(t, Position(r, c + 3));
    assert At(b, Position(r, c - 4)) == At(t1, Position(r, c - 4)) == At(t, Position(r, c - 4));
  }

  /** Square by square: the board after castling, with the king put back and the rook
      moves of undoMove, is the board before castling. */
  lemma CastledSquaresRestored(g: Grid, t: Grid, b: Grid, u: Grid, r: int, c: int)
    requires InBounds(g, Position(r, c - 4)) && InBounds(g, Position(r, c + 3))
    requires At(g, Position(r, c + 1)) == null && At(g, Position(r, c + 2)) == null
    requires At(g, Position(r, c - 1)) == null
    requires SameShape(t, g) && SameShape(u, g)
    requires forall q :: InBounds(g, q) ==>
      At(t, q) == if q == Position(r, c + 2) then At(g, Position(r, c))
                  else if q == Position(r, c + 1) then At(g, Position(r, c + 3))
                  else if q == Position(r, c - 1) then At(g, Position(r, c - 4))
                  else if q == Position(r, c) || q == Position(r, c + 3) || q == Position(r, c - 4) then null
                  else At(g, q)
    requires b == Put(Put(t, Position(r, c + 2), null), Position(r, c), At(t, Position(r, c + 2)))
    requires forall q :: InBounds(b, q) ==>
      At(u, q) == if q == Position(r, c + 3) then At(b, Position(r, c + 1))
                  else if q == Position(r, c - 4) then At(b, Position(r, c - 1))
                  else if q == Position(r, c + 1) || q == Position(r, c - 1) then null
                  else At(b, q)
    ensures u == g
  {
    var t1 := Put(t, Position(r, c + 2), null);
    assert At(b, Position(r, c + 1)) == At(t1, Position(r, c + 1)) == At(t, Position(r, c + 1));
    assert At(b, Position(r, c - 1)) == At(t1, Position(r, c - 1)) == At(t, Position(r, c - 1));
    forall q | InBounds(g, q)
      ensures At(u, q) == At(g, q)
    {
      assert InBounds(t, q) && InBounds(t1, q) && InBounds(b, q);
      assert At(b, q) == if q == Position(r, c) then At(t, Position(r, c + 2)) else At(t1, q);
      assert At(t1, q) == if q == Position(r, c + 2) then null else At(t, q);
    }
    GridsEqual(u, g);
  }

  /** Castling as written, undone: the king and the piece from (r, c-4) get their move
      counts back, but the piece from (r, c+3) is counted up again and ends two moves
      above where it started. */
  lemma CastlingUndoneCounts(s: MatchState, r: int, c: int)
    requires CastlingReady(s, r, c) && Coherent(s)
    ensures MakeMove(s, Position(r, c), Position(r, c + 2)).Success?
    ensures var t := MakeMove(s, Position(r, c), Position(r, c + 2)).value.1;
      var u := UndoMove(t, Position(r, c), Position(r, c + 2), null);
      && u.Success?
      && CountOf(u.value, At(s.grid, Position(r, c))) == CountOf(s, At(s.grid, Position(r, c)))
      && CountOf(u.value, At(s.grid, Position(r, c + 3))) == CountOf(s, At(s.grid, Position(r, c + 3))) + 2
      && CountOf(u.value, At(s.grid, Position(r, c - 4))) == CountOf(s, At(s.grid, Position(r, c - 4)))
  {
    CastledLayout(s, r, c);
    var t := MakeMove(s, Position(r, c), Position(r, c + 2)).value.1;
    UncastlingCounts(t, r, c);
  }

  /** The board castling as written leaves: the king on (r, c+2), the two pieces beside
      it on (r, c+1) and (r, c-1), three distinct pieces each counted one move up. */
  lemma CastledLayout(s: MatchState, r: int, c: int)
    requires CastlingReady(s, r, c) && Coherent(s)
    ensures MakeMove(s, Position(r, c), Position(r, c + 2)).Success?
    ensures var t := MakeMove(s, Position(r, c), Position(r, c + 2)).value.1;
      var k := At(s.grid, Position(r, c));
      var kingside := At(s.grid, Position(r, c + 3));
      var queenside := At(s.grid, Position(r, c - 4));
      && InBounds(t.grid, Position(r, c - 4)) && InBounds(t.grid, Position(r, c + 3))
      && At(t.grid, Position(r, c + 2)) == k && At(t.grid, Position(r, c)) == null
      && At(t.grid, Position(r, c + 1)) == kingside && At(t.grid, Position(r, c + 3)) == null
      && At(t.grid, Position(r, c - 1)) == queenside && At(t.grid, Position(r, c - 4)) == null
      && k != kingside && k != queenside && kingside != queenside
      && CountOf(t, k) == CountOf(s, k) + 1
      && CountOf(t, kingside) == CountOf(s, kingside) + 1
      && CountOf(t, queenside) == CountOf(s, queenside) + 1
  {
    CastlingAsWritten(s, r, c);
    CastlingCounts(s, r, c);
    var k := At(s.grid, Position(r, c));
    var kingside := At(s.grid, Position(r, c + 3));
    var queenside := At(s.grid, Position(r, c - 4));
    assert s.pos[k] == Some(Position(r, c)) && s.pos[kingside] == Some(Position(r, c + 3));
    assert s.pos[queenside] == Some(Position(r, c - 4));
  }

  /** undoMove of castling as written counts the king one move down, the piece going
      back to (r, c+3) one up and the one going back to (r, c-4) one down. */
  lemma UncastlingCounts(t: MatchState, r: int, c: int)
    requires InBounds(t.grid, Position(r, c - 4)) && InBounds(t.grid, Position(r, c + 3))
    requires var k := At(t.grid, Position(r, c + 2)); k != null && k.kind == King
    requires At(t.grid, Position(r, c)) == null
    requires At(t.grid, Position(r, c + 1)) != null && At(t.grid, Position(r, c + 3)) == null
    requires At(t.grid, Position(r, c - 1)) != null && At(t.grid, Position(r, c - 4)) == null
    requires var k := At(t.grid, Position(r, c + 2));
      var kingside := At(t.grid, Position(r, c + 1));
      var queenside := At(t.grid, Position(r, c - 1));
      k != kingside && k != queenside && kingside != queenside
    ensures var k := At(t.grid, Position(r, c + 2));
      var kingside := At(t.grid, Position(r, c + 1));
      var queenside := At(t.grid, Position(r, c - 1));
      var u := UndoMove(t, Position(r, c), Position(r, c + 2), null);
      && u.Success?
      && CountOf(u.value, k) == CountOf(t, k) - 1
      && CountOf(u.value, kingside) == CountOf(t, kingside) + 1
      && CountOf(u.value, queenside) == CountOf(t, queenside) - 1
  {
    var src := Position(r, c);
    var tgt := Position(r, c + 2);
    UncastlingSteps(t, src);
    var back := ReturnPiece(t, src, tgt).value.1;
    assert At(back.grid, Position(r, c + 1)) == At(t.grid, Position(r, c + 1));
    assert At(back.grid, Position(r, c - 1)) == At(t.grid, Position(r, c - 1));
    UncastleRooksSucceeds(back, src);
    UncastleRooksCounts(back, src);
  }

  /** As written, a king moving two columns right always moves a second piece from
      (r, c-4): with that square empty and (r, c-1) empty, makeMove places null and faults,
      after having moved the king and the first rook. */
  lemma CastlingWithoutQueensideRook(s: MatchState, r: int, c: int)
    requires InBounds(s.grid, Position(r, c - 4)) && InBounds(s.grid, Position(r, c + 3))
    requires var k := At(s.grid, Position(r, c)); k != null && k.kind == King
    requires At(s.grid, Position(r, c + 3)) != null
    requires At(s.grid, Position(r, c + 1)) == null && At(s.grid, Position(r, c + 2)) == null
    requires At(s.grid, Position(r, c - 4)) == null && At(s.grid, Position(r, c - 1)) == null
    ensures MakeMove(s, Position(r, c), Position(r, c + 2)) == Failure(NullPointer)
  {
    var shifted := ShiftPiece(s, Position(r, c), Position(r, c + 2)).value;
    CastleRooksFaults(shifted.1, Position(r, c));
  }

  /** As written, undoing a pawn move that changed column and captured nothing, while no
      pawn is the en-passant candidate, faults: the en-passant block of undoMove lifts the
      now empty target and places null. */
  lemma PawnSideStepUndoFaults(s: MatchState, src: Position, tgt: Position)
    requires InBounds(s.grid, src) && InBounds(s.grid, tgt)
    requires At(s.grid, tgt) != null && At(s.grid, tgt).kind == Pawn && At(s.grid, src) == null
    requires src.col != tgt.col && s.enPassant == null
    ensures UndoMove(s, src, tgt, null).Failure?
  {
    var back := ReturnPiece(s, src, tgt).value.1;
    assert At(back.grid, tgt) == null;
  }

  // ---- Validation -----------------------------------------------------------------

  /** validateSourcePosition raises its errors in order: no such square, no piece, a piece
      of the other player, no move; it succeeds exactly when none applies. */
  lemma ValidateSourceOrder(s: MatchState, rules: MoveRule, at: Position)
    ensures !InBounds(s.grid, at) ==> ValidateSource(s, rules, at) == Failure(PositionNotFound)
    ensures InBounds(s.grid, at) && At(s.grid, at) == null ==> ValidateSource(s, rules, at) == Failure(NoPiece)
    ensures InBounds(s.grid, at) && At(s.grid, at) != null && At(s.grid, at).color != s.player ==>
      ValidateSource(s, rules, at) == Failure(WrongColour)
    ensures InBounds(s.grid, at) && At(s.grid, at) != null && At(s.grid, at).color == s.player ==>
      var moves := MovesOf(s, rules, At(s.grid, at));
      && (moves.Failure? ==> ValidateSource(s, rules, at) == Failure(moves.error))
      && (moves.Success? && moves.value == {} ==> ValidateSource(s, rules, at) == Failure(NoMoves))
      && (moves.Success? && moves.value != {} ==> ValidateSource(s, rules, at) == Success(()))
  {
  }

  /** validateTargetPosition accepts exactly the squares the source piece's matrix marks. */
  lemma ValidateTargetMeans(s: MatchState, rules: MoveRule, src: Position, tgt: Position)
    requires InBounds(s.grid, src) && At(s.grid, src) != null && InBounds(s.grid, tgt)
    requires MovesOf(s, rules, At(s.grid, src)).Success?
    ensures ValidateTarget(s, rules, src, tgt).Success? <==> tgt in MovesOf(s, rules, At(s.grid, src)).value
    ensures ValidateTarget(s, rules, src, tgt).Failure? ==> ValidateTarget(s, rules, src, tgt).error == CantMove
  {
  }

  /** ChessMatch.possibleMoves runs the source checks first and then answers the piece's
      squares, which are never none. */
  lemma PossibleMovesChecksSource(s: MatchState, rules: MoveRule, at: Position)
    ensures PossibleMoves(s, rules, at).Success? <==> ValidateSource(s, rules, at).Success?
    ensures ValidateSource(s, rules, at).Failure? ==>
      PossibleMoves(s, rules, at) == Failure(ValidateSource(s, rules, at).error)
    ensures PossibleMoves(s, rules, at).Success? ==>
      PossibleMoves(s, rules, at) == MovesOf(s, rules, At(s.grid, at)) && PossibleMoves(s, rules, at).value != {}
  {
  }

  /** A move that fails validation is rejected with that error before anything changes. */
  lemma RejectedMoveChangesNothing(s: MatchState, rules: MoveRule, src: Position, tgt: Position, q: Piece?)
    requires ValidateSource(s, rules, src).Failure? || ValidateTarget(s, rules, src, tgt).Failure?
    ensures var e := if ValidateSource(s, rules, src).Failure? then ValidateSource(s, rules, src).error
                     else ValidateTarget(s, rules, src, tgt).error;
      PerformChessMove(s, rules, src, tgt, q) == Success(Played(Failure(e), s))
  {
  }

  // ---- Check and checkmate --------------------------------------------------------

  /** The loop of testCheck: when every piece can generate its squares and the king's
      square is on the board, the answer is whether one of them marks it. */
  lemma {:induction false} AttackedMeans(s: MatchState, rules: MoveRule, ps: seq<Piece>, kp: Position)
    requires InBounds(s.grid, kp)
    requires forall x <- ps :: MovesOf(s, rules, x).Success?
    ensures Attacked(s, rules, ps, kp).Success?
    ensures Attacked(s, rules, ps, kp).value <==> exists x <- ps :: kp in MovesOf(s, rules, x).value
  {
    if |ps| > 0 {
      AttackedMeans(s, rules, ps[1..], kp);
      assert ps == [ps[0]] + ps[1..];
    }
  }

  /** testCheckMate answers no, leaving everything as it was, when the colour is not in
      check. */
  lemma NoCheckNoMate(s: MatchState, rules: MoveRule, c: Color)
    requires TestCheck(s, rules, c) == Success(false)
    ensures TestCheckMate(s, rules, c) == Success((false, s))
  {
  }

  /** The scan of testCheckMate faults at column 8 when row 0 of the piece's matrix marks
      no square from column j on. */
  lemma {:induction false} ScanRunsOff(s: MatchState, rules: MoveRule, c: Color, p: Piece, moves: set<Position>, j: nat)
    requires forall k :: j <= k < Size ==> Position(0, k) !in moves
    ensures EscapeScan(s, rules, c, p, moves, j) == Failure(IndexOutOfBounds)
    decreases Size - j
  {
    if j < Size {
      ScanRunsOff(s, rules, c, p, moves, j + 1);
    }
  }

  /** As written, testCheckMate answers yes exactly for a colour in check while no piece
      of the other colour is on the board, and then changes nothing. */
  lemma MateOnlyWithoutPieces(s: MatchState, rules: MoveRule, c: Color)
    requires TestCheckMate(s, rules, c).Success?
    ensures TestCheckMate(s, rules, c).value.0 <==>
      TestCheck(s, rules, c) == Success(true) && OfColor(s.onBoard, Opponent(c)) == []
    ensures TestCheckMate(s, rules, c).value.0 ==> TestCheckMate(s, rules, c).value.1 == s
  {
  }

  // ---- A whole move -------------------------------------------------------------------

  /** A move that passes validation but leaves the player in check is undone and rejected
      with "You can't put yourself in check"; turn, player and the flags do not change. */
  lemma SelfCheckRollsBack(s: MatchState, rules: MoveRule, src: Position, tgt: Position, q: Piece?)
    requires ValidateSource(s, rules, src).Success? && ValidateTarget(s, rules, src, tgt).Success?
    requires MakeMove(s, src, tgt).Success?
    requires TestCheck(MakeMove(s, src, tgt).value.1, rules, s.player) == Success(true)
    requires PerformChessMove(s, rules, src, tgt, q).Success?
    ensures var m := MakeMove(s, src, tgt).value;
      var played := PerformChessMove(s, rules, src, tgt, q).value;
      && played.result == Failure(SelfCheck)
      && played.state == UndoMove(m.1, src, tgt, m.0).value
      && SameFlags(s, played.state)
  {
    var m := MakeMove(s, src, tgt).value;
  }

  /** With a piece that is not a king moving two columns right and not an en-passant
      shaped pawn move, the self-check rollback restores the match exactly, up to the
      order of piecesOnTheBoard. */
  lemma SelfCheckRestores(s: MatchState, rules: MoveRule, src: Position, tgt: Position, q: Piece?)
    requires WellFormed(s)
    requires ValidateSource(s, rules, src).Success? && ValidateTarget(s, rules, src, tgt).Success?
    requires !CastlesRight(At(s.grid, src), src, tgt)
    requires var cap := if tgt == src then null else At(s.grid, tgt);
      !(At(s.grid, src).kind == Pawn && src.col != tgt.col && cap == s.enPassant)
    requires TestCheck(MakeMove(s, src, tgt).value.1, rules, s.player) == Success(true)
    ensures PerformChessMove(s, rules, src, tgt, q).Success?
    ensures var played := PerformChessMove(s, rules, src, tgt, q).value;
      && played.result == Failure(SelfCheck)
      && played.state == s.(onBoard := played.state.onBoard)
      && multiset(played.state.onBoard) == multiset(s.onBoard)
  {
    MakeUndoRoundTrip(s, src, tgt);
    var m := MakeMove(s, src, tgt).value;
    assert m.1.player == s.player;
  }

  /** The promotion block: the promoted piece is the new queen exactly when a pawn reached
      the far row, and null otherwise; the new queen has the pawn's colour; turn, player,
      check, checkmate and the en-passant candidate do not change. */
  lemma PromotionEffects(s: MatchState, tgt: Position, q: Piece?)
    requires InBounds(s.grid, tgt) && Promotion(s, tgt, q).Success?
    ensures var t := Promotion(s, tgt, q).value;
      && t.promoted == (if Promotes(At(s.grid, tgt), tgt) then q else null)
      && t.turn == s.turn && t.player == s.player && t.check == s.check
      && t.checkMate == s.checkMate && t.enPassant == s.enPassant
    ensures Promotes(At(s.grid, tgt), tgt) ==>
      q != null && q.kind == Queen && q.color == At(s.grid, tgt).color
  {
  }

  /** A committed move returns the piece makeMove captured; the promoted piece is the new
      queen, in the pawn's colour, exactly when a pawn reached the far row; the check flag
      is whether the opponent is in check after the promotion; checkmate is declared,
      turn and player unchanged, exactly when the opponent is mated, and otherwise the
      turn advances and the other player moves; the en-passant candidate is the moved
      piece exactly when it is a pawn that moved two rows. */
  lemma CommitEffects(s: MatchState, rules: MoveRule, src: Position, tgt: Position, cap: Piece?, q: Piece?)
    requires Commit(s, rules, src, tgt, cap, q).Success?
    ensures InBounds(s.grid, tgt)
    ensures var p := At(s.grid, tgt);
      var played := Commit(s, rules, src, tgt, cap, q).value;
      var t := played.state;
      && played.result == Success(cap)
      && t.promoted == (if Promotes(p, tgt) then q else null)
      && (Promotes(p, tgt) ==> q != null && q.kind == Queen && q.color == p.color)
      && t.enPassant == EnPassantAfter(p, src, tgt)
    ensures var s1 := Promotion(s, tgt, q).value;
      var t := Commit(s, rules, src, tgt, cap, q).value.state;
      && TestCheck(s1, rules, Opponent(s.player)).Success?
      && t.check == TestCheck(s1, rules, Opponent(s.player)).value
      && TestCheckMate(s1.(check := t.check), rules, Opponent(s.player)).Success?
      && var mate := TestCheckMate(s1.(check := t.check), rules, Opponent(s.player)).value.0;
      && (mate ==> t.checkMate && t.turn == s.turn && t.player == s.player)
      && (!mate ==> t.checkMate == s.checkMate && t.turn == s.turn + 1 && t.player == Opponent(s.player))
  {
    CommitSteps(s, rules, src, tgt, cap, q);
    PromotionEffects(s, tgt, q);
    var s1 := Promotion(s, tgt, q).value;
    var s2 := s1.(check := TestCheck(s1, rules, Opponent(s1.player)).value);
  }

  /** A committed move of performChessMove, in terms of the source square: the piece
      returned is the one makeMove captured; the promoted piece and the en-passant
      candidate follow from the piece that moved. */
  lemma CommittedMove(s: MatchState, rules: MoveRule, src: Position, tgt: Position, q: Piece?)
    requires Coherent(s)
    requires ValidateSource(s, rules, src).Success? && ValidateTarget(s, rules, src, tgt).Success?
    requires MakeMove(s, src, tgt).Success?
    requires TestCheck(MakeMove(s, src, tgt).value.1, rules, s.player) == Success(false)
    requires PerformChessMove(s, rules, src, tgt, q).Success?
    ensures var p := At(s.grid, src);
      var played := PerformChessMove(s, rules, src, tgt, q).value;
      var t := played.state;
      && played.result == Success(MakeMove(s, src, tgt).value.0)
      && t.promoted == (if Promotes(p, tgt) then q else null)
      && (Promotes(p, tgt) ==> q != null && q.kind == Queen && q.color == p.color)
      && t.enPassant == EnPassantAfter(p, src, tgt)
    ensures var s1 := Promotion(MakeMove(s, src, tgt).value.1, tgt, q).value;
      var t := PerformChessMove(s, rules, src, tgt, q).value.state;
      && TestCheck(s1, rules, Opponent(s.player)).Success?
      && t.check == TestCheck(s1, rules, Opponent(s.player)).value
      && TestCheckMate(s1.(check := t.check), rules, Opponent(s.player)).Success?
      && var mate := TestCheckMate(s1.(check := t.check), rules, Opponent(s.player)).value.0;
      && (mate ==> t.checkMate && t.turn == s.turn && t.player == s.player)
      && (!mate ==> t.checkMate == s.checkMate && t.turn == s.turn + 1 && t.player == Opponent(s.player))
  {
    var m := MakeMove(s, src, tgt).value;
    MovedPieceLands(s, src, tgt);
    assert PerformChessMove(s, rules, src, tgt, q) == Commit(m.1, rules, src, tgt, m.0, q);
    CommitEffects(m.1, rules, src, tgt, m.0, q);
  }

  /** After makeMove the moved piece stands on the target, castling included. */
  lemma MovedPieceLands(s: MatchState, src: Position, tgt: Position)
    requires MakeMove(s, src, tgt).Success?
    ensures InBounds(s.grid, src) && At(s.grid, src) != null
    ensures InBounds(MakeMove(s, src, tgt).value.1.grid, tgt)
    ensures At(MakeMove(s, src, tgt).value.1.grid, tgt) == At(s.grid, src)
  {
    var p := At(s.grid, src);
    var shifted := ShiftPiece(s, src, tgt).value;
    if CastlesRight(p, src, tgt) {
      CastleRooksSquares(shifted.1, src.row, src.col);
    }
  }

  /** The promotion block keeps the match well formed, given a queen new to the match. */
  lemma PromotionWellFormed(s: MatchState, tgt: Position, q: Piece?)
    requires WellFormed(s) && (q != null ==> q !in s.pos)
    requires InBounds(s.grid, tgt) && Promotion(s, tgt, q).Success?
    ensures WellFormed(Promotion(s, tgt, q).value)
  {
    var moved := At(s.grid, tgt);
    if Promotes(moved, tgt) {
      var s0 := s.(promoted := moved);
      assert Promotion(s, tgt, q) == PromoteQueen(s0, q);
      ReplaceWellFormed(s0, "Q", q);
      var replaced := ReplacePromotedPiece(s0, "Q", q).value;
      assert PromoteQueen(s0, q) == Success(replaced.1.(promoted := replaced.0));
      FlagsIrrelevant(replaced.1, replaced.1.(promoted := replaced.0));
    } else {
      FlagsIrrelevant(s, s.(promoted := null));
    }
  }

  lemma CommitWellFormed(s: MatchState, rules: MoveRule, src: Position, tgt: Position, cap: Piece?, q: Piece?)
    requires WellFormed(s) && (q != null ==> q !in s.pos)
    requires Commit(s, rules, src, tgt, cap, q).Success?
    ensures WellFormed(Commit(s, rules, src, tgt, cap, q).value.state)
  {
    CommitSteps(s, rules, src, tgt, cap, q);
    PromotionWellFormed(s, tgt, q);
    var s1 := Promotion(s, tgt, q).value;
    var s2 := s1.(check := TestCheck(s1, rules, Opponent(s1.player)).value);
    FlagsIrrelevant(s1, s2);
    CheckMateWellFormed(s2, rules, Opponent(s2.player));
    FlagsIrrelevant(TestCheckMate(s2, rules, Opponent(s2.player)).value.1, Commit(s, rules, src, tgt, cap, q).value.state);
  }

  /** The steps of a committed move: promotion, the check test, then the checkmate test,
      whose board, tables and lists the move keeps. */
  lemma CommitSteps(s: MatchState, rules: MoveRule, src: Position, tgt: Position, cap: Piece?, q: Piece?)
    requires Commit(s, rules, src, tgt, cap, q).Success?
    ensures InBounds(s.grid, tgt) && Promotion(s, tgt, q).Success?
    ensures var s1 := Promotion(s, tgt, q).value;
      && TestCheck(s1, rules, Opponent(s1.player)).Success?
      && var s2 := s1.(check := TestCheck(s1, rules, Opponent(s1.player)).value);
      && TestCheckMate(s2, rules, Opponent(s2.player)).Success?
      && var u := TestCheckMate(s2, rules, Opponent(s2.player)).value.1;
      && var t := Commit(s, rules, src, tgt, cap, q).value.state;
      && t.grid == u.grid && t.pos == u.pos && t.count == u.count
      && t.onBoard == u.onBoard && t.captured == u.captured
  {
  }

  /** Being well formed depends on the board, the tables and the two lists only. */
  lemma FlagsIrrelevant(a: MatchState, b: MatchState)
    requires WellFormed(a)
    requires a.grid == b.grid && a.pos == b.pos && a.count == b.count
    requires a.onBoard == b.onBoard && a.captured == b.captured
    ensures WellFormed(b)
  {
  }

  /** Every state a move leaves is well formed, given a promotion queen new to the match. */
  lemma PerformWellFormed(s: MatchState, rules: MoveRule, src: Position, tgt: Position, q: Piece?)
    requires WellFormed(s) && (q != null ==> q !in s.pos)
    requires PerformChessMove(s, rules, src, tgt, q).Success?
    ensures WellFormed(PerformChessMove(s, rules, src, tgt, q).value.state)
  {
    if ValidateSource(s, rules, src).Success? && ValidateTarget(s, rules, src, tgt).Success? {
      MakeMoveWellFormed(s, src, tgt);
      var m := MakeMove(s, src, tgt).value;
      if TestCheck(m.1, rules, m.1.player).value {
        UndoMoveWellFormed(m.1, src, tgt, m.0);
      } else {
        CommitWellFormed(m.1, rules, src, tgt, m.0, q);
      }
    }
  }

  /** Trying a move and taking it back keeps the match well formed. */
  lemma TryWellFormed(s: MatchState, rules: MoveRule, c: Color, src: Position, tgt: Position)
    requires WellFormed(s) && TryMove(s, rules, c, src, tgt).Success?
    ensures WellFormed(TryMove(s, rules, c, src, tgt).value.1)
  {
    MakeMoveWellFormed(s, src, tgt);
    var made := MakeMove(s, src, tgt).value;
    UndoMoveWellFormed(made.1, src, tgt, made.0);
  }

  lemma {:induction false} ScanWellFormed(s: MatchState, rules: MoveRule, c: Color, p: Piece, moves: set<Position>, j: nat)
    requires WellFormed(s) && EscapeScan(s, rules, c, p, moves, j).Success?
    ensures WellFormed(EscapeScan(s, rules, c, p, moves, j).value.1)
    decreases Size - j
  {
    if j < Size {
      if Position(0, j) in moves {
        var src := PosOf(s, p).value;
        TryWellFormed(s, rules, c, src, Position(0, j));
        var tried := TryMove(s, rules, c, src, Position(0, j)).value;
        if tried.0 {
          ScanWellFormed(tried.1, rules, c, p, moves, j + 1);
        }
      } else {
        ScanWellFormed(s, rules, c, p, moves, j + 1);
      }
    }
  }

  lemma CheckMateWellFormed(s: MatchState, rules: MoveRule, c: Color)
    requires WellFormed(s) && TestCheckMate(s, rules, c).Success?
    ensures WellFormed(TestCheckMate(s, rules, c).value.1)
  {
    if TestCheck(s, rules, c).value {
      var pieces := OfColor(s.onBoard, Opponent(c));
      if |pieces| > 0 {
        ScanWellFormed(s, rules, c, pieces[0], MovesOf(s, rules, pieces[0]).value, 0);
      }
    }
  }

  // ---- Promotion ------------------------------------------------------------------

  /** replcePromotedPiece fails when nothing awaits promotion, and then on a type other
      than B, N, R and Q. */
  lemma ReplaceErrors(s: MatchState, t: string, q: Piece?)
    ensures s.promoted == null ==> ReplacePromotedPiece(s, t, q) == Failure(NothingToPromote)
    ensures s.promoted != null && !PromotionType(t) ==> ReplacePromotedPiece(s, t, q) == Failure(BadPromotion)
  {
  }

  /** replcePromotedPiece on a well-formed match succeeds exactly when q is a piece of the
      kind t names in the promoted piece's colour; then the new piece takes the promoted
      piece's square with no moves, every other square is as before, the promoted piece
      leaves the board and piecesOnTheBoard, and the new piece is appended at the end of
      piecesOnTheBoard. */
  lemma ReplaceEffects(s: MatchState, t: string, q: Piece)
    requires WellFormed(s) && s.promoted != null && PromotionType(t) && PosOf(s, s.promoted).Some?
    requires q !in s.pos
    ensures ReplacePromotedPiece(s, t, q).Success? <==> NewPieceOf(q, t, s.promoted.color)
    ensures NewPieceOf(q, t, s.promoted.color) ==>
      var at := PosOf(s, s.promoted).value;
      var r := ReplacePromotedPiece(s, t, q).value;
      && r.0 == q
      && (forall sq :: InBounds(s.grid, sq) ==> At(r.1.grid, sq) == if sq == at then q else At(s.grid, sq))
      && r.1.pos[q] == Some(at) && r.1.pos[s.promoted] == None && r.1.count[q] == 0
      && r.1.onBoard == RemoveFirst(s.onBoard, s.promoted) + [q]
      && r.1.captured == s.captured && SameFlags(s, r.1)
  {
    var at := PosOf(s, s.promoted).value;
    assert At(s.grid, at) == s.promoted;
    if NewPieceOf(q, t, s.promoted.color) {
      ReplaceClosedForm(s, t, q);
    }
  }

  // ---- The initial position -------------------------------------------------------

  /** The square of the i-th placement of initialSetup. */
  function LayoutSquare(i: nat): Position
    requires i < |Layout|
  {
    ToPosition(Layout[i].column, Layout[i].rank)
  }

  /** The 22 placements of initialSetup name distinct squares of the 8 by 8 board. */
  lemma LayoutSquares()
    ensures forall i :: 0 <= i < |Layout| ==> 0 <= LayoutSquare(i).row < Size && 0 <= LayoutSquare(i).col < Size
    ensures forall i, j :: 0 <= i < j < |Layout| ==> LayoutSquare(i) != LayoutSquare(j)
  {
  }

  /** What the first |ps| placements of initialSetup leave, with ps the pieces they
      create: a well-formed match with turn 1, white to play, no flags, nothing captured,
      piecesOnTheBoard exactly ps in order, and each piece on its square with no moves. */
  ghost predicate SetUp(s: MatchState, ps: seq<Piece>)
    requires |ps| <= |Layout|
  {
    && WellFormed(s) && SameFlags(s, NewMatch())
    && s.onBoard == ps && s.captured == []
    && s.pos.Keys == (set x <- ps)
    && (forall i :: 0 <= i < |ps| ==> s.pos[ps[i]] == Some(LayoutSquare(i)) && s.count[ps[i]] == 0)
  }

  /** After the first placements, only their squares are occupied. */
  lemma OccupiedAreLaid(s: MatchState, ps: seq<Piece>)
    requires |ps| <= |Layout| && SetUp(s, ps)
    ensures forall q :: InBounds(s.grid, q) && At(s.grid, q) != null ==>
      exists i :: 0 <= i < |ps| && q == LayoutSquare(i)
  {
    forall q | InBounds(s.grid, q) && At(s.grid, q) != null
      ensures exists i :: 0 <= i < |ps| && q == LayoutSquare(i)
    {
      var x := At(s.grid, q);
      assert x in (set y <- ps);
      var i :| 0 <= i < |ps| && ps[i] == x;
      assert s.pos[x] == Some(q);
    }
  }

  /** The square of the next placement is on the board and still empty. */
  lemma NextSquareFree(s: MatchState, ps: seq<Piece>)
    requires |ps| < |Layout| && SetUp(s, ps)
    ensures InBounds(s.grid, LayoutSquare(|ps|)) && At(s.grid, LayoutSquare(|ps|)) == null
  {
    LayoutSquares();
    OccupiedAreLaid(s, ps);
  }

  /** The position and move-count tables after one more placement. */
  lemma PlacedTables(s: MatchState, t: MatchState, ps: seq<Piece>, x: Piece)
    requires |ps| < |Layout| && x !in ps
    requires s.pos.Keys == (set y <- ps) && s.count.Keys == s.pos.Keys
    requires forall i :: 0 <= i < |ps| ==> s.pos[ps[i]] == Some(LayoutSquare(i)) && s.count[ps[i]] == 0
    requires t.pos.Keys == s.pos.Keys + {x} && t.count.Keys == t.pos.Keys
    requires t.pos[x] == Some(LayoutSquare(|ps|)) && t.count[x] == 0
    requires forall y <- s.pos.Keys :: t.pos[y] == s.pos[y] && t.count[y] == s.count[y]
    ensures t.pos.Keys == (set y <- ps + [x])
    ensures forall i :: 0 <= i < |ps| + 1 ==>
      t.pos[(ps + [x])[i]] == Some(LayoutSquare(i)) && t.count[(ps + [x])[i]] == 0
  {
    var qs := ps + [x];
    forall i | 0 <= i < |qs|
      ensures t.pos[qs[i]] == Some(LayoutSquare(i)) && t.count[qs[i]] == 0
    {
      if i < |ps| {
        assert qs[i] == ps[i] && ps[i] in s.pos.Keys;
      }
    }
    assert t.pos.Keys == (set y <- qs);
  }

  /** One more placement of initialSetup, with a piece new to the match. */
  lemma SetupStep(s: MatchState, ps: seq<Piece>, x: Piece)
    requires |ps| < |Layout| && SetUp(s, ps) && x !in ps
    ensures var e := Layout[|ps|];
      && PlaceNewPiece(s, e.column, e.rank, x).Success?
      && SetUp(PlaceNewPiece(s, e.column, e.rank, x).value, ps + [x])
  {
    var e := Layout[|ps|];
    NextSquareFree(s, ps);
    assert x !in s.pos;
    PlaceNewWellFormed(s, e.column, e.rank, x);
    var t := PlaceNewPiece(s, e.column, e.rank, x).value;
    PlacedTables(s, t, ps, x);
  }

  /** A new match, before any placement. */
  lemma NewMatchSetUp()
    ensures SetUp(NewMatch(), [])
  {
    assert OnSquares(NewMatch()) == {};
  }

  /** initialSetup, placement by placement, for distinct pieces. */
  lemma {:induction false} SetupCorrect(ps: seq<Piece>)
    requires |ps| <= |Layout| && NoDups(ps)
    ensures Setup(ps).Success? && SetUp(Setup(ps).value, ps)
  {
    if |ps| == 0 {
      NewMatchSetUp();
    } else {
      var n := |ps| - 1;
      var prev := ps[..n];
      assert ps == prev + [ps[n]];
      assert NoDups(prev) && ps[n] !in prev;
      SetupCorrect(prev);
      var s := Setup(prev).value;
      var e := Layout[n];
      assert Setup(ps) == PlaceNewPiece(s, e.column, e.rank, ps[n]);
      SetupStep(s, prev, ps[n]);
      assert SetUp(PlaceNewPiece(s, e.column, e.rank, ps[n]).value, prev + [ps[n]]);
    }
  }

  /** initialSetup square by square: the square of the i-th placement holds the i-th
      piece created, of the kind and colour the placement names, with no moves. */
  lemma SetupPlacesLayout(ps: seq<Piece>)
    requires |ps| <= |Layout| && NoDups(ps) && Created(ps)
    ensures Setup(ps).Success?
    ensures var s := Setup(ps).value;
      forall i :: 0 <= i < |ps| ==>
        && InBounds(s.grid, LayoutSquare(i)) && At(s.grid, LayoutSquare(i)) == ps[i]
        && At(s.grid, LayoutSquare(i)).kind == Layout[i].kind
        && At(s.grid, LayoutSquare(i)).color == Layout[i].color
        && ps[i] in s.count && s.count[ps[i]] == 0
  {
    SetupCorrect(ps);
    var s := Setup(ps).value;
    forall i | 0 <= i < |ps|
      ensures InBounds(s.grid, LayoutSquare(i)) && At(s.grid, LayoutSquare(i)) == ps[i]
    {
      assert ps[i] in s.pos.Keys;
    }
  }

  /** After initialSetup every square it does not name is empty. */
  lemma SetupLeavesRestEmpty(ps: seq<Piece>)
    requires |ps| <= |Layout| && NoDups(ps)
    ensures Setup(ps).Success?
    ensures var s := Setup(ps).value;
      forall q :: InBounds(s.grid, q) && (forall i :: 0 <= i < |ps| ==> q != LayoutSquare(i)) ==> At(s.grid, q) == null
  {
    SetupCorrect(ps);
    OccupiedAreLaid(Setup(ps).value, ps);
  }
}
