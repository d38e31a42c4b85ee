/** The consistency a match keeps: the board, each piece's recorded position and the two
    rosters describe the same placement of pieces. Every board step the match takes, and
    every whole operation built from them, keeps it. */
module MatchInvariant {
  import opened Outcomes
  import opened Boardgame
  import opened MatchRules

  /** The pieces whose recorded position is a square. */
  ghost function OnSquares(s: MatchState): set<Piece> {
    set x | x in s.pos && s.pos[x].Some?
  }

  /** Every piece on a square records that square. */
  ghost predicate SquaresAgree(s: MatchState) {
    forall q :: InBounds(s.grid, q) && At(s.grid, q) != null ==>
      At(s.grid, q) in s.pos && s.pos[At(s.grid, q)] == Some(q)
  }

  /** Every recorded position holds the piece that records it. */
  ghost predicate PositionsAgree(s: MatchState) {
    forall x <- s.pos.Keys :: s.pos[x].Some? ==> InBounds(s.grid, s.pos[x].value) && At(s.grid, s.pos[x].value) == x
  }

  /** The board is 8 by 8 and agrees with the position table; positions and move counts
      are known for the same pieces. */
  ghost predicate Coherent(s: MatchState) {
    && IsRect(s.grid, Size, Size)
    && s.pos.Keys == s.count.Keys
    && SquaresAgree(s)
    && PositionsAgree(s)
  }

  /** piecesOnTheBoard lists exactly the pieces on a square, once each; capturedPieces
      lists pieces off the board, once each. */
  ghost predicate Rosters(s: MatchState) {
    && NoDups(s.onBoard)
    && NoDups(s.captured)
    && (forall x <- s.onBoard :: x in OnSquares(s))
    && (forall x <- OnSquares(s) :: x in s.onBoard)
    && (forall x <- s.captured :: x in s.pos && s.pos[x] == None)
  }

  ghost predicate WellFormed(s: MatchState) {
    Coherent(s) && Rosters(s)
  }

  /** The match fields outside the board and the rosters. */
  predicate SameFlags(a: MatchState, b: MatchState) {
    && a.turn == b.turn && a.player == b.player && a.check == b.check
    && a.checkMate == b.checkMate && a.enPassant == b.enPassant && a.promoted == b.promoted
  }

  // ---- Lists ----------------------------------------------------------------------

  /** Removing the first occurrence from a list without repeats removes the element. */
  lemma {:induction false} RemoveFirstNoDups(xs: seq<Piece>, x: Piece)
    requires NoDups(xs)
    ensures NoDups(RemoveFirst(xs, x))
    ensures forall y :: y in RemoveFirst(xs, x) <==> y in xs && y != x
  {
    RemoveFirstMembers(xs, x);
    RemoveFirstKeepsNoDups(xs, x);
  }

  lemma {:induction false} RemoveFirstMembers(xs: seq<Piece>, x: Piece)
    requires NoDups(xs)
    ensures forall y :: y in RemoveFirst(xs, x) <==> y in xs && y != x
  {
    if |xs| > 0 {
      var tail := xs[1..];
      TailNoDups(xs);
      assert xs == [xs[0]] + tail;
      if xs[0] != x {
        RemoveFirstMembers(tail, x);
        assert RemoveFirst(xs, x) == [xs[0]] + RemoveFirst(tail, x);
      }
    }
  }

  lemma {:induction false} RemoveFirstKeepsNoDups(xs: seq<Piece>, x: Piece)
    requires NoDups(xs)
    ensures NoDups(RemoveFirst(xs, x))
  {
    if |xs| > 0 {
      var tail := xs[1..];
      TailNoDups(xs);
      if xs[0] != x {
        RemoveFirstKeepsNoDups(tail, x);
        RemoveFirstMembers(tail, x);
        var rest := RemoveFirst(tail, x);
        assert RemoveFirst(xs, x) == [xs[0]] + rest;
        PrependNoDups(xs[0], rest);
      }
    }
  }

  /** The tail of a list without repeats has none, and does not hold the head. */
  lemma TailNoDups(xs: seq<Piece>)
    requires NoDups(xs) && |xs| > 0
    ensures NoDups(xs[1..]) && xs[0] !in xs[1..]
  {
    var tail := xs[1..];
    forall i, j | 0 <= i < j < |tail|
      ensures tail[i] != tail[j]
    {
      assert tail[i] == xs[i + 1] && tail[j] == xs[j + 1];
    }
    forall i | 0 <= i < |tail|
      ensures tail[i] != xs[0]
    {
      assert tail[i] == xs[i + 1];
    }
  }

  lemma PrependNoDups(x: Piece, ys: seq<Piece>)
    requires NoDups(ys) && x !in ys
    ensures NoDups([x] + ys)
  {
    var zs := [x] + ys;
    forall i, j | 0 <= i < j < |zs|
      ensures zs[i] != zs[j]
    {
      assert zs[j] == ys[j - 1];
      if i > 0 {
        assert zs[i] == ys[i - 1];
      }
    }
  }

  lemma AppendNoDups(xs: seq<Piece>, x: Piece)
    requires NoDups(xs) && x !in xs
    ensures NoDups(xs + [x])
  {
    var ys := xs + [x];
    forall i, j | 0 <= i < j < |ys|
      ensures ys[i] != ys[j]
    {
      if j == |xs| {
        assert ys[i] == xs[i];
      }
    }
  }

  /** Appending an absent element and then removing it gives the list back. */
  lemma {:induction false} RemoveFirstAppended(xs: seq<Piece>, x: Piece)
    requires x !in xs
    ensures RemoveFirst(xs + [x], x) == xs
  {
    if |xs| > 0 {
      assert (xs + [x])[0] == xs[0];
      assert (xs + [x])[1..] == xs[1..] + [x];
      RemoveFirstAppended(xs[1..], x);
      assert xs == [xs[0]] + xs[1..];
    }
  }

  // ---- Board steps ----------------------------------------------------------------

  /** Lifting a piece off its square keeps the board and the table in agreement; the
      piece leaves the squares. */
  lemma LiftCoherent(s: MatchState, at: Position)
    requires Coherent(s) && InBounds(s.grid, at) && At(s.grid, at) != null
    ensures RemoveAt(s, at).Success?
    ensures Coherent(RemoveAt(s, at).value.1)
    ensures OnSquares(RemoveAt(s, at).value.1) == OnSquares(s) - {At(s.grid, at)}
    ensures RemoveAt(s, at).value.1.pos.Keys == s.pos.Keys
  {
    var x := At(s.grid, at);
    var t := RemoveAt(s, at).value.1;
    assert t == s.(grid := Put(s.grid, at, null), pos := s.pos[x := None]);
    forall q | InBounds(t.grid, q) && At(t.grid, q) != null
      ensures At(t.grid, q) in t.pos && t.pos[At(t.grid, q)] == Some(q)
    {
      assert q != at && At(t.grid, q) == At(s.grid, q);
      assert s.pos[At(s.grid, q)] == Some(q);
    }
    forall y <- t.pos.Keys | t.pos[y].Some?
      ensures InBounds(t.grid, t.pos[y].value) && At(t.grid, t.pos[y].value) == y
    {
      assert y != x && s.pos[y] == t.pos[y];
    }
    assert OnSquares(t) == OnSquares(s) - {x};
  }

  /** Placing a piece with no square on an empty square keeps the agreement; the piece
      joins the squares. */
  lemma LandCoherent(s: MatchState, x: Piece, at: Position)
    requires Coherent(s) && x in s.pos && s.pos[x] == None
    requires InBounds(s.grid, at) && At(s.grid, at) == null
    ensures PlaceAt(s, x, at).Success?
    ensures Coherent(PlaceAt(s, x, at).value)
    ensures OnSquares(PlaceAt(s, x, at).value) == OnSquares(s) + {x}
    ensures PlaceAt(s, x, at).value.pos.Keys == s.pos.Keys
  {
    var t := PlaceAt(s, x, at).value;
    forall q | InBounds(t.grid, q) && At(t.grid, q) != null
      ensures At(t.grid, q) in t.pos && t.pos[At(t.grid, q)] == Some(q)
    {
      if q != at {
        assert At(t.grid, q) == At(s.grid, q);
        assert s.pos[At(s.grid, q)] == Some(q);
      }
    }
    forall y <- t.pos.Keys | t.pos[y].Some?
      ensures InBounds(t.grid, t.pos[y].value) && At(t.grid, t.pos[y].value) == y
    {
      if y != x {
        assert s.pos[y] == t.pos[y];
        assert s.pos[y].value != at;
      }
    }
    assert OnSquares(t) == OnSquares(s) + {x};
  }

  lemma BumpCoherent(s: MatchState, x: Piece, delta: int)
    requires Coherent(s) && x in s.pos
    ensures Coherent(Bump(s, x, delta)) && OnSquares(Bump(s, x, delta)) == OnSquares(s)
  {
  }

  /** A piece new to the match enters the tables with no square. */
  lemma RegisterCoherent(s: MatchState, x: Piece)
    requires Coherent(s) && x !in s.pos
    ensures var t := s.(pos := s.pos[x := None], count := s.count[x := 0]);
      Coherent(t) && OnSquares(t) == OnSquares(s) && t.pos.Keys == s.pos.Keys + {x}
  {
    var t := s.(pos := s.pos[x := None], count := s.count[x := 0]);
    assert OnSquares(t) == OnSquares(s);
  }

  // ---- Rosters ------------------------------------------------------------------

  /** Rosters that did not change stay right while the same pieces stand on squares. */
  lemma RostersKept(s: MatchState, t: MatchState)
    requires Rosters(s) && t.onBoard == s.onBoard && t.captured == s.captured
    requires OnSquares(t) == OnSquares(s) && t.pos.Keys == s.pos.Keys
    ensures Rosters(t)
  {
    forall y <- t.captured
      ensures y in t.pos && t.pos[y] == None
    {
      assert y !in OnSquares(s);
    }
  }

  /** A piece leaving the squares moves from piecesOnTheBoard to capturedPieces. */
  lemma RostersCapture(s: MatchState, t: MatchState, x: Piece)
    requires Rosters(s) && x in OnSquares(s)
    requires OnSquares(t) == OnSquares(s) - {x} && t.pos.Keys == s.pos.Keys
    requires t.onBoard == RemoveFirst(s.onBoard, x) && t.captured == s.captured + [x]
    ensures Rosters(t)
  {
    RemoveFirstNoDups(s.onBoard, x);
    assert x !in s.captured;
    AppendNoDups(s.captured, x);
    forall y <- t.captured
      ensures y in t.pos && t.pos[y] == None
    {
      if y != x {
        assert y in s.captured && y in s.pos && y !in OnSquares(s);
        assert y !in OnSquares(t);
      }
    }
  }

  /** A piece off the board returning to a square moves back from capturedPieces to the
      end of piecesOnTheBoard. */
  lemma RostersRestore(s: MatchState, t: MatchState, x: Piece)
    requires Rosters(s) && x in s.pos && x !in OnSquares(s)
    requires OnSquares(t) == OnSquares(s) + {x} && t.pos.Keys == s.pos.Keys
    requires t.onBoard == s.onBoard + [x] && t.captured == RemoveFirst(s.captured, x)
    ensures Rosters(t)
  {
    RemoveFirstNoDups(s.captured, x);
    assert x !in s.onBoard;
    AppendNoDups(s.onBoard, x);
    forall y <- t.captured
      ensures y in t.pos && t.pos[y] == None
    {
      assert y in s.captured && y != x && y !in OnSquares(s);
    }
  }

  /** A piece leaving the squares for good, while a piece new to the match takes a square
      and is appended to piecesOnTheBoard. */
  lemma RostersReplace(s: MatchState, t: MatchState, x: Piece?, q: Piece)
    requires Rosters(s) && q !in s.pos && (x != null ==> x in OnSquares(s))
    requires OnSquares(t) == (if x == null then OnSquares(s) else OnSquares(s) - {x}) + {q}
    requires t.pos.Keys == s.pos.Keys + {q}
    requires t.onBoard == (if x == null then s.onBoard else RemoveFirst(s.onBoard, x)) + [q]
    requires t.captured == s.captured
    ensures Rosters(t)
  {
    var kept := if x == null then s.onBoard else RemoveFirst(s.onBoard, x);
    if x != null {
      RemoveFirstNoDups(s.onBoard, x);
    }
    assert q !in s.onBoard;
    assert q !in kept;
    AppendNoDups(kept, q);
    forall y <- t.captured
      ensures y in t.pos && t.pos[y] == None
    {
      assert y in s.pos && y !in OnSquares(s) && y != q;
    }
  }

  // ---- Whole operations -----------------------------------------------------------

  /** After the first block of makeMove the board and the table still agree, the piece
      captured, if any, has left the squares, and the rosters changed as a capture
      changes them. */
  lemma ShiftCoherent(s: MatchState, src: Position, tgt: Position)
    requires Coherent(s) && ShiftPiece(s, src, tgt).Success?
    ensures var t := ShiftPiece(s, src, tgt).value;
      && Coherent(t.1) && t.1.pos.Keys == s.pos.Keys && SameFlags(s, t.1)
      && (t.0 == null ==> OnSquares(t.1) == OnSquares(s) && t.1.onBoard == s.onBoard && t.1.captured == s.captured)
      && (t.0 != null ==> t.0 in OnSquares(s) && OnSquares(t.1) == OnSquares(s) - {t.0}
                          && t.1.onBoard == RemoveFirst(s.onBoard, t.0) && t.1.captured == s.captured + [t.0])
  {
    var t := ShiftPiece(s, src, tgt).value;
    RelocateCoherent(s, t.1, src, tgt);
  }

  /** t is s with the piece on src moved to tgt and whatever stood on tgt taken off the
      squares. */
  ghost predicate Relocated(s: MatchState, t: MatchState, src: Position, tgt: Position) {
    && InBounds(s.grid, src) && InBounds(s.grid, tgt) && At(s.grid, src) != null
    && var p := At(s.grid, src);
       var cap := if tgt == src then null else At(s.grid, tgt);
       && t.grid == Put(Put(s.grid, src, null), tgt, p)
       && t.pos == Vacated(s.pos, cap)[p := Some(tgt)]
  }

  /** A piece moving from src to tgt, taking whatever stood on tgt off the squares, keeps
      the board and the table in agreement. */
  lemma RelocateCoherent(s: MatchState, t: MatchState, src: Position, tgt: Position)
    requires Coherent(s) && Relocated(s, t, src, tgt) && t.count.Keys == s.count.Keys
    ensures Coherent(t) && t.pos.Keys == s.pos.Keys
    ensures var cap := if tgt == src then null else At(s.grid, tgt);
      && (cap == null ==> OnSquares(t) == OnSquares(s))
      && (cap != null ==> cap in OnSquares(s) && OnSquares(t) == OnSquares(s) - {cap})
  {
    RelocateSquares(s, t, src, tgt);
    RelocatePositions(s, t, src, tgt);
    var p: Piece := At(s.grid, src);
    var cap := if tgt == src then null else At(s.grid, tgt);
    assert p in s.pos && s.pos[p] == Some(src);
    assert cap != null ==> cap in s.pos && s.pos[cap as Piece] == Some(tgt);
    VacatedOnSquares(s, t, p, cap, tgt);
  }

  /** The pieces on squares after one piece moves to tgt and another, if any, is taken
      off. */
  lemma VacatedOnSquares(s: MatchState, t: MatchState, p: Piece, cap: Piece?, tgt: Position)
    requires p in s.pos && s.pos[p].Some? && p != cap
    requires cap != null ==> cap in s.pos && s.pos[cap as Piece].Some?
    requires t.pos == Vacated(s.pos, cap)[p := Some(tgt)]
    ensures t.pos.Keys == s.pos.Keys
    ensures cap == null ==> OnSquares(t) == OnSquares(s)
    ensures cap != null ==> OnSquares(t) == OnSquares(s) - {cap}
  {
  }

  lemma RelocateSquares(s: MatchState, t: MatchState, src: Position, tgt: Position)
    requires Coherent(s) && Relocated(s, t, src, tgt)
    ensures SquaresAgree(t)
  {
    var p: Piece := At(s.grid, src);
    var cap := if tgt == src then null else At(s.grid, tgt);
    forall q | InBounds(t.grid, q) && At(t.grid, q) != null
      ensures At(t.grid, q) in t.pos && t.pos[At(t.grid, q)] == Some(q)
    {
      if q != tgt {
        var x: Piece := At(s.grid, q);
        assert q != src && At(t.grid, q) == x;
        assert s.pos[x] == Some(q);
        assert x != p && x != cap;
      }
    }
  }

  lemma RelocatePositions(s: MatchState, t: MatchState, src: Position, tgt: Position)
    requires Coherent(s) && Relocated(s, t, src, tgt)
    ensures PositionsAgree(t)
  {
    var p: Piece := At(s.grid, src);
    var cap := if tgt == src then null else At(s.grid, tgt);
    assert s.pos[p] == Some(src);
    forall y <- t.pos.Keys | t.pos[y].Some?
      ensures InBounds(t.grid, t.pos[y].value) && At(t.grid, t.pos[y].value) == y
    {
      if y != p {
        assert y != cap && t.pos[y] == s.pos[y];
        var q := s.pos[y].value;
        assert At(s.grid, q) == y;
      }
    }
  }

  /** The first block of makeMove keeps the match well formed; a captured piece ends up
      off the board and in capturedPieces. */
  lemma ShiftWellFormed(s: MatchState, src: Position, tgt: Position)
    requires WellFormed(s) && ShiftPiece(s, src, tgt).Success?
    ensures var t := ShiftPiece(s, src, tgt).value;
      && WellFormed(t.1) && t.1.pos.Keys == s.pos.Keys && SameFlags(s, t.1)
      && (t.0 != null ==> t.0 in t.1.pos && t.1.pos[t.0] == None)
  {
    ShiftCoherent(s, src, tgt);
    var t := ShiftPiece(s, src, tgt).value;
    if t.0 == null {
      RostersKept(s, t.1);
    } else {
      RostersCapture(s, t.1, t.0);
      assert t.0 !in OnSquares(t.1);
    }
  }

  /** A castling rook move keeps the match well formed and moves no piece on or off the
      board. */
  lemma MoveRookWellFormed(s: MatchState, from: Position, to: Position, delta: int)
    requires WellFormed(s) && MoveRook(s, from, to, delta).Success?
    ensures var t := MoveRook(s, from, to, delta).value;
      && WellFormed(t) && t.pos.Keys == s.pos.Keys && OnSquares(t) == OnSquares(s)
      && t.onBoard == s.onBoard && t.captured == s.captured && SameFlags(s, t)
  {
    var lifted := RemoveAt(s, from).value;
    var x := lifted.0;
    assert x != null;
    LiftCoherent(s, from);
    LandCoherent(lifted.1, x, to);
    var placed := PlaceAt(lifted.1, x, to).value;
    BumpCoherent(placed, x, delta);
    RostersKept(s, Bump(placed, x, delta));
  }

  /** The rook moves of castling keep the match well formed. */
  lemma CastleWellFormed(s: MatchState, src: Position)
    requires WellFormed(s) && CastleRooks(s, src).Success?
    ensures var t := CastleRooks(s, src).value;
      && WellFormed(t) && t.pos.Keys == s.pos.Keys && OnSquares(t) == OnSquares(s)
      && t.onBoard == s.onBoard && t.captured == s.captured
  {
    var a := Position(src.row, src.col + 3);
    var b := Position(src.row, src.col + 1);
    MoveRookWellFormed(s, a, b, 1);
    var s1 := MoveRook(s, a, b, 1).value;
    MoveRookWellFormed(s1, Position(src.row, src.col - 4), Position(src.row, src.col - 1), 1);
  }

  /** The rook moves of undoMove keep the match well formed. */
  lemma UncastleWellFormed(s: MatchState, src: Position)
    requires WellFormed(s) && UncastleRooks(s, src).Success?
    ensures var t := UncastleRooks(s, src).value;
      && WellFormed(t) && t.pos.Keys == s.pos.Keys && OnSquares(t) == OnSquares(s)
      && t.onBoard == s.onBoard && t.captured == s.captured
  {
    var a := Position(src.row, src.col + 1);
    var b := Position(src.row, src.col + 3);
    MoveRookWellFormed(s, a, b, 1);
    var s1 := MoveRook(s, a, b, 1).value;
    MoveRookWellFormed(s1, Position(src.row, src.col - 1), Position(src.row, src.col - 4), -1);
  }

  lemma MakeMoveWellFormed(s: MatchState, src: Position, tgt: Position)
    requires WellFormed(s) && MakeMove(s, src, tgt).Success?
    ensures var t := MakeMove(s, src, tgt).value;
      && WellFormed(t.1) && t.1.pos.Keys == s.pos.Keys && SameFlags(s, t.1)
      && (t.0 != null ==> t.0 in t.1.pos && t.1.pos[t.0] == None)
  {
    ShiftWellFormed(s, src, tgt);
    var shifted := ShiftPiece(s, src, tgt).value;
    var p := At(s.grid, src);
    if p != null && CastlesRight(p, src, tgt) {
      CastleWellFormed(shifted.1, src);
      if shifted.0 != null {
        assert shifted.0 !in OnSquares(shifted.1);
      }
    }
  }

  /** The first block of undoMove keeps the match well formed and moves no piece on or
      off the board. */
  lemma ReturnWellFormed(s: MatchState, src: Position, tgt: Position)
    requires WellFormed(s) && ReturnPiece(s, src, tgt).Success?
    ensures var t := ReturnPiece(s, src, tgt).value.1;
      && WellFormed(t) && t.pos.Keys == s.pos.Keys && SameFlags(s, t)
      && OnSquares(t) == OnSquares(s) && t.onBoard == s.onBoard && t.captured == s.captured
  {
    var p := At(s.grid, tgt);
    LiftCoherent(s, tgt);
    var s1 := RemoveAt(s, tgt).value.1;
    BumpCoherent(s1, p, -1);
    var s2 := Bump(s1, p, -1);
    LandCoherent(s2, p, src);
    var back := PlaceAt(s2, p, src).value;
    assert ReturnPiece(s, src, tgt).value.1 == back;
    RostersKept(s, back);
  }

  /** Restoring a piece that is off the board keeps the match well formed. */
  lemma RestoreWellFormed(s: MatchState, cap: Piece, tgt: Position)
    requires WellFormed(s) && cap in s.pos && s.pos[cap] == None && Restore(s, cap, tgt).Success?
    ensures var t := Restore(s, cap, tgt).value;
      WellFormed(t) && t.pos.Keys == s.pos.Keys && SameFlags(s, t)
  {
    LandCoherent(s, cap, tgt);
    RostersRestore(s, Restore(s, cap, tgt).value, cap);
  }

  lemma UndoEnPassantWellFormed(s: MatchState, mover: Color, tgt: Position)
    requires WellFormed(s) && UndoEnPassant(s, mover, tgt).Success?
    ensures var t := UndoEnPassant(s, mover, tgt).value;
      WellFormed(t) && t.pos.Keys == s.pos.Keys && SameFlags(s, t)
  {
    var lifted := RemoveAt(s, tgt).value;
    var x := lifted.0;
    assert x != null;
    var sq := Position(if mover == White then 3 else 4, tgt.col);
    LiftCoherent(s, tgt);
    LandCoherent(lifted.1, x, sq);
    var placed := PlaceAt(lifted.1, x, sq).value;
    LiftCoherent(placed, sq);
    var again := RemoveAt(placed, sq).value;
    assert again.0 == x;
    var t := again.1.(captured := again.1.captured + [x], onBoard := RemoveFirst(again.1.onBoard, x));
    assert UndoEnPassant(s, mover, tgt).value == t;
    RostersCapture(s, t, x);
  }

  lemma UndoMoveWellFormed(s: MatchState, src: Position, tgt: Position, cap: Piece?)
    requires WellFormed(s) && UndoMove(s, src, tgt, cap).Success?
    requires cap != null ==> cap in s.pos && s.pos[cap] == None
    ensures var t := UndoMove(s, src, tgt, cap).value;
      WellFormed(t) && t.pos.Keys == s.pos.Keys && SameFlags(s, t)
  {
    ReturnWellFormed(s, src, tgt);
    var u := ReturnPiece(s, src, tgt).value;
    var p := u.0;
    var s0 := u.1;
    if cap != null {
      assert s.pos[p] == Some(tgt);
      assert cap != p;
      RestoreWellFormed(u.1, cap, tgt);
      s0 := Restore(u.1, cap, tgt).value;
    }
    var s1 := s0;
    if CastlesRight(p, src, tgt) {
      UncastleWellFormed(s0, src);
      s1 := UncastleRooks(s0, src).value;
    }
    if p.kind == Pawn && src.col != tgt.col && cap == s.enPassant {
      UndoEnPassantWellFormed(s1, p.color, tgt);
    }
  }

  /** Promotion keeps the match well formed when the new piece is new to the match. */
  lemma ReplaceWellFormed(s: MatchState, t: string, q: Piece?)
    requires WellFormed(s) && ReplacePromotedPiece(s, t, q).Success?
    requires q != null ==> q !in s.pos
    ensures var r := ReplacePromotedPiece(s, t, q).value;
      WellFormed(r.1) && r.1.pos.Keys == s.pos.Keys + {r.0} && SameFlags(s, r.1)
  {
    var at := PosOf(s, s.promoted).value;
    var x := At(s.grid, at);
    assert x == s.promoted;
    LiftCoherent(s, at);
    var lifted := RemoveAt(s, at).value.1;
    var s1 := lifted.(onBoard := RemoveFirst(lifted.onBoard, x));
    assert q != null;
    RegisterCoherent(s1, q);
    var s2 := s1.(pos := s1.pos[q := None], count := s1.count[q := 0]);
    LandCoherent(s2, q, at);
    var s3 := PlaceAt(s2, q, at).value;
    var r := s3.(onBoard := s3.onBoard + [q]);
    assert ReplacePromotedPiece(s, t, q).value == (q, r);
    RostersReplace(s, r, x, q);
  }

  /** Placing a new piece on an empty square of initialSetup keeps the match well formed. */
  lemma PlaceNewWellFormed(s: MatchState, column: char, rank: int, x: Piece)
    requires WellFormed(s) && x !in s.pos
    requires InBounds(s.grid, ToPosition(column, rank)) && At(s.grid, ToPosition(column, rank)) == null
    ensures PlaceNewPiece(s, column, rank, x).Success?
    ensures var t := PlaceNewPiece(s, column, rank, x).value;
      && WellFormed(t) && t.pos.Keys == s.pos.Keys + {x} && SameFlags(s, t)
      && t.pos[x] == Some(ToPosition(column, rank)) && t.count[x] == 0
      && t.onBoard == s.onBoard + [x] && t.captured == s.captured
      && (forall y <- s.pos.Keys :: t.pos[y] == s.pos[y] && t.count[y] == s.count[y])
  {
    RegisterCoherent(s, x);
    var s1 := s.(pos := s.pos[x := None], count := s.count[x := 0]);
    LandCoherent(s1, x, ToPosition(column, rank));
    var t := PlaceNewPiece(s, column, rank, x).value;
    RostersReplace(s, t, null, x);
  }
}
