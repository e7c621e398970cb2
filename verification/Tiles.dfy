/** What the tiles look like, in coordinates: which sides each joins in which colour, and what a winning track is. */
module Tiles {
  import opened Board
  import opened LoopSearch

  /** The neighbour `di` rows down and `dj` columns to the right shares a side with the cell. */
  predicate IsSide(di: int, dj: int) {
    (di == 0 && (dj == 1 || dj == -1)) || (dj == 0 && (di == 1 || di == -1))
  }

  /** Tile 1 is black from top to bottom, tile 2 from left to right; tiles 3 to 6 are black round one corner. */
  predicate IsBlackSide(t: int, di: int, dj: int) {
    match t
    case 1 => dj == 0
    case 2 => di == 0
    case 3 => di == 1 || dj == 1
    case 4 => di == -1 || dj == 1
    case 5 => di == -1 || dj == -1
    case 6 => di == 1 || dj == -1
    case _ => false
  }

  /** A side of a tile is black or white. */
  predicate Joins(c: Colour, t: int, di: int, dj: int) {
    1 <= t <= 6 && IsSide(di, dj) && (c == Black <==> IsBlackSide(t, di, dj))
  }

  /** The sides a search leaves a tile by are the ones the tile joins in the colour. */
  lemma ExitIsSide(c: Colour, b: Board, p: Pos, d: Dir)
    ensures HasExit(c, b, p, d) <==> Joins(c, Tile(b, p), Step(p, d).i - p.i, Step(p, d).j - p.j)
  {
  }

  function Towards(p: Pos, q: Pos): Dir
    requires IsSide(q.i - p.i, q.j - p.j)
    ensures Step(p, Towards(p, q)) == q && Step(q, Opposite(Towards(p, q))) == p
  {
    if q.i < p.i then Up else if q.i > p.i then Down else if q.j < p.j then Left else Right
  }

  /** The track runs from `p` into the neighbouring `q`: both tiles show the colour on their common side. */
  predicate Meets(c: Colour, b: Board, p: Pos, q: Pos) {
    Joins(c, Tile(b, p), q.i - p.i, q.j - p.j) && Joins(c, Tile(b, q), p.i - q.i, p.j - q.j)
  }

  lemma LinkIsMeeting(c: Colour, b: Board, p: Pos, q: Pos)
    ensures Linked(c, b, p, q) <==> Meets(c, b, p, q)
  {
    hide Exits, IsBlackSide;
    if Linked(c, b, p, q) {
      var d :| Step(p, d) == q && HasExit(c, b, p, d) && HasExit(c, b, q, Opposite(d));
      StepBack(p, d);
      ExitIsSide(c, b, p, d);
      ExitIsSide(c, b, q, Opposite(d));
    }
    if Meets(c, b, p, q) {
      var d := Towards(p, q);
      ExitIsSide(c, b, p, d);
      ExitIsSide(c, b, q, Opposite(d));
    }
  }

  /** Two neighbouring tiles show the same colour on their common side. */
  predicate Agree(b: Board, p: Pos, q: Pos) {
    IsSide(q.i - p.i, q.j - p.j) && Tile(b, p) != 0 && Tile(b, q) != 0 ==>
      (IsBlackSide(Tile(b, p), q.i - p.i, q.j - p.j) <==> IsBlackSide(Tile(b, q), p.i - q.i, p.j - q.j))
  }

  /** Every cell holds a tile 1..6 or none, and all neighbouring tiles agree. */
  ghost predicate ColoursAgree(b: Board) {
    && (forall p :: 0 <= Tile(b, p) <= 6)
    && (forall p, q :: Agree(b, p, q))
  }

  lemma MatchedIsAgreement(b: Board)
    ensures Matched(b) <==> ColoursAgree(b)
  {
    hide Exits, IsBlackSide;
    if Matched(b) {
      forall p, q ensures Agree(b, p, q) {
        if IsSide(q.i - p.i, q.j - p.j) {
          var d := Towards(p, q);
          assert SideMatches(b, p, d);
          ExitIsSide(Black, b, p, d);
          ExitIsSide(Black, b, q, Opposite(d));
        }
      }
    }
    if ColoursAgree(b) {
      forall p, d ensures SideMatches(b, p, d) {
        StepBack(p, d);
        assert Agree(b, p, Step(p, d));
        ExitIsSide(Black, b, p, d);
        ExitIsSide(Black, b, Step(p, d), Opposite(d));
      }
    }
  }

  /** A closed track: different cells, each meeting the next in the colour, and the last one the first. */
  ghost predicate IsClosedTrack(c: Colour, b: Board, cells: seq<Pos>) {
    && |cells| >= 3
    && (forall k, l :: 0 <= k < l < |cells| ==> cells[k] != cells[l])
    && (forall k, l :: 0 <= k < l < |cells| && l == k + 1 ==> Meets(c, b, cells[k], cells[l]))
    && Meets(c, b, cells[|cells| - 1], cells[0])
  }

  lemma LoopIsClosedTrack(c: Colour, b: Board, cells: seq<Pos>)
    ensures IsLoop(c, b, cells) <==> IsClosedTrack(c, b, cells)
  {
    hide Meets, Linked;
    forall p, q ensures Linked(c, b, p, q) <==> Meets(c, b, p, q) { LinkIsMeeting(c, b, p, q); }
  }

  ghost predicate IsClosedTrackThrough(c: Colour, b: Board, cells: seq<Pos>, p: Pos) {
    IsClosedTrack(c, b, cells) && p in cells
  }

  /** The tile on `p` is part of a closed track of either colour. */
  ghost predicate ClosesTrack(b: Board, p: Pos) {
    exists c, cells :: IsClosedTrackThrough(c, b, cells, p)
  }

  lemma LoopAtIsClosedTrack(b: Board, p: Pos)
    ensures LoopAt(b, p) <==> ClosesTrack(b, p)
  {
    hide IsLoop, IsClosedTrack;
    forall c, cells ensures IsLoopThrough(c, b, cells, p) <==> IsClosedTrackThrough(c, b, cells, p) {
      LoopIsClosedTrack(c, b, cells);
    }
    if LoopAt(b, p) {
      var c :| OnLoop(c, b, p);
      var cells :| IsLoopThrough(c, b, cells, p);
      assert IsClosedTrackThrough(c, b, cells, p);
    }
    if ClosesTrack(b, p) {
      var c, cells :| IsClosedTrackThrough(c, b, cells, p);
      assert IsLoopThrough(c, b, cells, p);
      assert OnLoop(c, b, p);
    }
  }

  /** The cell is part of a closed track of the colour. */
  ghost predicate OnTrack(c: Colour, b: Board, p: Pos) {
    exists cells :: IsClosedTrackThrough(c, b, cells, p)
  }

  /** In coordinates only: where neighbouring tiles agree in colour, a search from fresh marks answers true exactly when
      the cell is part of a closed track of the colour. */
  lemma SearchDecidesTrack(c: Colour, b: Board, p: Pos)
    requires ColoursAgree(b)
    ensures Search(c, b, {}, p, p).0 <==> OnTrack(c, b, p)
  {
    hide Matched, ColoursAgree, Search, IsLoop, IsClosedTrack;
    MatchedIsAgreement(b);
    SearchDecidesLoop(c, b, p);
    forall cells ensures IsLoopThrough(c, b, cells, p) <==> IsClosedTrackThrough(c, b, cells, p) {
      LoopIsClosedTrack(c, b, cells);
    }
  }

  /** In coordinates only: where neighbouring tiles agree in colour, a move wins exactly when its tile is part of a
      closed track of either colour. */
  lemma WinIsClosedTrack(b: Board, p: Pos)
    requires ColoursAgree(b)
    ensures MoveWins(b, p) <==> ClosesTrack(b, p)
  {
    hide Matched, ColoursAgree, MoveWins, LoopAt, ClosesTrack;
    MatchedIsAgreement(b);
    WinIsLoopThere(b, p);
    LoopAtIsClosedTrack(b, p);
  }

  // ---------- tracks with straight pieces ----------

  /** Somewhere on the board there are two rows of three tiles, or two columns of three. */
  predicate HasRows(b: Board, i: int, j: int, upper: (int, int, int), lower: (int, int, int)) {
    && Tile(b, Pos(i, j)) == upper.0 && Tile(b, Pos(i, j + 1)) == upper.1 && Tile(b, Pos(i, j + 2)) == upper.2
    && Tile(b, Pos(i + 1, j)) == lower.0 && Tile(b, Pos(i + 1, j + 1)) == lower.1
    && Tile(b, Pos(i + 1, j + 2)) == lower.2
  }

  predicate HasColumns(b: Board, i: int, j: int, left: (int, int, int), right: (int, int, int)) {
    && Tile(b, Pos(i, j)) == left.0 && Tile(b, Pos(i + 1, j)) == left.1 && Tile(b, Pos(i + 2, j)) == left.2
    && Tile(b, Pos(i, j + 1)) == right.0 && Tile(b, Pos(i + 1, j + 1)) == right.1
    && Tile(b, Pos(i + 2, j + 1)) == right.2
  }

  lemma SixCellsClose(c: Colour, b: Board, p0: Pos, p1: Pos, p2: Pos, p3: Pos, p4: Pos, p5: Pos)
    requires p0 != p1 && p0 != p2 && p0 != p3 && p0 != p4 && p0 != p5 && p1 != p2 && p1 != p3 && p1 != p4 && p1 != p5
    requires p2 != p3 && p2 != p4 && p2 != p5 && p3 != p4 && p3 != p5 && p4 != p5
    requires Meets(c, b, p0, p1) && Meets(c, b, p1, p2) && Meets(c, b, p2, p3)
    requires Meets(c, b, p3, p4) && Meets(c, b, p4, p5) && Meets(c, b, p5, p0)
    ensures IsClosedTrack(c, b, [p0, p1, p2, p3, p4, p5])
  {
  }

  lemma LoopWins(c: Colour, b: Board, cells: seq<Pos>, p: Pos)
    requires IsClosedTrack(c, b, cells) && p in cells
    ensures MoveWins(b, p)
  {
    LoopIsClosedTrack(c, b, cells);
    hide IsClosedTrack, IsLoop;
    LoopIsFound(c, b, {}, p, p, cells);
    assert FindsLoop(c, b, p);
  }

  /** Two rows of three with a straight tile in the middle of each: whichever tile is laid last wins, in black with
      tile 2 in the middle, in white with tile 1. */
  lemma RowsWin(c: Colour, b: Board, i: int, j: int, p: Pos)
    requires c == Black ==> HasRows(b, i, j, (3, 2, 6), (4, 2, 5))
    requires c == White ==> HasRows(b, i, j, (5, 1, 4), (6, 1, 3))
    requires i <= p.i <= i + 1 && j <= p.j <= j + 2
    ensures MoveWins(b, p)
  {
    hide IsClosedTrack, MoveWins, Tile;
    var p0, p1, p2, p3, p4, p5 :=
      Pos(i, j), Pos(i, j + 1), Pos(i, j + 2), Pos(i + 1, j + 2), Pos(i + 1, j + 1), Pos(i + 1, j);
    SixCellsClose(c, b, p0, p1, p2, p3, p4, p5);
    assert p == p0 || p == p1 || p == p2 || p == p3 || p == p4 || p == p5;
    LoopWins(c, b, [p0, p1, p2, p3, p4, p5], p);
  }

  /** The same with two columns of three, in black with tile 1 in the middle, in white with tile 2. */
  lemma ColumnsWin(c: Colour, b: Board, i: int, j: int, p: Pos)
    requires c == Black ==> HasColumns(b, i, j, (3, 1, 4), (6, 1, 5))
    requires c == White ==> HasColumns(b, i, j, (5, 2, 6), (4, 2, 3))
    requires i <= p.i <= i + 2 && j <= p.j <= j + 1
    ensures MoveWins(b, p)
  {
    hide IsClosedTrack, MoveWins, Tile;
    var p0, p1, p2, p3, p4, p5 :=
      Pos(i, j), Pos(i, j + 1), Pos(i + 1, j + 1), Pos(i + 2, j + 1), Pos(i + 2, j), Pos(i + 1, j);
    SixCellsClose(c, b, p0, p1, p2, p3, p4, p5);
    assert p == p0 || p == p1 || p == p2 || p == p3 || p == p4 || p == p5;
    LoopWins(c, b, [p0, p1, p2, p3, p4, p5], p);
  }
}
