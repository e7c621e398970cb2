/** The marking search for a closed loop, and the proof that it decides what it is meant to decide. */
module LoopSearch {
  import opened Board

  /** The answer of the search entering `p` from `from`, and the marks it leaves. */
  function Search(c: Colour, b: Board, marks: set<Pos>, p: Pos, from: Pos): (r: (bool, set<Pos>))
    ensures marks <= r.1 <= marks + b.Keys
    ensures Tile(b, p) != 0 ==> p in r.1
    decreases b.Keys - marks, 0
  {
    if Tile(b, p) == 0 then (false, marks)
    else if p in marks then (true, marks)
    else
      var here := marks + {p};
      var exits := Exits(c, b[p]);
      if exits == [] then (false, here)
      else
        var first := Leave(c, b, here, p, exits[0], from);
        if first.0 then first else Leave(c, b, first.1, p, exits[1], from)
  }

  /** One branch: leaving `p` by side `d`, unless that leads straight back. */
  function Leave(c: Colour, b: Board, marks: set<Pos>, p: Pos, d: Dir, from: Pos): (r: (bool, set<Pos>))
    ensures marks <= r.1 <= marks + b.Keys
    decreases b.Keys - marks, 1
  {
    if Step(p, d) == from then (false, marks) else Search(c, b, marks, Step(p, d), p)
  }

  /** Entering a closed loop anywhere, with any marks, the search answers true, on any board. */
  lemma {:induction false} LoopIsFound(c: Colour, b: Board, marks: set<Pos>, p: Pos, from: Pos, cells: seq<Pos>)
    requires IsLoop(c, b, cells) && p in cells
    ensures Search(c, b, marks, p, from).0
    decreases b.Keys - marks
  {
    var exits := Exits(c, Tile(b, p));
    LoopCellIsTile(c, b, cells, p);
    if p !in marks {
      assert Step(p, exits[0]) != Step(p, exits[1]);
      LoopHasNoWayOut(c, b, cells, p, exits[0]);
      LoopHasNoWayOut(c, b, cells, p, exits[1]);
      if Step(p, exits[0]) != from {
        LoopIsFound(c, b, marks + {p}, Step(p, exits[0]), p, cells);
      } else {
        LoopIsFound(c, b, marks + {p}, Step(p, exits[1]), p, cells);
      }
    }
  }

  function Cells(trail: seq<Pos>): set<Pos> {
    set p | p in trail
  }

  /** Exit `d` of the last cell of a trail does not lead back to the cell before it. */
  ghost predicate Onward(c: Colour, b: Board, trail: seq<Pos>, d: Dir)
    requires |trail| > 0
  {
    && HasExit(c, b, trail[|trail| - 1], d)
    && (|trail| >= 2 ==> Step(trail[|trail| - 1], d) != trail[|trail| - 2])
  }

  /** The only marked cell a trail can run into is its own first cell, and that closes a loop. */
  lemma MeetsOnlyItsStart(c: Colour, b: Board, trail: seq<Pos>, d: Dir)
    requires Matched(b) && IsTrail(c, b, trail) && Onward(c, b, trail, d)
    requires Step(trail[|trail| - 1], d) in trail && Tile(b, Step(trail[|trail| - 1], d)) != 0
    ensures IsLoop(c, b, trail)
  {
    hide Exits, Tile, Matched;
    var last := |trail| - 1;
    var q := Step(trail[last], d);
    ExitIsLink(c, b, trail[last], d);
    LinkedIsSymmetric(c, b, trail[last], q);
    var k :| 0 <= k < |trail| && trail[k] == q;
    if 0 < k {
      LinkedIsSymmetric(c, b, trail[k - 1], trail[k]);
      AtMostTwoLinks(c, b, trail[k], trail[k - 1], trail[k + 1], trail[last]);
    }
  }

  lemma ExtendTrail(c: Colour, b: Board, trail: seq<Pos>, q: Pos)
    requires IsTrail(c, b, trail) && Linked(c, b, trail[|trail| - 1], q) && q !in trail
    ensures IsTrail(c, b, trail + [q])
    ensures Cells(trail + [q]) == Cells(trail) + {q}
  {
  }

  /** Entering an unmarked tile from a linked neighbour leaves one way to go on: its other exit. */
  lemma OneWayOn(c: Colour, b: Board, marks: set<Pos>, p: Pos, d: Dir) returns (onward: Dir)
    requires 1 <= Tile(b, Step(p, d)) <= 6 && HasExit(c, b, Step(p, d), Opposite(d)) && Step(p, d) !in marks
    ensures onward != Opposite(d) && HasExit(c, b, Step(p, d), onward) && Step(Step(p, d), onward) != p
    ensures Search(c, b, marks, Step(p, d), p)
         == Search(c, b, marks + {Step(p, d)}, Step(Step(p, d), onward), Step(p, d))
  {
    var exits := Exits(c, Tile(b, Step(p, d)));
    StepBack(p, d);
    onward := if exits[0] == Opposite(d) then exits[1] else exits[0];
  }

  /** What a search that followed a whole trail may have found: a closed loop, or an exit `e` that leads nowhere. */
  ghost predicate Outcome(c: Colour, b: Board, found: bool, full: seq<Pos>, e: Dir) {
    && IsTrail(c, b, full)
    && if found then IsLoop(c, b, full)
       else HasExit(c, b, full[|full| - 1], e) && Tile(b, Step(full[|full| - 1], e)) == 0
  }

  /** Following the track from the end of a trail whose cells are the marked ones: the search either closes
      a loop with the trail, or marks the rest of the track up to an exit that leads nowhere. */
  lemma {:induction false} Follow(c: Colour, b: Board, trail: seq<Pos>, d: Dir) returns (full: seq<Pos>, e: Dir)
    requires Matched(b) && IsTrail(c, b, trail) && Onward(c, b, trail, d)
    ensures full == trail || trail + [Step(trail[|trail| - 1], d)] <= full
    ensures
      var r := Search(c, b, Cells(trail), Step(trail[|trail| - 1], d), trail[|trail| - 1]);
      r.1 == Cells(full) && Outcome(c, b, r.0, full, e)
    decreases b.Keys - Cells(trail)
  {
    var last := trail[|trail| - 1];
    var q := Step(last, d);
    full, e := trail, d;
    if Tile(b, q) != 0 {
      if q in trail {
        MeetsOnlyItsStart(c, b, trail, d);
      } else {
        ExitIsLink(c, b, last, d);
        var onward := OneWayOn(c, b, Cells(trail), last, d);
        ExtendTrail(c, b, trail, q);
        full, e := Follow(c, b, trail + [q], onward);
      }
    }
  }

  function Reversed(s: seq<Pos>): (r: seq<Pos>)
    ensures |r| == |s| && forall k :: 0 <= k < |s| ==> r[k] == s[|s| - 1 - k]
  {
    seq(|s|, k requires 0 <= k < |s| => s[|s| - 1 - k])
  }

  lemma ReversedTrail(c: Colour, b: Board, trail: seq<Pos>)
    requires IsTrail(c, b, trail)
    ensures IsTrail(c, b, Reversed(trail))
    ensures Cells(Reversed(trail)) == Cells(trail)
  {
    var r := Reversed(trail);
    forall k, l | 0 <= k < l < |r| && l == k + 1 ensures Linked(c, b, r[k], r[l]) {
      LinkedIsSymmetric(c, b, trail[|trail| - 1 - l], trail[|trail| - 1 - k]);
    }
    forall p | p in trail ensures p in r {
      var k :| 0 <= k < |trail| && trail[k] == p;
      assert r[|trail| - 1 - k] == p;
    }
  }

  lemma LoopCellIsTile(c: Colour, b: Board, cells: seq<Pos>, p: Pos)
    requires IsLoop(c, b, cells) && p in cells
    ensures |Exits(c, Tile(b, p))| == 2
  {
    var k :| 0 <= k < |cells| && cells[k] == p;
    assert Linked(c, b, cells[k], cells[if k == |cells| - 1 then 0 else k + 1]);
  }

  /** No exit of a closed loop leads nowhere. */
  lemma LoopHasNoDeadEnd(c: Colour, b: Board, cells: seq<Pos>, p: Pos, d: Dir)
    requires IsLoop(c, b, cells) && p in cells && HasExit(c, b, p, d)
    ensures Tile(b, Step(p, d)) != 0
  {
    LoopHasNoWayOut(c, b, cells, p, d);
    LoopCellIsTile(c, b, cells, Step(p, d));
  }

  /** The marks left by a first branch that failed never make the second branch answer true. */
  lemma SecondBranchFails(c: Colour, b: Board, p: Pos)
    requires Matched(b) && Tile(b, p) != 0
    ensures
      var exits := Exits(c, Tile(b, p));
      var first := Search(c, b, {p}, Step(p, exits[0]), p);
      !first.0 ==> !Search(c, b, first.1, Step(p, exits[1]), p).0
  {
    var exits := Exits(c, Tile(b, p));
    assert Step(p, exits[0]) != Step(p, exits[1]);
    assert Cells([p]) == {p};
    var there, dead := Follow(c, b, [p], exits[0]);
    if !Search(c, b, {p}, Step(p, exits[0]), p).0 {
      var back := Reversed(there);
      ReversedTrail(c, b, there);
      assert there[0] == p;
      var full, _ := Follow(c, b, back, exits[1]);
      assert full[0] == there[|there| - 1];
      if IsLoop(c, b, full) { LoopHasNoDeadEnd(c, b, full, full[0], dead); }
    }
  }

  /** The search started on a tile tries both its exits, the second one with the marks of the first. */
  lemma StartTriesBoth(c: Colour, b: Board, p: Pos)
    requires 1 <= Tile(b, p) <= 6
    ensures
      var exits := Exits(c, Tile(b, p));
      var first := Search(c, b, {p}, Step(p, exits[0]), p);
      Search(c, b, {}, p, p) == if first.0 then first else Search(c, b, first.1, Step(p, exits[1]), p)
  {
    assert {} + {p} == {p};
  }

  /** On a matched board the search started on a cell with fresh marks answers true exactly when
      that cell lies on a closed loop of the colour. */
  lemma SearchDecidesLoop(c: Colour, b: Board, p: Pos)
    requires Matched(b)
    ensures Search(c, b, {}, p, p).0 <==> OnLoop(c, b, p)
  {
    if OnLoop(c, b, p) {
      var cells :| IsLoopThrough(c, b, cells, p);
      LoopIsFound(c, b, {}, p, p, cells);
    }
    if Search(c, b, {}, p, p).0 {
      var exits := Exits(c, Tile(b, p));
      StartTriesBoth(c, b, p);
      SecondBranchFails(c, b, p);
      assert Cells([p]) == {p};
      var full, _ := Follow(c, b, [p], exits[0]);
      assert IsLoopThrough(c, b, full, full[0]);
    }
  }

  /** Four tiles in a square, of which the last runs into a side of the first that shows the other colour. */
  const UNMATCHED: Board := map[Pos(1, 1) := 4, Pos(1, 2) := 6, Pos(2, 2) := 5, Pos(2, 1) := 4]

  /** On a board that is not matched the search can answer true without a loop. */
  lemma UnmatchedBoardMisleads()
    ensures !Matched(UNMATCHED)
    ensures Search(Black, UNMATCHED, {}, Pos(1, 1), Pos(1, 1)).0 && !OnLoop(Black, UNMATCHED, Pos(1, 1))
  {
    var b := UNMATCHED;
    assert !SideMatches(b, Pos(1, 1), Down);
    assert Tile(b, Pos(0, 1)) == 0;
    var m1 := {Pos(1, 1)};
    var m2 := m1 + {Pos(1, 2)};
    var m3 := m2 + {Pos(2, 2)};
    var m4 := m3 + {Pos(2, 1)};
    assert Search(Black, b, m4, Pos(1, 1), Pos(2, 1)).0;
    assert Search(Black, b, m3, Pos(2, 1), Pos(2, 2)).0;
    assert Search(Black, b, m2, Pos(2, 2), Pos(1, 2)).0;
    assert Search(Black, b, m1, Pos(1, 2), Pos(1, 1)).0;
    StartTriesBoth(Black, b, Pos(1, 1));
    if OnLoop(Black, b, Pos(1, 1)) {
      var cells :| IsLoopThrough(Black, b, cells, Pos(1, 1));
      assert HasExit(Black, b, Pos(1, 1), Up);
      LoopHasNoDeadEnd(Black, b, cells, Pos(1, 1), Up);
    }
  }

  /** The tile that shows in black what `t` shows in white, and the other way round. */
  function SwapColours(t: int): int {
    match t
    case 1 => 2
    case 2 => 1
    case 3 => 5
    case 5 => 3
    case 4 => 6
    case 6 => 4
    case _ => t
  }

  function SwapBoard(b: Board): Board {
    map p | p in b :: SwapColours(b[p])
  }

  function Other(c: Colour): Colour {
    if c == White then Black else White
  }

  /** Searching one colour is searching the other on the board with the colours exchanged: same answer,
      same marks, from any marks and on any board. */
  lemma {:induction false} ColoursAreSymmetric(c: Colour, b: Board, marks: set<Pos>, p: Pos, from: Pos)
    ensures Search(c, b, marks, p, from) == Search(Other(c), SwapBoard(b), marks, p, from)
    decreases b.Keys - marks
  {
    if Tile(b, p) != 0 && p !in marks && Exits(c, b[p]) != [] {
      var exits := Exits(c, b[p]);
      assert Exits(Other(c), SwapBoard(b)[p]) == exits;
      ColoursAreSymmetric(c, b, marks + {p}, Step(p, exits[0]), p);
      if Step(p, exits[0]) != from {
        ColoursAreSymmetric(c, b, Search(c, b, marks + {p}, Step(p, exits[0]), p).1, Step(p, exits[1]), p);
      } else {
        ColoursAreSymmetric(c, b, marks + {p}, Step(p, exits[1]), p);
      }
    }
  }

  predicate FindsLoop(c: Colour, b: Board, p: Pos) {
    Search(c, b, {}, p, p).0
  }

  /** Whether the tile just laid on `p` wins: one of the two searches, each from fresh marks, finds a loop. */
  predicate MoveWins(b: Board, p: Pos) {
    exists c :: FindsLoop(c, b, p)
  }

  lemma WinIgnoresColours(b: Board, p: Pos)
    ensures MoveWins(b, p) <==> MoveWins(SwapBoard(b), p)
  {
    forall c ensures FindsLoop(c, b, p) == FindsLoop(Other(c), SwapBoard(b), p) {
      ColoursAreSymmetric(c, b, {}, p, p);
    }
    assert Other(White) == Black && Other(Black) == White;
  }

  /** A loop depends on its own cells only. */
  lemma UntouchedLoop(c: Colour, b: Board, other: Board, cells: seq<Pos>)
    requires IsLoop(c, b, cells)
    requires forall q :: q in cells ==> Tile(other, q) == Tile(b, q)
    ensures IsLoop(c, other, cells)
  {
    forall p, q | p in cells && q in cells && Linked(c, b, p, q)
      ensures Linked(c, other, p, q)
    {
      var d :| Step(p, d) == q && HasExit(c, b, p, d) && HasExit(c, b, q, Opposite(d));
      assert HasExit(c, other, p, d) && HasExit(c, other, q, Opposite(d));
    }
  }

  lemma LoopElsewhereIsOld(b: Board, p: Pos, t: int, c: Colour, cells: seq<Pos>)
    requires IsLoop(c, b[p := t], cells) && p !in cells
    ensures HasLoop(b)
  {
    UntouchedLoop(c, b[p := t], b, cells);
  }

  /** A loop that a move creates passes through the cell of that move. */
  lemma NewLoopPassesThrough(b: Board, p: Pos, t: int)
    requires !HasLoop(b) && HasLoop(b[p := t])
    ensures LoopAt(b[p := t], p)
  {
    var c, cells :| IsLoop(c, b[p := t], cells);
    if p !in cells {
      LoopElsewhereIsOld(b, p, t, c, cells);
    } else {
      assert IsLoopThrough(c, b[p := t], cells, p);
      assert OnLoop(c, b[p := t], p);
    }
  }

  lemma WinIsLoopThere(b: Board, p: Pos)
    requires Matched(b)
    ensures MoveWins(b, p) <==> LoopAt(b, p)
  {
    forall c ensures FindsLoop(c, b, p) <==> OnLoop(c, b, p) {
      SearchDecidesLoop(c, b, p);
    }
  }

  /** Looking at the tile just laid is looking at the whole board: if the board had no loop before the move,
      then the move wins exactly when the board has a loop of either colour anywhere after it. */
  lemma LastCellTestIsEnough(b: Board, p: Pos, t: int)
    requires !HasLoop(b) && Matched(b[p := t])
    ensures MoveWins(b[p := t], p) <==> HasLoop(b[p := t])
  {
    WinIsLoopThere(b[p := t], p);
    if HasLoop(b[p := t]) {
      NewLoopPassesThrough(b, p, t);
    }
  }
}
