/** The 8 x 8 playing board of a game and the colour tracks its tiles draw. */
module Board {

  /** Side of the board. Only the arrays below depend on it; every lemma holds for a board of any shape. */
  const SIZE: nat := 8

  datatype Pos = Pos(i: int, j: int)

  datatype Dir = Up | Down | Left | Right

  datatype Colour = White | Black

  /** A board as a value: the tile on each cell, 0 for an empty one. Off-board cells are not keys. */
  type Board = map<Pos, int>

  function Opposite(d: Dir): Dir {
    match d
    case Up => Down
    case Down => Up
    case Left => Right
    case Right => Left
  }

  function Step(p: Pos, d: Dir): Pos {
    match d
    case Up => Pos(p.i - 1, p.j)
    case Down => Pos(p.i + 1, p.j)
    case Left => Pos(p.i, p.j - 1)
    case Right => Pos(p.i, p.j + 1)
  }

  function AllCells(): set<Pos> {
    set i: int, j: int | 0 <= i < SIZE && 0 <= j < SIZE :: Pos(i, j)
  }

  function EmptyBoard(): Board {
    map p | p in AllCells() :: 0
  }

  /** The tile on a cell; a cell off the board counts as empty. */
  function Tile(b: Board, p: Pos): int {
    if p in b then b[p] else 0
  }

  /** The two sides that tile `t` joins in colour `c`, in the order the searches try them. */
  function Exits(c: Colour, t: int): seq<Dir> {
    match c
    case Black => (
      match t
      case 1 => [Up, Down]
      case 2 => [Left, Right]
      case 3 => [Down, Right]
      case 4 => [Up, Right]
      case 5 => [Up, Left]
      case 6 => [Down, Left]
      case _ => [])
    case White => (
      match t
      case 1 => [Left, Right]
      case 2 => [Up, Down]
      case 3 => [Up, Left]
      case 4 => [Down, Left]
      case 5 => [Down, Right]
      case 6 => [Up, Right]
      case _ => [])
  }

  predicate HasExit(c: Colour, b: Board, p: Pos, d: Dir) {
    d in Exits(c, Tile(b, p))
  }

  /** If the cells on both sides of side `d` of `p` hold tiles, these show the same colour there. */
  predicate SideMatches(b: Board, p: Pos, d: Dir) {
    Tile(b, p) != 0 && Tile(b, Step(p, d)) != 0 ==>
      (HasExit(Black, b, p, d) <==> HasExit(Black, b, Step(p, d), Opposite(d)))
  }

  /** Every cell is empty or holds a tile 1..6, and neighbouring tiles show the same colour on their common side. */
  ghost predicate Matched(b: Board) {
    && (forall p :: 0 <= Tile(b, p) <= 6)
    && (forall p, d :: SideMatches(b, p, d))
  }

  /** The track of colour `c` runs from `p` over their common side into `q`. */
  ghost predicate Linked(c: Colour, b: Board, p: Pos, q: Pos) {
    exists d :: Step(p, d) == q && HasExit(c, b, p, d) && HasExit(c, b, q, Opposite(d))
  }

  ghost predicate Distinct(cells: seq<Pos>) {
    forall k, l :: 0 <= k < l < |cells| ==> cells[k] != cells[l]
  }

  /** A stretch of track: different cells, each linked to the next. */
  ghost predicate IsTrail(c: Colour, b: Board, cells: seq<Pos>) {
    && |cells| > 0
    && Distinct(cells)
    && forall k, l :: 0 <= k < l < |cells| && l == k + 1 ==> Linked(c, b, cells[k], cells[l])
  }

  /** A closed loop: a stretch of track of at least three cells whose last cell is linked to its first. */
  ghost predicate IsLoop(c: Colour, b: Board, cells: seq<Pos>) {
    && |cells| >= 3
    && IsTrail(c, b, cells)
    && Linked(c, b, cells[|cells| - 1], cells[0])
  }

  ghost predicate IsLoopThrough(c: Colour, b: Board, cells: seq<Pos>, p: Pos) {
    IsLoop(c, b, cells) && p in cells
  }

  ghost predicate OnLoop(c: Colour, b: Board, p: Pos) {
    exists cells :: IsLoopThrough(c, b, cells, p)
  }

  ghost predicate LoopAt(b: Board, p: Pos) {
    exists c :: OnLoop(c, b, p)
  }

  /** Some closed loop of either colour lies anywhere on the board. */
  ghost predicate HasLoop(b: Board) {
    exists c, cells :: IsLoop(c, b, cells)
  }

  lemma StepBack(p: Pos, d: Dir)
    ensures Step(Step(p, d), Opposite(d)) == p
    ensures Opposite(Opposite(d)) == d
  {
  }

  lemma LinkedIsSymmetric(c: Colour, b: Board, p: Pos, q: Pos)
    requires Linked(c, b, p, q)
    ensures Linked(c, b, q, p)
  {
    var d :| Step(p, d) == q && HasExit(c, b, p, d) && HasExit(c, b, q, Opposite(d));
    StepBack(p, d);
    assert Step(q, Opposite(d)) == p && HasExit(c, b, p, Opposite(Opposite(d)));
  }

  /** A tile has two exits per colour: three cells linked to one cell cannot all differ. */
  lemma AtMostTwoLinks(c: Colour, b: Board, p: Pos, q0: Pos, q1: Pos, q2: Pos)
    requires Linked(c, b, p, q0) && Linked(c, b, p, q1)
    requires exists d :: Step(p, d) == q2 && HasExit(c, b, p, d)
    requires q0 != q1
    ensures q2 == q0 || q2 == q1
  {
  }

  /** Whichever exit is taken from a cell of a closed loop, it leads to a cell of that loop. */
  lemma LoopHasNoWayOut(c: Colour, b: Board, cells: seq<Pos>, p: Pos, d: Dir)
    requires IsLoop(c, b, cells) && p in cells && HasExit(c, b, p, d)
    ensures Step(p, d) in cells
  {
    var k :| 0 <= k < |cells| && cells[k] == p;
    var prev := if k == 0 then |cells| - 1 else k - 1;
    var next := if k == |cells| - 1 then 0 else k + 1;
    assert Linked(c, b, cells[prev], p);
    LinkedIsSymmetric(c, b, cells[prev], p);
    assert Linked(c, b, p, cells[next]);
    AtMostTwoLinks(c, b, p, cells[prev], cells[next], Step(p, d));
  }

  /** On a matched board an exit towards a non-empty cell is a link, in either colour. */
  lemma ExitIsLink(c: Colour, b: Board, p: Pos, d: Dir)
    requires Matched(b) && HasExit(c, b, p, d) && Tile(b, Step(p, d)) != 0
    ensures HasExit(c, b, Step(p, d), Opposite(d))
    ensures Linked(c, b, p, Step(p, d))
  {
    assert SideMatches(b, p, d);
  }
}
