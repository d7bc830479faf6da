/** The wrapped block map of mapconvert.py: its eight directions, its corners,
    and the test that says which 45-degree sectors around a corner are wall. */
module BlockMap {
  import opened Arithmetic

  const REC_UL := 's'
  const REC_UR := 'a'
  const REC_DL := 'w'
  const REC_DR := 'q'

  predicate Filled(c: char) {
    c == 'x' || c == '#'
  }

  predicate Wall(c: char) {
    Filled(c) || c == REC_UL || c == REC_UR || c == REC_DL || c == REC_DR
  }

  // Which of its four sides a block covers with wall.
  predicate TopSide(c: char) { Filled(c) || c == REC_UL || c == REC_UR }
  predicate BottomSide(c: char) { Filled(c) || c == REC_DL || c == REC_DR }
  predicate LeftSide(c: char) { Filled(c) || c == REC_UL || c == REC_DL }
  predicate RightSide(c: char) { Filled(c) || c == REC_UR || c == REC_DR }

  type Dir = d: int | 0 <= d < 8

  /** Directions count counterclockwise from "right"; y grows downwards. */
  function DirX(d: Dir): int {
    if d == 7 || d == 0 || d == 1 then 1 else if d == 2 || d == 6 then 0 else -1
  }

  function DirY(d: Dir): int {
    if 1 <= d <= 3 then -1 else if d == 0 || d == 4 then 0 else 1
  }

  function Turned(d: Dir, turn: int): (r: Dir) {
    (d + turn) % 8
  }

  datatype Loc = Loc(x: int, y: int)

  /** A directed unit edge: it leaves corner `at` in direction `dir`. */
  datatype Edge = Edge(at: Loc, dir: Dir)

  datatype Grid = Grid(data: seq<string>, width: int, height: int) {
    predicate Valid() {
      && 0 < width
      && 0 < height
      && |data| == height
      && (forall row :: row in data ==> |row| == width)
    }

    predicate Inside(l: Loc) {
      0 <= l.x < width && 0 <= l.y < height
    }

    function Wrap(x: int, y: int): (l: Loc)
      requires Valid()
      ensures Inside(l)
    {
      Loc(x % width, y % height)
    }

    function Move(l: Loc, d: Dir): (r: Loc)
      requires Valid()
      ensures Inside(r)
    {
      Wrap(l.x + DirX(d), l.y + DirY(d))
    }

    function At(l: Loc): char
      requires Valid() && Inside(l)
    {
      assert data[l.y] in data;
      data[l.y][l.x]
    }

    /** Is the sector clockwise of direction d at corner l solid wall? */
    predicate NoEdge(l: Loc, d: Dir)
      requires Valid() && Inside(l)
    {
      match d
      case 0 => TopSide(At(l))
      case 1 => BottomSide(At(Move(l, 2)))
      case 2 => LeftSide(At(Move(l, 2)))
      case 3 => RightSide(At(Move(l, 3)))
      case 4 => BottomSide(At(Move(l, 3)))
      case 5 => TopSide(At(Move(l, 4)))
      case 6 => RightSide(At(Move(l, 4)))
      case _ => LeftSide(At(l))
    }

    /** A boundary edge has wall on its left and none on its right. */
    predicate Boundary(e: Edge)
      requires Valid()
    {
      && Inside(e.at)
      && NoEdge(e.at, Turned(e.dir, 1))
      && !NoEdge(e.at, e.dir)
    }

    /** The same, seen from the corner the edge arrives at. */
    predicate Arrives(l: Loc, d: Dir)
      requires Valid() && Inside(l)
    {
      NoEdge(l, Turned(d, 4)) && !NoEdge(l, Turned(d, 5))
    }
  }

  lemma MoveMove(g: Grid, l: Loc, a: Dir, b: Dir)
    requires g.Valid()
    ensures g.Move(g.Move(l, a), b) == g.Wrap(l.x + (DirX(a) + DirX(b)), l.y + (DirY(a) + DirY(b)))
  {
    AddMod(l.x + DirX(a), DirX(b), g.width);
    AddMod(l.y + DirY(a), DirY(b), g.height);
  }

  lemma WrapInside(g: Grid, l: Loc)
    requires g.Valid() && g.Inside(l)
    ensures g.Wrap(l.x, l.y) == l
  {
  }

  /** Walking back along a direction undoes the walk. */
  lemma MoveBack(g: Grid, l: Loc, d: Dir)
    requires g.Valid() && g.Inside(l)
    ensures g.Move(g.Move(l, d), Turned(d, 4)) == l
  {
    MoveMove(g, l, d, Turned(d, 4));
    WrapInside(g, l);
  }

  /** Both ends of an edge agree on whether it is a boundary edge. */
  lemma BoundaryBothEnds(g: Grid, l: Loc, d: Dir)
    requires g.Valid() && g.Inside(l)
    ensures g.Boundary(Edge(l, d)) <==> g.Arrives(g.Move(l, d), d)
  {
    WrapInside(g, l);
    forall b: Dir
      ensures g.Move(g.Move(l, d), b) == g.Wrap(l.x + (DirX(d) + DirX(b)), l.y + (DirY(d) + DirY(b)))
    {
      MoveMove(g, l, d, b);
    }
    match d
    case 0 =>
    case 1 =>
    case 2 =>
    case 3 =>
    case 4 =>
    case 5 =>
    case 6 =>
    case _ =>
  }
}
