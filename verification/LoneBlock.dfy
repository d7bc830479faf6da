/** What is drawn for a block of wall that has no wall around it: its outline, with the
    characters of the map and the coordinates written out. */
module LoneBlock {
  import opened Arithmetic
  import opened BlockMap
  import opened Outline
  import opened Tracing
  import opened SideScan
  import opened FlatOutlines
  import opened FindEdges
  import opened PolyPartition

  predicate IsOpen(ch: char) {
    ch != 'x' && ch != '#' && ch != 's' && ch != 'a' && ch != 'w' && ch != 'q'
  }

  /** The eight blocks around block c are open. */
  ghost predicate Alone(g: Grid, c: Loc)
    requires g.Valid()
  {
    g.Inside(c) && forall d: Dir :: IsOpen(g.At(g.Move(c, d)))
  }

  // The sides that a block has wall along.
  predicate Top(ch: char) { ch == 'x' || ch == '#' || ch == 's' || ch == 'a' }
  predicate Bottom(ch: char) { ch == 'x' || ch == '#' || ch == 'w' || ch == 'q' }
  predicate AtLeft(ch: char) { ch == 'x' || ch == '#' || ch == 's' || ch == 'w' }
  predicate AtRight(ch: char) { ch == 'x' || ch == '#' || ch == 'a' || ch == 'q' }

  lemma SidesAre(ch: char)
    ensures TopSide(ch) == Top(ch) && BottomSide(ch) == Bottom(ch)
    ensures LeftSide(ch) == AtLeft(ch) && RightSide(ch) == AtRight(ch)
    ensures Wall(ch) <==> !IsOpen(ch)
  {
  }

  /** A block joins its neighbours across the sides that it has wall along. */
  lemma WaysAre(ch: char, d: Dir)
    ensures d in Ways(ch) <==>
            || (d == 0 && AtRight(ch)) || (d == 2 && Top(ch)) || (d == 4 && AtLeft(ch)) || (d == 6 && Bottom(ch))
  {
  }

  /** The corners of block c: top left, top right, bottom right, bottom left. */
  function Corner(g: Grid, c: Loc, n: nat): (l: Loc)
    requires g.Valid() && g.Inside(c) && n < 4
    ensures g.Inside(l)
  {
    if n == 0 then c else if n == 1 then g.Move(c, 0) else if n == 2 then g.Move(c, 7) else g.Move(c, 6)
  }

  /** Which sectors around the corner are wall, if only block c is. */
  predicate SectorWall(ch: char, n: nat, d: Dir) {
    if n == 0 then (d == 0 && Top(ch)) || (d == 7 && AtLeft(ch))
    else if n == 1 then (d == 5 && Top(ch)) || (d == 6 && AtRight(ch))
    else if n == 2 then (d == 3 && AtRight(ch)) || (d == 4 && Bottom(ch))
    else (d == 1 && Bottom(ch)) || (d == 2 && AtLeft(ch))
  }

  lemma AroundTopLeft(g: Grid, c: Loc, d: Dir)
    requires g.Valid() && Alone(g, c)
    ensures g.NoEdge(c, d) == SectorWall(g.At(c), 0, d)
  {
    SidesAre(g.At(c));
    SidesAre(g.At(g.Move(c, 2)));
    SidesAre(g.At(g.Move(c, 3)));
    SidesAre(g.At(g.Move(c, 4)));
    hide TopSide, BottomSide, LeftSide, RightSide, Grid.At, Grid.Move;
  }

  lemma AroundTopRight(g: Grid, c: Loc, d: Dir)
    requires g.Valid() && Alone(g, c)
    ensures g.NoEdge(g.Move(c, 0), d) == SectorWall(g.At(c), 1, d)
  {
    WrapInside(g, c);
    MoveMove(g, c, 0, 2);
    MoveMove(g, c, 0, 3);
    MoveMove(g, c, 0, 4);
    SidesAre(g.At(c));
    SidesAre(g.At(g.Move(c, 0)));
    SidesAre(g.At(g.Move(c, 1)));
    SidesAre(g.At(g.Move(c, 2)));
    hide TopSide, BottomSide, LeftSide, RightSide, Grid.At, Grid.Wrap;
  }

  lemma AroundBottomRight(g: Grid, c: Loc, d: Dir)
    requires g.Valid() && Alone(g, c)
    ensures g.NoEdge(g.Move(c, 7), d) == SectorWall(g.At(c), 2, d)
  {
    WrapInside(g, c);
    MoveMove(g, c, 7, 2);
    MoveMove(g, c, 7, 3);
    MoveMove(g, c, 7, 4);
    SidesAre(g.At(c));
    SidesAre(g.At(g.Move(c, 0)));
    SidesAre(g.At(g.Move(c, 6)));
    SidesAre(g.At(g.Move(c, 7)));
    hide TopSide, BottomSide, LeftSide, RightSide, Grid.At, Grid.Wrap;
  }

  lemma AroundBottomLeft(g: Grid, c: Loc, d: Dir)
    requires g.Valid() && Alone(g, c)
    ensures g.NoEdge(g.Move(c, 6), d) == SectorWall(g.At(c), 3, d)
  {
    WrapInside(g, c);
    MoveMove(g, c, 6, 2);
    MoveMove(g, c, 6, 3);
    MoveMove(g, c, 6, 4);
    SidesAre(g.At(c));
    SidesAre(g.At(g.Move(c, 4)));
    SidesAre(g.At(g.Move(c, 5)));
    SidesAre(g.At(g.Move(c, 6)));
    hide TopSide, BottomSide, LeftSide, RightSide, Grid.At, Grid.Wrap;
  }

  lemma Around(g: Grid, c: Loc, n: nat, d: Dir)
    requires g.Valid() && Alone(g, c) && n < 4
    ensures g.NoEdge(Corner(g, c, n), d) == SectorWall(g.At(c), n, d)
  {
    hide Grid.NoEdge, SectorWall, Grid.Move, Grid.At;
    if n == 0 {
      AroundTopLeft(g, c, d);
    } else if n == 1 {
      AroundTopRight(g, c, d);
    } else if n == 2 {
      AroundBottomRight(g, c, d);
    } else {
      AroundBottomLeft(g, c, d);
    }
  }

  /** An edge of the outline: the corner it leaves from, its direction, and the corner it leads to. */
  datatype Side = Side(from: nat, dir: Dir, to: nat)

  function SidesOf(ch: char): seq<Side> {
    match ch
    case 'x' => [Side(0, 6, 3), Side(3, 0, 2), Side(2, 2, 1), Side(1, 4, 0)]
    case '#' => [Side(0, 6, 3), Side(3, 0, 2), Side(2, 2, 1), Side(1, 4, 0)]
    case 'a' => [Side(0, 7, 2), Side(2, 2, 1), Side(1, 4, 0)]
    case 's' => [Side(3, 1, 1), Side(1, 4, 0), Side(0, 6, 3)]
    case 'w' => [Side(2, 3, 0), Side(0, 6, 3), Side(3, 0, 2)]
    case 'q' => [Side(1, 5, 3), Side(3, 0, 2), Side(2, 2, 1)]
    case _ => []
  }

  /** The polygon that is drawn for it, at the coordinates of the block. */
  function PointsOf(ch: char, x: int, y: int): seq<Point> {
    match ch
    case 'x' => [Point(x, y, 6), Point(x, y + 1, 0), Point(x + 1, y + 1, 2), Point(x + 1, y, 4)]
    case '#' => [Point(x, y, 6), Point(x, y + 1, 0), Point(x + 1, y + 1, 2), Point(x + 1, y, 4)]
    case 'a' => [Point(x, y, 7), Point(x + 1, y + 1, 2), Point(x + 1, y, 4)]
    case 's' => [Point(x, y + 1, 1), Point(x + 1, y, 4), Point(x, y, 6)]
    case 'w' => [Point(x + 1, y + 1, 3), Point(x, y, 6), Point(x, y + 1, 0)]
    case 'q' => [Point(x + 1, y, 5), Point(x, y + 1, 0), Point(x + 1, y + 1, 2)]
    case _ => []
  }

  function EdgeAt(g: Grid, c: Loc, s: Side): Edge
    requires g.Valid() && g.Inside(c) && s.from < 4
  {
    Edge(Corner(g, c, s.from), s.dir)
  }

  lemma SideLeads(g: Grid, c: Loc, s: Side)
    requires g.Valid() && g.Inside(c) && exists ch :: s in SidesOf(ch)
    ensures s.from < 4 && s.to < 4 && g.Move(Corner(g, c, s.from), s.dir) == Corner(g, c, s.to)
  {
    WrapInside(g, c);
    MoveMove(g, c, 0, 4);
    MoveMove(g, c, 0, 5);
    MoveMove(g, c, 7, 2);
    MoveMove(g, c, 7, 3);
    MoveMove(g, c, 6, 0);
    MoveMove(g, c, 6, 1);
  }

  lemma IsSide(ch: char, i: nat)
    requires i < |SidesOf(ch)|
    ensures SidesOf(ch)[i] in SidesOf(ch)
  {
  }

  /** Each side of the outline has wall on its left and none on its right. */
  lemma SideIsBoundary(g: Grid, c: Loc, i: nat)
    requires g.Valid() && Alone(g, c) && i < |SidesOf(g.At(c))|
    ensures var s := SidesOf(g.At(c))[i]; s.from < 4 && s.to < 4 && g.Boundary(EdgeAt(g, c, s))
  {
    var ch, s := g.At(c), SidesOf(g.At(c))[i];
    hide Grid.NoEdge, Grid.Move, Grid.At;
    Around(g, c, s.from, s.dir);
    Around(g, c, s.from, Turned(s.dir, 1));
  }

  /** If the sharpest turn to the left is blocked and the next one is not, the step makes that. */
  lemma StepTurnsOnce(g: Grid, e: Edge)
    requires g.Valid() && g.Boundary(e)
    requires g.NoEdge(g.Move(e.at, e.dir), Turned(e.dir, 3)) && !g.NoEdge(g.Move(e.at, e.dir), Turned(e.dir, 2))
    ensures Step(g, e) == Edge(g.Move(e.at, e.dir), Turned(e.dir, 2))
  {
    hide Grid.NoEdge, Grid.Move, Turned;
    BoundaryBothEnds(g, e.at, e.dir);
    var ring := Sectors(g, g.Move(e.at, e.dir));
    assert ring[Turned(e.dir, 3)] && !ring[Turned(e.dir, 2)];
    assert RightTurns(ring, e.dir, 0) == RightTurns(ring, e.dir, 1) == 1;
  }

  /** Tracing goes from each side of the outline to the next. */
  lemma SideFollows(g: Grid, c: Loc, i: nat)
    requires g.Valid() && Alone(g, c) && i < |SidesOf(g.At(c))|
    ensures var sides := SidesOf(g.At(c));
            var s, next := sides[i], sides[if i + 1 < |sides| then i + 1 else 0];
            && s.from < 4 && next.from < 4 && g.Boundary(EdgeAt(g, c, s))
            && Step(g, EdgeAt(g, c, s)) == EdgeAt(g, c, next)
  {
    var sides := SidesOf(g.At(c));
    var s, next := sides[i], sides[if i + 1 < |sides| then i + 1 else 0];
    hide Grid.NoEdge, Grid.Move, Grid.At, Step, Grid.Boundary;
    SideIsBoundary(g, c, i);
    IsSide(g.At(c), i);
    SideLeads(g, c, s);
    Around(g, c, s.to, Turned(s.dir, 3));
    Around(g, c, s.to, Turned(s.dir, 2));
    Turning(g.At(c), i);
    if next.dir == Turned(s.dir, 3) {
      StepTurnsLeft(g, EdgeAt(g, c, s));
    } else {
      StepTurnsOnce(g, EdgeAt(g, c, s));
    }
  }

  lemma Turning(ch: char, i: nat)
    requires i < |SidesOf(ch)|
    ensures var s, next := SidesOf(ch)[i], SidesOf(ch)[if i + 1 < |SidesOf(ch)| then i + 1 else 0];
            && s.to == next.from < 4
            && if SectorWall(ch, s.to, Turned(s.dir, 3))
               then !SectorWall(ch, s.to, Turned(s.dir, 2)) && next.dir == Turned(s.dir, 2)
               else next.dir == Turned(s.dir, 3)
  {
  }

  /** The outline of block c as a list of edges. */
  ghost function OutlineAround(g: Grid, c: Loc): (path: seq<Edge>)
    requires g.Valid() && g.Inside(c)
    ensures |path| == |SidesOf(g.At(c))|
  {
    var sides := SidesOf(g.At(c));
    CornersFit(g.At(c));
    seq(|sides|, i requires 0 <= i < |sides| && sides[i].from < 4 => EdgeAt(g, c, sides[i]))
  }

  lemma CornersFit(ch: char)
    ensures forall i | 0 <= i < |SidesOf(ch)| :: SidesOf(ch)[i].from < 4
    ensures forall i, j | 0 <= i < j < |SidesOf(ch)| :: SidesOf(ch)[i].dir != SidesOf(ch)[j].dir
    ensures SidesOf(ch) != [] <==> !IsOpen(ch)
  {
  }

  /** Tracing from its first side goes around exactly this outline. */
  lemma LoneOutline(g: Grid, c: Loc)
    requires g.Valid() && Alone(g, c) && !IsOpen(g.At(c))
    ensures var path := OutlineAround(g, c);
            path != [] && g.Boundary(path[0]) && Orbit(g, path[0]) == path
  {
    var sides, path := SidesOf(g.At(c)), OutlineAround(g, c);
    CornersFit(g.At(c));
    hide Grid.NoEdge, Grid.Move, Grid.At, Step, Grid.Boundary, SidesOf, Orbit;
    forall i | 0 <= i < |path|
      ensures g.Boundary(path[i]) && Step(g, path[i]) == path[if i + 1 < |path| then i + 1 else 0]
    {
      SideFollows(g, c, i);
    }
    assert Loop(g, path);
    LoopIsOrbit(g, path);
  }

  /** A loop is what tracing meets from its first edge on. */
  lemma LoopIsOrbit(g: Grid, path: seq<Edge>)
    requires g.Valid() && Loop(g, path)
    ensures g.Boundary(path[0]) && Orbit(g, path[0]) == path
  {
    hide Step, Grid.Boundary, Extend;
    var orbit := Orbit(g, path[0]);
    LoopEndsFirst(g, orbit, path);
    LoopEndsFirst(g, path, orbit);
    SameSteps(g, orbit, path, |path|);
  }

  lemma LoopEndsFirst(g: Grid, a: seq<Edge>, b: seq<Edge>)
    requires g.Valid() && Loop(g, a) && Trace(g, b) && a[0] == b[0]
    ensures |b| <= |a|
  {
    hide Step, Grid.Boundary;
    if |a| < |b| {
      SameSteps(g, a, b, |a|);
      LastSame(a, b);
      LaterEdge(g, b, |a|);
    }
  }

  lemma LaterEdge(g: Grid, b: seq<Edge>, n: nat)
    requires g.Valid() && Trace(g, b) && 0 < n < |b|
    ensures g.Boundary(b[n - 1]) && b[n] == Step(g, b[n - 1]) && b[n] != b[0]
  {
  }

  lemma LastSame(a: seq<Edge>, b: seq<Edge>)
    requires 0 < |a| < |b| && a[..|a|] == b[..|a|]
    ensures a[|a| - 1] == b[|a| - 1]
  {
    assert a[|a| - 1] == a[..|a|][|a| - 1] == b[..|a|][|a| - 1];
  }

  lemma {:induction false} SameSteps(g: Grid, a: seq<Edge>, b: seq<Edge>, n: nat)
    requires g.Valid() && Trace(g, a) && Trace(g, b) && a[0] == b[0] && n <= |a| && n <= |b|
    ensures a[..n] == b[..n]
  {
    hide Step, Grid.Boundary;
    if n > 1 {
      SameSteps(g, a, b, n - 1);
      assert a[n - 2] == a[..n - 1][n - 2] == b[..n - 1][n - 2] == b[n - 2];
      assert a[n - 1] == Step(g, a[n - 2]) && b[n - 1] == Step(g, b[n - 2]);
      assert a[..n] == a[..n - 1] + [a[n - 1]] && b[..n] == b[..n - 1] + [b[n - 1]];
    }
  }

  /** Which corner an edge with block c on its left leaves from. */
  function CornerOf(d: Dir): nat {
    if d == 6 || d == 7 then 0 else if d == 4 || d == 5 then 1 else if d == 2 || d == 3 then 2 else 3
  }

  lemma LeavesCorner(g: Grid, e: Edge)
    requires g.Valid() && g.Inside(e.at)
    ensures e.at == Corner(g, WallLeft(g, e), CornerOf(e.dir))
  {
    MoveBack(g, e.at, 2);
    MoveBack(g, e.at, 3);
    MoveBack(g, e.at, 4);
    hide Grid.Move;
  }

  /** No other edge has the block on its left. */
  lemma OnlyThese(g: Grid, c: Loc, e: Edge)
    requires g.Valid() && Alone(g, c) && g.Boundary(e) && g.Inside(e.at) && WallLeft(g, e) == c
    ensures e in OutlineAround(g, c)
  {
    LeavesCorner(g, e);
    var n := CornerOf(e.dir);
    Around(g, c, n, e.dir);
    Around(g, c, n, Turned(e.dir, 1));
    hide Grid.NoEdge, Grid.Move, Grid.At, WallLeft;
    var i := WhichSide(g.At(c), n, e.dir);
    assert OutlineAround(g, c)[i] == e;
  }

  lemma WhichSide(ch: char, n: nat, d: Dir) returns (i: nat)
    requires n == CornerOf(d) && SectorWall(ch, n, Turned(d, 1)) && !SectorWall(ch, n, d)
    ensures i < |SidesOf(ch)| && SidesOf(ch)[i].from == n && SidesOf(ch)[i].dir == d
  {
    i := if |SidesOf(ch)| > 0 && SidesOf(ch)[0].dir == d then 0
         else if |SidesOf(ch)| > 1 && SidesOf(ch)[1].dir == d then 1
         else if |SidesOf(ch)| > 2 && SidesOf(ch)[2].dir == d then 2 else 3;
  }

  // ------------------------------------------------------------- what is drawn

  lemma NotLinked(g: Grid, c: Loc, d: Dir)
    requires g.Valid() && Alone(g, c)
    ensures !Joined(g, c, d)
  {
    hide Grid.Move, Grid.At;
  }

  /** Block c is a part by itself. */
  lemma LinkedToItself(g: Grid, c: Loc, b: Loc)
    requires g.Valid() && Alone(g, c) && Linked(g, c, b)
    ensures b == c
  {
    hide Joined, Grid.Move, Grid.At, Grid.Valid;
    var p := SomeChain(g, c, b);
    forall d: Dir
      ensures !Joined(g, c, d)
    {
      NotLinked(g, c, d);
    }
    if |p| > 1 {
      FirstStep(g, p);
    }
  }

  lemma FirstStep(g: Grid, p: seq<Loc>)
    requires g.Valid() && Chain(g, p) && |p| > 1
    ensures WallNext(g, p[0], p[1])
  {
    hide WallNext;
  }

  lemma DrawsThree(path: seq<Edge>, x: int, y: int, poly: seq<Point>)
    requires |path| >= 3 && Draws(poly, x, y, path)
    ensures poly[0] == Point(x, y, path[0].dir)
    ensures poly[1] == Point(x + DirX(path[0].dir), y + DirY(path[0].dir), path[1].dir)
    ensures poly[2] == Point(x + DirX(path[0].dir) + DirX(path[1].dir), y + DirY(path[0].dir) + DirY(path[1].dir),
                             path[2].dir)
    ensures |path| > 3 ==>
              poly[3] == Point(x + DirX(path[0].dir) + DirX(path[1].dir) + DirX(path[2].dir),
                               y + DirY(path[0].dir) + DirY(path[1].dir) + DirY(path[2].dir), path[3].dir)
  {
    hide Displacement, DirX, DirY;
    NoEdgeYet(path);
    OneMore(path, 0);
    OneMore(path, 1);
    OneMore(path, 2);
  }

  lemma SidesDraw(g: Grid, c: Loc, x: int, y: int, poly: seq<Point>)
    requires g.Valid() && g.Inside(c) && !IsOpen(g.At(c))
    requires OutlineAround(g, c) != [] && Draws(poly, x, y, OutlineAround(g, c))
    requires var d := OutlineAround(g, c)[0].dir; x == c.x + CornerX(d) && y == c.y + CornerY(d)
    ensures poly == PointsOf(g.At(c), c.x, c.y)
  {
    hide Displacement, Grid.Move, Grid.At, Draws;
    var path, ch := OutlineAround(g, c), g.At(c);
    SideCount(ch);
    DrawsThree(path, x, y, poly);
    LengthOf(poly, x, y, path);
    assert forall i | 0 <= i < |path| :: path[i].dir == SidesOf(ch)[i].dir;
    hide OutlineAround;
    PointsFrom(ch, c.x, c.y, x, y, poly);
  }

  lemma SideCount(ch: char)
    ensures !IsOpen(ch) ==> |SidesOf(ch)| >= 3
  {
  }

  lemma LengthOf(poly: seq<Point>, x: int, y: int, path: seq<Edge>)
    requires Draws(poly, x, y, path)
    ensures |poly| == |path|
  {
  }

  lemma PointsFrom(ch: char, cx: int, cy: int, x: int, y: int, poly: seq<Point>)
    requires !IsOpen(ch) && |poly| == |SidesOf(ch)| >= 3
    requires x == cx + CornerX(SidesOf(ch)[0].dir) && y == cy + CornerY(SidesOf(ch)[0].dir)
    requires var s := SidesOf(ch);
             && poly[0] == Point(x, y, s[0].dir)
             && poly[1] == Point(x + DirX(s[0].dir), y + DirY(s[0].dir), s[1].dir)
             && poly[2] == Point(x + DirX(s[0].dir) + DirX(s[1].dir), y + DirY(s[0].dir) + DirY(s[1].dir), s[2].dir)
             && (|s| > 3 ==>
                   poly[3] == Point(x + DirX(s[0].dir) + DirX(s[1].dir) + DirX(s[2].dir),
                                    y + DirY(s[0].dir) + DirY(s[1].dir) + DirY(s[2].dir), s[3].dir))
    ensures poly == PointsOf(ch, cx, cy)
  {
  }

  lemma NoEdgeYet(path: seq<Edge>)
    ensures Displacement(path[..0]) == (0, 0)
  {
  }

  lemma OneMore(path: seq<Edge>, n: nat)
    requires n < |path|
    ensures Displacement(path[..n + 1])
         == (Displacement(path[..n]).0 + DirX(path[n].dir), Displacement(path[..n]).1 + DirY(path[n].dir))
  {
    assert path[..n + 1][..n] == path[..n];
  }

  lemma MapHasIt(g: Grid, c: Loc, mapparts: map<Loc, Part>, partcount: nat)
    requires g.Valid() && Alone(g, c) && !IsOpen(g.At(c)) && Parted(g, mapparts, partcount)
    ensures c in mapparts && mapparts[c] == Part(mapparts[c].num, c.x, c.y) && mapparts[c].num < partcount
    ensures forall b | b in mapparts && mapparts[b].num == mapparts[c].num :: b == c
  {
    SidesAre(g.At(c));
    hide Wall, Grid.At, Grid.Wrap, Linked, Alone;
    var k := mapparts[c].num;
    forall b | b in mapparts && mapparts[b].num == k
      ensures b == c
    {
      LinkedToItself(g, c, b);
    }
    assert InUse(mapparts, k);
  }

  /** Whichever way its polygon was found, it starts at the first side. */
  lemma StartsAtFirst(g: Grid, c: Loc, e: Edge)
    requires g.Valid() && Alone(g, c) && !IsOpen(g.At(c)) && g.Boundary(e) && g.Inside(e.at)
    requires WallLeft(g, e) == c && StartsRight(g, e)
    ensures OutlineAround(g, c) != [] && e == OutlineAround(g, c)[0]
  {
    hide Grid.NoEdge, Grid.Move, Step, Grid.Boundary, Orbit, WallLeft, Alone;
    OnlyThese(g, c, e);
    LoneOutline(g, c);
    var path := OutlineAround(g, c);
    SidesAre(g.At(c));
    LeftOpen(g, c);
    var i :| 0 <= i < |path| && path[i] == e;
    SameOutline(g, path[0], e);
    InFlat(Orbit(g, e), path[0]);
    StartOf(g.At(c), g.At(g.Move(c, 4)), i);
  }

  lemma InFlat(path: seq<Edge>, e: Edge)
    requires e in path
    ensures Flat(path) ==> e.dir == 0 || e.dir == 2 || e.dir == 4
  {
  }

  lemma LeftOpen(g: Grid, c: Loc)
    requires g.Valid() && Alone(g, c)
    ensures IsOpen(g.At(g.Move(c, 4)))
  {
  }

  lemma StartOf(ch: char, left: char, i: nat)
    requires i < |SidesOf(ch)| && IsOpen(left)
    ensures StartFor(ch, left).Start? && StartFor(ch, left).dir == SidesOf(ch)[0].dir
    ensures StartFor(ch, left).dir == SidesOf(ch)[i].dir ==> i == 0
    ensures Sought(Edge(Loc(0, 0), SidesOf(ch)[0].dir))
  {
  }

  lemma OnItsLeft(g: Grid, c: Loc)
    requires g.Valid() && Alone(g, c) && !IsOpen(g.At(c))
    ensures OutlineAround(g, c) != [] && g.Boundary(OutlineAround(g, c)[0]) && g.Inside(OutlineAround(g, c)[0].at)
    ensures WallLeft(g, OutlineAround(g, c)[0]) == c
  {
    LoneOutline(g, c);
    MoveBack(g, c, 6);
    MoveBack(g, c, 7);
    MoveBack(g, c, 0);
    hide Grid.NoEdge, Grid.Move, Step, Orbit, Alone;
  }

  /** Each polygon filed under the part of a lone block goes around it. */
  lemma FiledHere(g: Grid, c: Loc, mapparts: map<Loc, Part>, partcount: nat, polys: seq<seq<seq<Point>>>,
                  starts: seq<seq<Edge>>, k: nat, i: nat)
    requires g.Valid() && Alone(g, c) && !IsOpen(g.At(c))
    requires Parted(g, mapparts, partcount) && Gathered(g, mapparts, partcount, polys, starts)
    requires c in mapparts && mapparts[c].num == k < |polys| && i < |polys[k]|
    ensures OutlineAround(g, c) != [] && starts[k][i] == OutlineAround(g, c)[0]
    ensures polys[k][i] == PointsOf(g.At(c), c.x, c.y)
  {
    hide Grid.NoEdge, Grid.Move, Grid.At, Step, Grid.Boundary, Orbit, WallLeft, Alone, Parted, StartsRight, TracedOnce;
    hide Grid.Valid, PointsOf, Draws;
    MapHasIt(g, c, mapparts, partcount);
    var s, poly := starts[k][i], polys[k][i];
    assert OutlinesPart(g, mapparts, s, k) && DrawnFrom(g, mapparts, poly, s) && OutlineOf(g, poly, s);
    StartsAtFirst(g, c, s);
    LoneOutline(g, c);
    SidesDraw(g, c, poly[0].x, poly[0].y, poly);
  }

  /** The polygons of the part of a lone block are one polygon: its sides one after the other,
      at its own coordinates. */
  lemma LoneBlockDrawn(g: Grid, c: Loc, mapparts: map<Loc, Part>, partcount: nat, polys: seq<seq<seq<Point>>>,
                       starts: seq<seq<Edge>>)
    requires g.Valid() && Alone(g, c) && !IsOpen(g.At(c))
    requires Parted(g, mapparts, partcount) && Gathered(g, mapparts, partcount, polys, starts)
    requires forall e | g.Boundary(e) :: IsDrawn(g, polys, e)
    ensures c in mapparts && mapparts[c].num < |polys|
    ensures polys[mapparts[c].num] == [PointsOf(g.At(c), c.x, c.y)]
  {
    hide Grid.NoEdge, Grid.Move, Grid.At, Step, Grid.Boundary, Orbit, WallLeft, Alone, Parted, OutlinesOf, AllDrawnFrom;
    hide Grid.Valid, PointsOf, FiledByPart, EdgeOf, AllBoundary;
    MapHasIt(g, c, mapparts, partcount);
    OnItsLeft(g, c);
    var k := mapparts[c].num;
    var f := OutlineAround(g, c)[0];
    var m, h, j :| 0 <= m < |polys| && 0 <= h < |polys[m]| && 0 <= j < |polys[m][h]| && EdgeOf(g, polys[m][h][j]) == f;
    OutlinesOnePart(g, mapparts, partcount, polys, starts, m, h, j);
    SameLengths(g, mapparts, partcount, polys, starts, k);
    forall i | 0 <= i < |polys[k]|
      ensures starts[k][i] == f && polys[k][i] == PointsOf(g.At(c), c.x, c.y)
    {
      FiledHere(g, c, mapparts, partcount, polys, starts, k, i);
    }
    if |polys[k]| > 1 {
      TwiceTraced(g, starts, k);
    }
  }

  lemma SameLengths(g: Grid, mapparts: map<Loc, Part>, partcount: nat, polys: seq<seq<seq<Point>>>,
                    starts: seq<seq<Edge>>, k: nat)
    requires g.Valid() && Gathered(g, mapparts, partcount, polys, starts) && k < |polys|
    ensures k < |starts| && |starts[k]| == |polys[k]| && AllBoundary(g, starts) && TracedOnce(g, starts)
  {
    hide OutlineOf, DrawnFrom, TracedOnce, AllBoundary, FiledByPart;
  }

  lemma TwiceTraced(g: Grid, starts: seq<seq<Edge>>, k: nat)
    requires g.Valid() && AllBoundary(g, starts) && TracedOnce(g, starts) && k < |starts| && |starts[k]| > 1
    ensures starts[k][0] != starts[k][1]
  {
    hide Orbit, Grid.Boundary;
    OrbitHasStart(g, starts[k][0]);
  }
}
