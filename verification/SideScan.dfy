/** The scan of mapconvert.py that starts the tracing of outlines at left sides and
    slanted sides of blocks, and what the polygons found so far are. */
module SideScan {
  import opened Arithmetic
  import opened BlockMap
  import opened Outline
  import opened Tracing

  // ------------------------------------------------- which traces the scan starts

  /** The edges the scan is after: left sides and slanted sides. */
  predicate Sought(e: Edge) {
    e.dir == 1 || e.dir == 3 || e.dir == 5 || e.dir == 6 || e.dir == 7
  }

  datatype Start = NoStart | Start(dx: int, dy: int, dir: Dir)

  /** Where, relative to its block, the scan starts a trace. */
  function StartFor(block: char, left: char): Start {
    if !Wall(block) then NoStart
    else if block == REC_UR then Start(0, 0, 7)
    else if block == REC_DR then Start(1, 0, 5)
    else if block == REC_DL then Start(1, 1, 3)
    else if block == REC_UL then Start(0, 1, 1)
    else if LeftSide(block) && !RightSide(left) then Start(0, 0, 6)
    else NoStart
  }

  /** The one place where an edge of direction d marking block c can leave from. */
  function MarkCorner(g: Grid, c: Loc, d: Dir): Loc
    requires g.Valid()
  {
    match d
    case 5 => g.Move(c, 0)
    case 3 => g.Move(c, 7)
    case 1 => g.Move(c, 6)
    case _ => c
  }

  lemma MarksFrom(g: Grid, e: Edge, c: Loc)
    requires g.Valid() && g.Inside(e.at) && Marks(g, e, c)
    ensures g.Inside(c) && Sought(e) && e.at == MarkCorner(g, c, e.dir)
  {
    WrapInside(g, e.at);
    MoveMove(g, e.at, 4, 0);
    MoveMove(g, e.at, 3, 7);
    MoveMove(g, e.at, 2, 6);
  }

  /** A block decides which boundary edges mark it. */
  lemma MarkingEdge(g: Grid, c: Loc, d: Dir)
    requires g.Valid() && g.Inside(c) && Sought(Edge(c, d))
    ensures Marks(g, Edge(MarkCorner(g, c, d), d), c)
    ensures g.Boundary(Edge(MarkCorner(g, c, d), d)) <==>
            match d
            case 6 => LeftSide(g.At(c)) && !RightSide(g.At(g.Move(c, 4)))
            case 7 => g.At(c) == REC_UR
            case 5 => g.At(c) == REC_DR
            case 3 => g.At(c) == REC_DL
            case _ => g.At(c) == REC_UL
  {
    WrapInside(g, c);
    MoveMove(g, c, 0, 4);
    MoveMove(g, c, 7, 3);
    MoveMove(g, c, 6, 2);
    MoveMove(g, c, 7, 2);
    MoveMove(g, c, 6, 3);
  }

  lemma StartsFit(g: Grid, c: Loc)
    requires g.Valid() && g.Inside(c)
    ensures var s := StartFor(g.At(c), g.At(g.Move(c, 4)));
            && (s.Start? ==>
                  && Sought(Edge(c, s.dir))
                  && g.Wrap(c.x + s.dx, c.y + s.dy) == MarkCorner(g, c, s.dir)
                  && g.Boundary(Edge(MarkCorner(g, c, s.dir), s.dir)))
            && (s.NoStart? ==> forall d: Dir | Sought(Edge(c, d)) :: !g.Boundary(Edge(MarkCorner(g, c, d), d)))
  {
    WrapInside(g, c);
    hide Grid.Boundary, Grid.NoEdge;
    forall d: Dir | Sought(Edge(c, d))
      ensures g.Boundary(Edge(MarkCorner(g, c, d), d)) <==>
              match d
              case 6 => LeftSide(g.At(c)) && !RightSide(g.At(g.Move(c, 4)))
              case 7 => g.At(c) == REC_UR
              case 5 => g.At(c) == REC_DR
              case 3 => g.At(c) == REC_DL
              case _ => g.At(c) == REC_UL
    {
      MarkingEdge(g, c, d);
    }
  }

  /** A left side and a slanted side of one block follow each other. */
  lemma SideThenSlant(g: Grid, c: Loc)
    requires g.Valid() && g.Inside(c) && g.Boundary(Edge(c, 6))
    ensures var a, b := Edge(g.Move(c, 7), 3), Edge(c, 6);
            g.At(c) == REC_DL && g.Boundary(a) ==> Step(g, a) == b
    ensures var a, b := Edge(c, 6), Edge(g.Move(c, 6), 1);
            g.At(c) == REC_UL && g.Boundary(b) ==> Step(g, a) == b
  {
    WrapInside(g, c);
    MoveMove(g, c, 7, 3);
    MoveMove(g, c, 6, 2);
  }

  lemma StepSharesOrbit(g: Grid, a: Edge, b: Edge)
    requires g.Valid() && g.Boundary(a) && g.Boundary(b) && Step(g, a) == b
    ensures a in Orbit(g, b) && b in Orbit(g, a)
  {
    hide Step, Grid.Boundary, Grid.Valid;
    var p := Orbit(g, a);
    assert b in p by {
      if |p| > 1 {
        assert p[1] == b;
      }
    }
    var i :| 0 <= i < |p| && p[i] == b;
    LoopsMeet(g, p, Orbit(g, b), i, 0);
  }

  lemma OrbitsMeet(g: Grid, a: Edge, b: Edge, e: Edge)
    requires g.Valid() && g.Boundary(a) && g.Boundary(b)
    requires e in Orbit(g, a) && e in Orbit(g, b)
    ensures forall f :: f in Orbit(g, a) <==> f in Orbit(g, b)
  {
    hide Step, Grid.Boundary, Grid.Valid, Loop;
    var p, q := Orbit(g, a), Orbit(g, b);
    var i, j :| 0 <= i < |p| && 0 <= j < |q| && p[i] == e && q[j] == e;
    LoopsMeet(g, p, q, i, j);
    LoopsMeet(g, q, p, j, i);
  }

  /** All boundary edges that mark one block lie on one outline. */
  lemma OneOutlinePerBlock(g: Grid, c: Loc, a: Edge, b: Edge)
    requires g.Valid() && g.Inside(c) && g.Boundary(a) && g.Boundary(b)
    requires Marks(g, a, c) && Marks(g, b, c)
    ensures b in Orbit(g, a)
  {
    MarksFrom(g, a, c);
    MarksFrom(g, b, c);
    MarkingEdge(g, c, a.dir);
    MarkingEdge(g, c, b.dir);
    hide Grid.NoEdge, Step, Grid.Boundary, Marks, Extend;
    if a.dir == 6 && b.dir != 6 {
      SideThenSlant(g, c);
      if b.dir == 3 { StepSharesOrbit(g, b, a); } else { StepSharesOrbit(g, a, b); }
    } else if b.dir == 6 && a.dir != 6 {
      SideThenSlant(g, c);
      if a.dir == 3 { StepSharesOrbit(g, a, b); } else { StepSharesOrbit(g, b, a); }
    }
  }

  // ---------------------------------------------------------- the scan itself

  /** The scan's result so far: starts[k] lists where part k's polygons start. */
  ghost predicate Collected(g: Grid, starts: seq<seq<Edge>>, e: Edge)
    requires g.Valid() && AllBoundary(g, starts)
  {
    exists k, i :: 0 <= k < |starts| && 0 <= i < |starts[k]| && e in Orbit(g, starts[k][i])
  }

  ghost predicate AllBoundary(g: Grid, starts: seq<seq<Edge>>)
    requires g.Valid()
  {
    forall k, i :: 0 <= k < |starts| && 0 <= i < |starts[k]| ==> g.Boundary(starts[k][i])
  }

  /** No edge lies on two of the traced polygons. */
  ghost predicate TracedOnce(g: Grid, starts: seq<seq<Edge>>)
    requires g.Valid() && AllBoundary(g, starts)
  {
    forall k, i, m, j | 0 <= k < |starts| && 0 <= i < |starts[k]| && 0 <= m < |starts| && 0 <= j < |starts[m]| ::
      starts[m][j] in Orbit(g, starts[k][i]) ==> k == m && i == j
  }

  /** Orbits that do not hold each other's starts have no edge in common. */
  lemma OncePerEdge(g: Grid, starts: seq<seq<Edge>>, k: nat, i: nat, m: nat, j: nat, e: Edge)
    requires g.Valid() && AllBoundary(g, starts) && TracedOnce(g, starts)
    requires k < |starts| && i < |starts[k]| && m < |starts| && j < |starts[m]|
    requires e in Orbit(g, starts[k][i]) && e in Orbit(g, starts[m][j])
    ensures k == m && i == j
  {
    hide Grid.Boundary, Extend;
    OrbitsMeet(g, starts[k][i], starts[m][j], e);
    OrbitHasStart(g, starts[m][j]);
  }

  lemma OrbitHasStart(g: Grid, e: Edge)
    requires g.Valid() && g.Boundary(e)
    ensures e in Orbit(g, e)
  {
  }

  ghost function AddStart(starts: seq<seq<Edge>>, k: nat, e: Edge): seq<seq<Edge>>
    requires k < |starts|
  {
    starts[k := starts[k] + [e]]
  }

  lemma AddCollected(g: Grid, starts: seq<seq<Edge>>, k: nat, e: Edge)
    requires g.Valid() && AllBoundary(g, starts) && TracedOnce(g, starts)
    requires k < |starts| && g.Boundary(e) && !Collected(g, starts, e)
    ensures AllBoundary(g, AddStart(starts, k, e)) && TracedOnce(g, AddStart(starts, k, e))
    ensures forall f :: Collected(g, AddStart(starts, k, e), f) <==> Collected(g, starts, f) || f in Orbit(g, e)
  {
    hide Grid.Boundary, Grid.Valid, Orbit, Loop, Collected;
    var after := AddStart(starts, k, e);
    assert forall m, j | 0 <= m < |after| && 0 <= j < |after[m]| ::
        if m == k && j == |starts[k]| then after[m][j] == e else j < |starts[m]| && after[m][j] == starts[m][j];
    assert AllBoundary(g, after);
    forall m, j | 0 <= m < |starts| && 0 <= j < |starts[m]|
      ensures e !in Orbit(g, starts[m][j]) && starts[m][j] !in Orbit(g, e)
    {
      NotCollected(g, starts, e, m, j);
    }
    forall f
      ensures Collected(g, after, f) <==> Collected(g, starts, f) || f in Orbit(g, e)
    {
      CollectedAlso(g, starts, k, e, f);
    }
  }

  lemma NotCollected(g: Grid, starts: seq<seq<Edge>>, e: Edge, m: nat, j: nat)
    requires g.Valid() && AllBoundary(g, starts) && g.Boundary(e) && !Collected(g, starts, e)
    requires m < |starts| && j < |starts[m]|
    ensures e !in Orbit(g, starts[m][j]) && starts[m][j] !in Orbit(g, e)
  {
    hide Grid.Boundary, Grid.Valid, Orbit;
    if starts[m][j] in Orbit(g, e) {
      OrbitHasStart(g, starts[m][j]);
      OrbitHasStart(g, e);
      OrbitsMeet(g, e, starts[m][j], starts[m][j]);
    }
  }

  lemma CollectedAlso(g: Grid, starts: seq<seq<Edge>>, k: nat, e: Edge, f: Edge)
    requires g.Valid() && AllBoundary(g, starts) && k < |starts| && AllBoundary(g, AddStart(starts, k, e))
             && g.Boundary(e)
    ensures Collected(g, AddStart(starts, k, e), f) <==> Collected(g, starts, f) || f in Orbit(g, e)
  {
    hide Grid.Boundary, Grid.Valid, Orbit, Loop;
    var after := AddStart(starts, k, e);
    if Collected(g, starts, f) {
      var m, j :| 0 <= m < |starts| && 0 <= j < |starts[m]| && f in Orbit(g, starts[m][j]);
      assert after[m][j] == starts[m][j];
    }
    if f in Orbit(g, e) {
      assert after[k][|starts[k]|] == e;
    }
  }

  /** Every boundary edge that marks block c has been traced. */
  ghost predicate Scanned(g: Grid, starts: seq<seq<Edge>>, c: Loc)
    requires g.Valid() && AllBoundary(g, starts)
  {
    forall e | g.Boundary(e) && Marks(g, e, c) :: Collected(g, starts, e)
  }

  ghost predicate MarkedStarts(g: Grid, starts: seq<seq<Edge>>, c: Loc)
    requires g.Valid() && AllBoundary(g, starts)
  {
    exists e :: Collected(g, starts, e) && Marks(g, e, c)
  }

  lemma MarkedMeansScanned(g: Grid, starts: seq<seq<Edge>>, c: Loc)
    requires g.Valid() && AllBoundary(g, starts) && g.Inside(c) && MarkedStarts(g, starts, c)
    ensures Scanned(g, starts, c)
  {
    hide Grid.Boundary, Grid.Valid, Orbit, Marks;
    var a :| Collected(g, starts, a) && Marks(g, a, c);
    var k, i :| 0 <= k < |starts| && 0 <= i < |starts[k]| && a in Orbit(g, starts[k][i]);
    assert g.Boundary(a);
    forall e | g.Boundary(e) && Marks(g, e, c)
      ensures Collected(g, starts, e)
    {
      OneOutlinePerBlock(g, c, a, e);
      OrbitHasStart(g, a);
      OrbitsMeet(g, a, starts[k][i], a);
    }
  }

  lemma NoStartMeansScanned(g: Grid, starts: seq<seq<Edge>>, c: Loc)
    requires g.Valid() && AllBoundary(g, starts) && g.Inside(c)
    requires StartFor(g.At(c), g.At(g.Move(c, 4))).NoStart?
    ensures Scanned(g, starts, c)
  {
    StartsFit(g, c);
    hide Grid.NoEdge, Grid.Valid, Orbit, Marks, StartFor, Collected, MarkCorner, Grid.Move;
    forall e | g.Boundary(e) && Marks(g, e, c)
      ensures false
    {
      MarksFrom(g, e, c);
    }
  }

  lemma StartMeansScanned(g: Grid, starts: seq<seq<Edge>>, k: nat, c: Loc, a: Edge)
    requires g.Valid() && AllBoundary(g, starts) && TracedOnce(g, starts) && g.Inside(c) && k < |starts|
    requires g.Boundary(a) && Marks(g, a, c) && !MarkedStarts(g, starts, c)
    ensures AllBoundary(g, AddStart(starts, k, a)) && TracedOnce(g, AddStart(starts, k, a))
    ensures Scanned(g, AddStart(starts, k, a), c)
    ensures forall b | Scanned(g, starts, b) :: Scanned(g, AddStart(starts, k, a), b)
    ensures forall b :: MarkedStarts(g, AddStart(starts, k, a), b) <==>
                        MarkedStarts(g, starts, b) || MarkedBy(g, Orbit(g, a), b)
  {
    hide Grid.Boundary, Grid.Valid, Orbit, Marks, Collected, AddStart, TracedOnce, AllBoundary;
    assert !Collected(g, starts, a);
    AddCollected(g, starts, k, a);
    forall e | g.Boundary(e) && Marks(g, e, c)
      ensures Collected(g, AddStart(starts, k, a), e)
    {
      OneOutlinePerBlock(g, c, a, e);
    }
  }

  // mapconvert.py numbers the parts of the map and gives each wall block the
  // unwrapped coordinates it has within its part.
  datatype Part = Part(num: nat, x: int, y: int)

  ghost predicate PartsFit(g: Grid, mapparts: map<Loc, Part>, partcount: nat)
    requires g.Valid()
  {
    forall c | g.Inside(c) && Wall(g.At(c)) ::
      c in mapparts && mapparts[c].num < partcount && g.Wrap(mapparts[c].x, mapparts[c].y) == c
  }

  /** The polygon is the whole outline through edge e, drawn from e on. */
  ghost predicate OutlineOf(g: Grid, poly: seq<Point>, e: Edge)
    requires g.Valid() && g.Boundary(e)
  {
    && |poly| > 0
    && g.Wrap(poly[0].x, poly[0].y) == e.at
    && Draws(poly, poly[0].x, poly[0].y, Orbit(g, e))
  }

  ghost predicate OutlinesOf(g: Grid, polys: seq<seq<seq<Point>>>, starts: seq<seq<Edge>>)
    requires g.Valid() && AllBoundary(g, starts)
  {
    && |polys| == |starts|
    && (forall k | 0 <= k < |polys| :: |polys[k]| == |starts[k]|)
    && (forall k, i | 0 <= k < |polys| && 0 <= i < |polys[k]| :: OutlineOf(g, polys[k][i], starts[k][i]))
  }

  /** How far the corner that an edge leaves from is from the block on its left. */
  function CornerX(d: Dir): int {
    if d == 2 || d == 3 || d == 4 || d == 5 then 1 else 0
  }

  function CornerY(d: Dir): int {
    if d == 0 || d == 1 || d == 2 || d == 3 then 1 else 0
  }

  /** The trace starts where the scan starts for the block on its left, or else on an
      outline that is flat. */
  ghost predicate StartsRight(g: Grid, e: Edge)
    requires g.Valid() && g.Boundary(e)
  {
    var c := WallLeft(g, e);
    if Sought(e) then StartFor(g.At(c), g.At(g.Move(c, 4))).Start? && StartFor(g.At(c), g.At(g.Move(c, 4))).dir == e.dir
    else Flat(Orbit(g, e))
  }

  /** The polygon starts at the coordinates of the block on the left of its first edge. */
  ghost predicate DrawnFrom(g: Grid, mapparts: map<Loc, Part>, poly: seq<Point>, e: Edge)
    requires g.Valid() && g.Boundary(e)
  {
    var c := WallLeft(g, e);
    && StartsRight(g, e)
    && poly != [] && c in mapparts
    && poly[0] == Point(mapparts[c].x + CornerX(e.dir), mapparts[c].y + CornerY(e.dir), e.dir)
  }

  ghost predicate AllDrawnFrom(g: Grid, mapparts: map<Loc, Part>, polys: seq<seq<seq<Point>>>, starts: seq<seq<Edge>>)
    requires g.Valid() && AllBoundary(g, starts)
  {
    && |polys| == |starts|
    && (forall k | 0 <= k < |polys| :: |polys[k]| == |starts[k]|)
    && (forall k, i | 0 <= k < |polys| && 0 <= i < |polys[k]| :: DrawnFrom(g, mapparts, polys[k][i], starts[k][i]))
  }

  lemma AddDrawn(g: Grid, mapparts: map<Loc, Part>, polys: seq<seq<seq<Point>>>, starts: seq<seq<Edge>>, k: nat,
                 poly: seq<Point>, e: Edge)
    requires g.Valid() && AllBoundary(g, starts) && AllDrawnFrom(g, mapparts, polys, starts)
    requires k < |starts| && g.Boundary(e) && DrawnFrom(g, mapparts, poly, e) && AllBoundary(g, AddStart(starts, k, e))
    ensures AllDrawnFrom(g, mapparts, polys[k := polys[k] + [poly]], AddStart(starts, k, e))
  {
    hide Grid.Boundary, Grid.Valid, DrawnFrom;
    var after, more := AddStart(starts, k, e), polys[k := polys[k] + [poly]];
    forall m: int, i: int | 0 <= m < |more| && 0 <= i < |more[m]|
      ensures DrawnFrom(g, mapparts, more[m][i], after[m][i])
    {
      if m != k || i != |starts[k]| {
        assert more[m][i] == polys[m][i] && after[m][i] == starts[m][i];
      }
    }
  }

  /** Each polygon is filed under the part of the block on the left of its first edge. */
  ghost predicate FiledByPart(g: Grid, mapparts: map<Loc, Part>, starts: seq<seq<Edge>>)
    requires g.Valid()
  {
    forall k, i | 0 <= k < |starts| && 0 <= i < |starts[k]| :: OutlinesPart(g, mapparts, starts[k][i], k)
  }

  /** The block that an edge marks is the one on its left. */
  lemma MarksLeft(g: Grid, e: Edge, c: Loc)
    requires g.Valid() && g.Inside(e.at) && Marks(g, e, c)
    ensures c == WallLeft(g, e)
  {
    hide Grid.Move;
  }

  ghost predicate OutlinesPart(g: Grid, mapparts: map<Loc, Part>, e: Edge, k: nat)
    requires g.Valid()
  {
    g.Inside(e.at) && WallLeft(g, e) in mapparts && mapparts[WallLeft(g, e)].num == k
  }

  lemma FileOutline(g: Grid, mapparts: map<Loc, Part>, polys: seq<seq<seq<Point>>>, starts: seq<seq<Edge>>,
                    c: Loc, poly: seq<Point>, e: Edge)
    requires g.Valid() && AllBoundary(g, starts) && OutlinesOf(g, polys, starts) && FiledByPart(g, mapparts, starts)
    requires g.Boundary(e) && OutlineOf(g, poly, e)
    requires c in mapparts && mapparts[c].num < |starts| && g.Inside(e.at) && c == WallLeft(g, e)
    requires AllBoundary(g, AddStart(starts, mapparts[c].num, e))
    ensures var k := mapparts[c].num;
            OutlinesOf(g, polys[k := polys[k] + [poly]], AddStart(starts, k, e))
    ensures FiledByPart(g, mapparts, AddStart(starts, mapparts[c].num, e))
  {
    hide Grid.Boundary, Grid.Valid, OutlineOf, Marks;
    var after := AddStart(starts, mapparts[c].num, e);
    forall k, i | 0 <= k < |after| && 0 <= i < |after[k]|
      ensures OutlinesPart(g, mapparts, after[k][i], k)
    {
      if k == mapparts[c].num && i == |starts[k]| {
        assert OutlinesPart(g, mapparts, e, k);
      } else {
        assert after[k][i] == starts[k][i];
      }
    }
  }

  lemma Drawn(g: Grid, poly: seq<Point>, x: int, y: int, e: Edge)
    requires g.Valid() && g.Boundary(e) && g.Wrap(x, y) == e.at && Draws(poly, x, y, Orbit(g, e))
    ensures OutlineOf(g, poly, e)
  {
    hide Extend, Grid.Boundary, Step, Loop;
    OrbitHasStart(g, e);
    assert Orbit(g, e)[..0] == [];
  }

  lemma ValidSize(g: Grid)
    requires g.Valid()
    ensures 0 < g.width && 0 < g.height
  {
  }

  lemma ScanBegins(g: Grid, mapparts: map<Loc, Part>, partcount: nat)
    requires g.Valid()
    ensures var starts: seq<seq<Edge>> := seq(partcount, _ => []);
            && AllBoundary(g, starts) && TracedOnce(g, starts) && FiledByPart(g, mapparts, starts)
            && OutlinesOf(g, seq(partcount, _ => []), starts)
            && AllDrawnFrom(g, mapparts, seq(partcount, _ => []), starts)
            && StartsIn(starts, SIDES)
            && forall c :: !MarkedStarts(g, starts, c)
  {
  }

  lemma StartIsWall(g: Grid, c: Loc)
    requires g.Valid() && g.Inside(c) && StartFor(g.At(c), g.At(g.Move(c, 4))).Start?
    ensures Wall(g.At(c))
  {
    hide Grid.Move, Grid.Valid;
  }

  lemma StartEdge(g: Grid, c: Loc, x: int, y: int)
    requires g.Valid() && g.Inside(c) && StartFor(g.At(c), g.At(g.Move(c, 4))).Start?
    requires g.Wrap(x, y) == c
    ensures var s := StartFor(g.At(c), g.At(g.Move(c, 4)));
            var e := Edge(g.Wrap(x + s.dx, y + s.dy), s.dir);
            g.Boundary(e) && Marks(g, e, c)
  {
    StartsFit(g, c);
    hide Grid.Boundary, Grid.NoEdge, Grid.Move, StartFor, MarkCorner, Marks, Grid.Valid;
    var s := StartFor(g.At(c), g.At(g.Move(c, 4)));
    ValidSize(g);
    AddMod(x, s.dx, g.width);
    AddMod(y, s.dy, g.height);
    MarkingEdge(g, c, s.dir);
  }

  lemma AllScanned(g: Grid, starts: seq<seq<Edge>>)
    requires g.Valid() && AllBoundary(g, starts)
    requires forall c | g.Inside(c) :: Scanned(g, starts, c)
    ensures forall e | g.Boundary(e) && Sought(e) :: Collected(g, starts, e)
  {
    hide Grid.NoEdge, Grid.Valid, Collected;
    forall e | g.Boundary(e) && Sought(e)
      ensures Collected(g, starts, e)
    {
      var c := SoughtMarks(g, e);
    }
  }

  lemma SoughtMarks(g: Grid, e: Edge) returns (c: Loc)
    requires g.Valid() && g.Inside(e.at) && Sought(e)
    ensures g.Inside(c) && Marks(g, e, c)
  {
    c := match e.dir
         case 5 => g.Move(e.at, 4)
         case 3 => g.Move(e.at, 3)
         case 1 => g.Move(e.at, 2)
         case _ => e.at;
  }

  /** What the scan has gathered: polygons, each drawn, filed and traced once. */
  ghost predicate Gathered(g: Grid, mapparts: map<Loc, Part>, partcount: nat,
                           polys: seq<seq<seq<Point>>>, starts: seq<seq<Edge>>)
    requires g.Valid()
  {
    && |polys| == |starts| == partcount
    && AllBoundary(g, starts)
    && TracedOnce(g, starts)
    && OutlinesOf(g, polys, starts)
    && AllDrawnFrom(g, mapparts, polys, starts)
    && FiledByPart(g, mapparts, starts)
  }

  /** A whole outline that is new is added to the part of the block on the left of its first edge. */
  lemma AddOutline(g: Grid, mapparts: map<Loc, Part>, partcount: nat, polys: seq<seq<seq<Point>>>,
                   starts: seq<seq<Edge>>, c: Loc, poly: seq<Point>, x: int, y: int, e: Edge)
    requires g.Valid() && Gathered(g, mapparts, partcount, polys, starts)
    requires g.Boundary(e) && g.Inside(e.at) && c == WallLeft(g, e) && !Collected(g, starts, e)
    requires g.Wrap(x, y) == e.at && Draws(poly, x, y, Orbit(g, e)) && StartsRight(g, e)
    requires c in mapparts && mapparts[c].num < partcount
    requires x == mapparts[c].x + CornerX(e.dir) && y == mapparts[c].y + CornerY(e.dir)
    ensures var k := mapparts[c].num;
            var after := AddStart(starts, k, e);
            && Gathered(g, mapparts, partcount, polys[k := polys[k] + [poly]], after)
            && (forall f :: Collected(g, after, f) <==> Collected(g, starts, f) || f in Orbit(g, e))
  {
    hide Grid.Boundary, Grid.Valid, Orbit, TracedOnce, AllBoundary, OutlinesOf, FiledByPart, Draws, Collected;
    hide AllDrawnFrom, StartsRight;
    AddCollected(g, starts, mapparts[c].num, e);
    Drawn(g, poly, x, y, e);
    DrawnStart(g, poly, x, y, e);
    AddDrawn(g, mapparts, polys, starts, mapparts[c].num, poly, e);
    FileOutline(g, mapparts, polys, starts, c, poly, e);
  }

  lemma DrawnStart(g: Grid, poly: seq<Point>, x: int, y: int, e: Edge)
    requires g.Valid() && g.Boundary(e) && Draws(poly, x, y, Orbit(g, e))
    ensures poly != [] && poly[0] == Point(x, y, e.dir)
  {
    hide Grid.Boundary, Extend, Step;
    OutlineStart(g, e);
    assert Orbit(g, e)[..0] == [];
  }

  lemma OutlineStart(g: Grid, e: Edge)
    requires g.Valid() && g.Boundary(e)
    ensures Orbit(g, e) != [] && Orbit(g, e)[0] == e
  {
  }

  lemma Gather(g: Grid, mapparts: map<Loc, Part>, partcount: nat, polys: seq<seq<seq<Point>>>,
               starts: seq<seq<Edge>>, c: Loc, poly: seq<Point>, x: int, y: int, e: Edge)
    requires g.Valid() && Gathered(g, mapparts, partcount, polys, starts)
    requires g.Inside(c) && g.Boundary(e) && Marks(g, e, c) && !MarkedStarts(g, starts, c)
    requires g.Wrap(x, y) == e.at && Draws(poly, x, y, Orbit(g, e))
    requires c in mapparts && mapparts[c].num < partcount && StartsRight(g, e)
    requires x == mapparts[c].x + CornerX(e.dir) && y == mapparts[c].y + CornerY(e.dir)
    ensures var k := mapparts[c].num;
            var after := AddStart(starts, k, e);
            && Gathered(g, mapparts, partcount, polys[k := polys[k] + [poly]], after)
            && Scanned(g, after, c)
            && (forall b | Scanned(g, starts, b) :: Scanned(g, after, b))
            && (forall b :: MarkedStarts(g, after, b) <==> MarkedStarts(g, starts, b) || MarkedBy(g, Orbit(g, e), b))
  {
    InsideEdge(g, e);
    MarksLeft(g, e, c);
    hide Grid.Boundary, Grid.Valid, Orbit, Marks, TracedOnce, AllBoundary, Scanned, MarkedBy, Collected;
    hide OutlinesOf, AllDrawnFrom, FiledByPart, Draws, WallLeft, StartsRight;
    StartMeansScanned(g, starts, mapparts[c].num, c, e);
    assert !Collected(g, starts, e);
    AddOutline(g, mapparts, partcount, polys, starts, c, poly, x, y, e);
  }

  lemma InsideEdge(g: Grid, e: Edge)
    requires g.Valid() && g.Boundary(e)
    ensures g.Inside(e.at)
  {
  }

  /** All traces started so far set out in one of these directions. */
  ghost predicate StartsIn(starts: seq<seq<Edge>>, dirs: set<int>) {
    forall k, i | 0 <= k < |starts| && 0 <= i < |starts[k]| :: starts[k][i].dir in dirs
  }

  lemma AddStartsIn(starts: seq<seq<Edge>>, dirs: set<int>, k: nat, e: Edge)
    requires StartsIn(starts, dirs) && k < |starts|
    ensures StartsIn(AddStart(starts, k, e), dirs + {e.dir})
  {
    var after: seq<seq<Edge>> := AddStart(starts, k, e);
    forall m: int, i: int | 0 <= m < |after| && 0 <= i < |after[m]|
      ensures after[m][i].dir in dirs + {e.dir as int}
    {
      if m != k || i != |starts[k]| {
        assert after[m][i] == starts[m][i];
      }
    }
  }

  function EdgeOf(g: Grid, p: Point): Edge
    requires g.Valid()
  {
    Edge(g.Wrap(p.x, p.y), p.dir)
  }

  /** Some polygon draws the edge. */
  ghost predicate IsDrawn(g: Grid, polys: seq<seq<seq<Point>>>, e: Edge)
    requires g.Valid()
  {
    exists k, i, j :: 0 <= k < |polys| && 0 <= i < |polys[k]| && 0 <= j < |polys[k][i]| &&
      EdgeOf(g, polys[k][i][j]) == e
  }

  /** No edge of the map is drawn twice, by one polygon or by two. */
  ghost predicate DrawnOnce(g: Grid, polys: seq<seq<seq<Point>>>)
    requires g.Valid()
  {
    forall k, i, j, m, h, l |
      0 <= k < |polys| && 0 <= i < |polys[k]| && 0 <= j < |polys[k][i]| &&
      0 <= m < |polys| && 0 <= h < |polys[m]| && 0 <= l < |polys[m][h]| ::
      EdgeOf(g, polys[k][i][j]) == EdgeOf(g, polys[m][h][l]) ==> k == m && i == h && j == l
  }

  lemma PointIsEdge(g: Grid, poly: seq<Point>, e: Edge, j: nat)
    requires g.Valid() && g.Boundary(e) && OutlineOf(g, poly, e) && j < |poly|
    ensures |poly| == |Orbit(g, e)| && EdgeOf(g, poly[j]) == Orbit(g, e)[j]
  {
    hide Extend, Displacement, Grid.Boundary, Grid.Wrap, Grid.Valid;
    PathPlace(g, poly[0].x, poly[0].y, Orbit(g, e), j);
  }

  lemma OrbitDistinct(g: Grid, e: Edge, i: nat, j: nat)
    requires g.Valid() && g.Boundary(e) && i < |Orbit(g, e)| && j < |Orbit(g, e)|
    ensures Orbit(g, e)[i] == Orbit(g, e)[j] ==> i == j
  {
    hide Extend, Grid.Boundary;
  }

  lemma AllDrawnOnce(g: Grid, polys: seq<seq<seq<Point>>>, starts: seq<seq<Edge>>)
    requires g.Valid() && AllBoundary(g, starts) && TracedOnce(g, starts) && OutlinesOf(g, polys, starts)
    ensures DrawnOnce(g, polys)
  {
    hide Orbit, OutlineOf, Grid.Boundary, Grid.Valid, TracedOnce, EdgeOf;
    forall k, i, j, m, h, l |
      0 <= k < |polys| && 0 <= i < |polys[k]| && 0 <= j < |polys[k][i]| &&
      0 <= m < |polys| && 0 <= h < |polys[m]| && 0 <= l < |polys[m][h]| &&
      EdgeOf(g, polys[k][i][j]) == EdgeOf(g, polys[m][h][l])
      ensures k == m && i == h && j == l
    {
      PointIsEdge(g, polys[k][i], starts[k][i], j);
      PointIsEdge(g, polys[m][h], starts[m][h], l);
      OncePerEdge(g, starts, k, i, m, h, EdgeOf(g, polys[k][i][j]));
      OrbitDistinct(g, starts[k][i], j, l);
    }
  }

  lemma CollectedDrawn(g: Grid, polys: seq<seq<seq<Point>>>, starts: seq<seq<Edge>>, e: Edge)
    requires g.Valid() && AllBoundary(g, starts) && OutlinesOf(g, polys, starts)
    ensures IsDrawn(g, polys, e) <==> Collected(g, starts, e)
  {
    hide Orbit, OutlineOf, Grid.Boundary, Grid.Valid, EdgeOf;
    if Collected(g, starts, e) {
      var k, i :| 0 <= k < |starts| && 0 <= i < |starts[k]| && e in Orbit(g, starts[k][i]);
      var j :| 0 <= j < |Orbit(g, starts[k][i])| && Orbit(g, starts[k][i])[j] == e;
      HasPoints(g, polys[k][i], starts[k][i]);
      PointIsEdge(g, polys[k][i], starts[k][i], j);
    }
    if IsDrawn(g, polys, e) {
      var k, i, j :| 0 <= k < |polys| && 0 <= i < |polys[k]| && 0 <= j < |polys[k][i]| &&
                     EdgeOf(g, polys[k][i][j]) == e;
      PointIsEdge(g, polys[k][i], starts[k][i], j);
    }
  }

  lemma HasPoints(g: Grid, poly: seq<Point>, e: Edge)
    requires g.Valid() && g.Boundary(e) && OutlineOf(g, poly, e)
    ensures |poly| == |Orbit(g, e)|
  {
    hide Orbit;
  }

  const SIDES: set<int> := {1, 3, 5, 6, 7}

  /** The scan of the whole map: every left side and every slanted side of a
      wall ends up on exactly one of the polygons. */
  method ScanSides(g: Grid, mapparts: map<Loc, Part>, partcount: nat, done: array2<int>)
    returns (partpolys: seq<seq<seq<Point>>>, ghost starts: seq<seq<Edge>>)
    requires g.Valid() && PartsFit(g, mapparts, partcount)
    requires done.Length0 == g.height && done.Length1 == g.width
    requires forall y, x | 0 <= y < g.height && 0 <= x < g.width :: done[y, x] == 0
    modifies done
    ensures Gathered(g, mapparts, partcount, partpolys, starts) && StartsIn(starts, SIDES)
    ensures forall e | g.Boundary(e) && Sought(e) :: Collected(g, starts, e)
    ensures forall y, x | 0 <= y < g.height && 0 <= x < g.width :: done[y, x] != -1
  {
    hide Grid.NoEdge, Grid.Boundary, Grid.Valid, Grid.Wrap, Grid.Move, Orbit, Marks, Collected, TracedOnce, Draws;
    hide AllBoundary, Scanned, MarkedStarts, MarkedBy, OutlinesOf, OutlineOf, FiledByPart, StartFor, Wall, AddStart;
    hide StartsIn, MarkAfter, AllDrawnFrom, StartsRight;
    partpolys := seq(partcount, _ => []);
    starts := seq(partcount, _ => []);
    ScanBegins(g, mapparts, partcount);
    for y := 0 to g.height
      invariant Gathered(g, mapparts, partcount, partpolys, starts) && StartsIn(starts, SIDES)
      invariant forall c | g.Inside(c) :: done[c.y, c.x] == if MarkedStarts(g, starts, c) then 1 else 0
      invariant forall c | g.Inside(c) && c.y < y :: Scanned(g, starts, c)
    {
      for x := 0 to g.width
        invariant Gathered(g, mapparts, partcount, partpolys, starts) && StartsIn(starts, SIDES)
        invariant forall c | g.Inside(c) :: done[c.y, c.x] == if MarkedStarts(g, starts, c) then 1 else 0
        invariant forall c | g.Inside(c) && (c.y < y || (c.y == y && c.x < x)) :: Scanned(g, starts, c)
      {
        var c := Loc(x, y);
        if done[y, x] != 0 {
          MarkedMeansScanned(g, starts, c);
          continue;
        }
        var start := StartFor(g.At(c), g.At(g.Move(c, 4)));
        if start.NoStart? {
          NoStartMeansScanned(g, starts, c);
          continue;
        }
        StartIsWall(g, c);
        var sl := mapparts[c];
        StartEdge(g, c, sl.x, sl.y);
        ghost var e := Edge(g.Wrap(sl.x + start.dx, sl.y + start.dy), start.dir);
        var result, path := TracePoly(g, done, sl.x + start.dx, sl.y + start.dy, start.dir, AnyDir);
        NothingForbidden(g, e);
        StartIsRight(g, c, sl.x, sl.y);
        MarksOfOutline(g, Orbit(g, e));
        Gather(g, mapparts, partcount, partpolys, starts, c, result.points, sl.x + start.dx, sl.y + start.dy, e);
        SideStart(g, starts, sl.num, c, e);
        partpolys := partpolys[sl.num := partpolys[sl.num] + [result.points]];
        starts := AddStart(starts, sl.num, e);
      }
    }
    AllScanned(g, starts);
    forall y, x | 0 <= y < g.height && 0 <= x < g.width
      ensures done[y, x] != -1
    {
      assert g.Inside(Loc(x, y));
    }
  }

  lemma StartIsRight(g: Grid, c: Loc, x: int, y: int)
    requires g.Valid() && g.Inside(c) && StartFor(g.At(c), g.At(g.Move(c, 4))).Start? && g.Wrap(x, y) == c
    ensures var s := StartFor(g.At(c), g.At(g.Move(c, 4)));
            var e := Edge(g.Wrap(x + s.dx, y + s.dy), s.dir);
            g.Boundary(e) && StartsRight(g, e) && s.dx == CornerX(s.dir) && s.dy == CornerY(s.dir)
  {
    StartEdge(g, c, x, y);
    var s := StartFor(g.At(c), g.At(g.Move(c, 4)));
    var e := Edge(g.Wrap(x + s.dx, y + s.dy), s.dir);
    InsideEdge(g, e);
    MarksLeft(g, e, c);
    hide Grid.Boundary, Grid.Wrap, Grid.Move, Orbit, Marks, WallLeft, Grid.At;
  }

  lemma NothingForbidden(g: Grid, e: Edge)
    ensures forall d: Dir :: AnyDir.Allows(d)
  {
  }

  lemma MarksOfOutline(g: Grid, path: seq<Edge>)
    requires g.Valid()
    ensures forall c, was :: MarkAfter(g, AnyDir, path, c, was) == if MarkedBy(g, path, c) then 1 else was
  {
    forall c, was
      ensures MarkAfter(g, AnyDir, path, c, was) == if MarkedBy(g, path, c) then 1 else was
    {
      MarksAnyDir(g, path, c, was);
    }
  }

  lemma SideStart(g: Grid, starts: seq<seq<Edge>>, k: nat, c: Loc, e: Edge)
    requires g.Valid() && StartsIn(starts, SIDES) && k < |starts| && Marks(g, e, c)
    ensures StartsIn(AddStart(starts, k, e), SIDES)
  {
    AddStartsIn(starts, SIDES, k, e);
    assert SIDES + {e.dir as int} == SIDES;
  }
}
