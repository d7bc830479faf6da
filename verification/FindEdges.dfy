/** All outlines of a map (poly_findedges of mapconvert.py): after the scan for sides, two
    passes find the outlines that wind around the map, and every edge is drawn once. */
module FindEdges {
  import opened Arithmetic
  import opened BlockMap
  import opened Outline
  import opened Tracing
  import opened SideScan
  import opened FlatOutlines

  // -------------------------------------------------------- outlines and starts

  lemma SameOutline(g: Grid, e: Edge, f: Edge)
    requires g.Valid() && g.Boundary(e) && f in Orbit(g, e)
    ensures g.Boundary(f) && forall a :: a in Orbit(g, f) <==> a in Orbit(g, e)
  {
    hide Step, Grid.Boundary, Grid.Valid, Extend;
    InTrace(g, e, f);
    OrbitHasStart(g, f);
    OrbitsMeet(g, f, e, f);
  }

  lemma InTrace(g: Grid, e: Edge, f: Edge)
    requires g.Valid() && g.Boundary(e) && f in Orbit(g, e)
    ensures g.Boundary(f)
  {
  }

  lemma CollectedTogether(g: Grid, starts: seq<seq<Edge>>, e: Edge, f: Edge)
    requires g.Valid() && AllBoundary(g, starts) && g.Boundary(e) && f in Orbit(g, e)
    ensures Collected(g, starts, f) <==> Collected(g, starts, e)
  {
    hide Step, Grid.Boundary, Grid.Valid, Orbit;
    SameOutline(g, e, f);
    OrbitHasStart(g, e);
    if Collected(g, starts, f) {
      var k, i :| 0 <= k < |starts| && 0 <= i < |starts[k]| && f in Orbit(g, starts[k][i]);
      SameOutline(g, starts[k][i], f);
    }
    if Collected(g, starts, e) {
      var k, i :| 0 <= k < |starts| && 0 <= i < |starts[k]| && e in Orbit(g, starts[k][i]);
      SameOutline(g, starts[k][i], e);
    }
  }

  /** An outline that has been collected holds the start of a trace. */
  lemma StartOnOutline(g: Grid, starts: seq<seq<Edge>>, e: Edge) returns (k: nat, i: nat)
    requires g.Valid() && AllBoundary(g, starts) && g.Boundary(e) && Collected(g, starts, e)
    ensures k < |starts| && i < |starts[k]| && starts[k][i] in Orbit(g, e)
  {
    hide Step, Grid.Boundary, Grid.Valid, Orbit;
    k, i :| 0 <= k < |starts| && 0 <= i < |starts[k]| && e in Orbit(g, starts[k][i]);
    SameOutline(g, starts[k][i], e);
    OrbitHasStart(g, starts[k][i]);
  }

  /** The outline through edge e is flat. */
  ghost predicate FlatOutline(g: Grid, e: Edge)
    requires g.Valid()
  {
    g.Boundary(e) && Flat(Orbit(g, e))
  }

  lemma FlatTogether(g: Grid, e: Edge, f: Edge)
    requires g.Valid() && g.Boundary(e) && f in Orbit(g, e)
    ensures FlatOutline(g, f) <==> FlatOutline(g, e)
  {
    hide Step, Grid.Boundary, Grid.Valid, Orbit;
    SameOutline(g, e, f);
    var p, q := Orbit(g, e), Orbit(g, f);
    assert Flat(p) <==> forall a :: a in p ==> a.dir == 0 || a.dir == 2 || a.dir == 4;
    assert Flat(q) <==> forall a :: a in q ==> a.dir == 0 || a.dir == 2 || a.dir == 4;
  }

  lemma FlatNotYet(g: Grid, starts: seq<seq<Edge>>, e: Edge)
    requires g.Valid() && AllBoundary(g, starts) && StartsIn(starts, SIDES) && FlatOutline(g, e)
    ensures !Collected(g, starts, e)
  {
    hide Step, Grid.Boundary, Grid.Valid, Orbit, Collected;
    if Collected(g, starts, e) {
      var k, i := StartOnOutline(g, starts, e);
    }
  }

  // -------------------------------------------------------------- the top row

  /** The edge that goes up to the map's top edge, on the left of block (x, 0). */
  function TopEdge(g: Grid, x: int): Edge
    requires g.Valid()
  {
    Edge(g.Wrap(x, 1), 2)
  }

  lemma TopEdgeSides(g: Grid, x: nat)
    requires g.Valid() && x < g.width
    ensures g.Inside(TopEdge(g, x).at) && g.Inside(Loc(x, 0))
    ensures WallLeft(g, TopEdge(g, x)) == g.Move(Loc(x, 0), 4)
    ensures Filled(g.At(g.Move(Loc(x, 0), 4))) ==>
              (g.Boundary(TopEdge(g, x)) <==> !LeftSide(g.At(Loc(x, 0))))
  {
    UpOnto(g, x);
    UpLeft(g, x);
    hide Grid.Move, Grid.Wrap, Grid.At;
  }

  lemma UpOnto(g: Grid, x: nat)
    requires g.Valid() && x < g.width
    ensures g.Move(g.Wrap(x, 1), 2) == Loc(x, 0) && g.Inside(Loc(x, 0))
  {
    WrapInside(g, Loc(x, 0));
    AddMod(x, 0, g.width);
    AddMod(1, -1, g.height);
  }

  lemma UpLeft(g: Grid, x: nat)
    requires g.Valid() && x < g.width
    ensures g.Move(g.Wrap(x, 1), 3) == g.Move(Loc(x, 0), 4)
  {
    AddMod(x, -1, g.width);
    AddMod(1, -1, g.height);
  }

  /** Only this edge marks block (x, 0) from its left. */
  lemma MarksTop(g: Grid, okdir: OkDir, e: Edge, x: nat)
    requires g.Valid() && x < g.width && okdir.Only? && g.Inside(e.at)
    ensures MarksRight(g, okdir, e, Loc(x, 0)) <==> e == TopEdge(g, x)
  {
    UpOnto(g, x);
    if e.dir == 2 && g.Move(e.at, 2) == Loc(x, 0) {
      MoveBack(g, e.at, 2);
      DownFrom(g, x);
    }
  }

  lemma DownFrom(g: Grid, x: nat)
    requires g.Valid() && x < g.width
    ensures g.Move(Loc(x, 0), 6) == g.Wrap(x, 1)
  {
  }

  /** Edge e that reaches corner row 1 going up is one of those. */
  lemma IsTopEdge(g: Grid, e: Edge) returns (x: nat)
    requires g.Valid() && g.Inside(e.at) && e.dir == 2 && e.at.y == 1 % g.height
    ensures x < g.width && e == TopEdge(g, x)
  {
    x := e.at.x;
    WrapInside(g, Loc(x, 0));
  }

  /** Of the flat outlines through the top row, those marked are those collected. */
  ghost predicate TopMarked(g: Grid, starts: seq<seq<Edge>>, row: seq<int>)
    requires g.Valid() && AllBoundary(g, starts)
  {
    && |row| == g.width
    && forall x | 0 <= x < g.width && FlatOutline(g, TopEdge(g, x)) ::
         (row[x] == -1 <==> Collected(g, starts, TopEdge(g, x)))
  }

  ghost predicate TopCollected(g: Grid, starts: seq<seq<Edge>>, upto: int)
    requires g.Valid() && AllBoundary(g, starts)
  {
    forall x | 0 <= x < upto && x < g.width && FlatOutline(g, TopEdge(g, x)) :: Collected(g, starts, TopEdge(g, x))
  }

  const FLAT: OkDir := Only([0, 2, 4])

  /** The marks in the top row after a trace from top edge x. */
  ghost predicate TopAfter(g: Grid, was: seq<int>, now: seq<int>, x: nat, path: seq<Edge>)
    requires g.Valid()
  {
    && |was| == |now| == g.width
    && forall i | 0 <= i < g.width ::
         now[i] == MarkAfter(g, FLAT, path, Loc(i, 0), if i == x then -1 else was[i])
  }

  lemma TopMarks(g: Grid, was: seq<int>, now: seq<int>, x: nat, path: seq<Edge>)
    requires g.Valid() && x < g.width && TopAfter(g, was, now, x, path) && Flat(path)
    requires path != [] && path[0] == TopEdge(g, x) && forall e <- path :: g.Inside(e.at)
    requires forall i, j | 0 <= i < j < |path| :: path[i] != path[j]
    ensures forall i | 0 <= i < g.width :: now[i] == if TopEdge(g, i) in path then -1 else was[i]
  {
    hide Grid.Wrap, Grid.Valid;
    forall i: nat | i < g.width
      ensures now[i] == if TopEdge(g, i) in path then -1 else was[i]
    {
      MarksFlat(g, FLAT, path, Loc(i, 0), if i == x then -1 else was[i]);
      forall k | 0 < k < |path|
        ensures MarksRight(g, FLAT, path[k], Loc(i, 0)) <==> path[k] == TopEdge(g, i)
      {
        MarksTop(g, FLAT, path[k], i);
      }
      TopEdgesDiffer(g, i, x);
    }
  }

  lemma TopEdgesDiffer(g: Grid, i: nat, x: nat)
    requires g.Valid() && i < g.width && x < g.width
    ensures TopEdge(g, i) == TopEdge(g, x) ==> i == x
  {
  }

  lemma OutlineFacts(g: Grid, e: Edge)
    requires g.Valid() && g.Boundary(e)
    ensures var path := Orbit(g, e);
            && path != [] && path[0] == e
            && (forall f <- path :: g.Inside(f.at))
            && (forall i, j | 0 <= i < j < |path| :: path[i] != path[j])
  {
  }

  /** A flat outline has been traced from top edge x. */
  lemma TopTraced(g: Grid, starts: seq<seq<Edge>>, k: nat, was: seq<int>, now: seq<int>, x: nat)
    requires g.Valid() && AllBoundary(g, starts) && TopMarked(g, starts, was) && k < |starts|
    requires x < g.width && FlatOutline(g, TopEdge(g, x)) && AllBoundary(g, AddStart(starts, k, TopEdge(g, x)))
    requires TopAfter(g, was, now, x, Orbit(g, TopEdge(g, x)))
    requires forall f :: Collected(g, AddStart(starts, k, TopEdge(g, x)), f) <==>
                         Collected(g, starts, f) || f in Orbit(g, TopEdge(g, x))
    ensures TopMarked(g, AddStart(starts, k, TopEdge(g, x)), now)
  {
    hide Grid.Valid, Grid.Boundary, Orbit, Collected, TopEdge, AddStart, AllBoundary;
    var e := TopEdge(g, x);
    OutlineFacts(g, e);
    TopMarks(g, was, now, x, Orbit(g, e));
  }

  /** Tracing from top edge x has been given up. */
  lemma TopGivenUp(g: Grid, starts: seq<seq<Edge>>, was: seq<int>, now: seq<int>, x: nat, path: seq<Edge>)
    requires g.Valid() && AllBoundary(g, starts) && TopMarked(g, starts, was)
    requires x < g.width && g.Boundary(TopEdge(g, x)) && !FlatOutline(g, TopEdge(g, x))
    requires path != [] && path <= Orbit(g, TopEdge(g, x)) && Flat(path) && TopAfter(g, was, now, x, path)
    ensures TopMarked(g, starts, now)
  {
    hide Grid.Valid, Grid.Boundary, Orbit, Collected, TopEdge, FlatOutline, AllBoundary;
    var e := TopEdge(g, x);
    OutlineFacts(g, e);
    PrefixFacts(g, path, Orbit(g, e));
    TopMarks(g, was, now, x, path);
    forall i: nat | i < g.width && FlatOutline(g, TopEdge(g, i))
      ensures now[i] == was[i]
    {
      if TopEdge(g, i) in path {
        FlatTogether(g, e, TopEdge(g, i));
        assert false;
      }
    }
  }

  lemma PrefixFacts(g: Grid, path: seq<Edge>, orbit: seq<Edge>)
    requires path != [] && path <= orbit
    requires (forall f <- orbit :: g.Inside(f.at)) && (forall i, j | 0 <= i < j < |orbit| :: orbit[i] != orbit[j])
    ensures path[0] == orbit[0] && forall f <- path :: f in orbit && g.Inside(f.at)
    ensures forall i, j | 0 <= i < j < |path| :: path[i] != path[j]
  {
    assert forall i | 0 <= i < |path| :: path[i] == orbit[i];
  }

  /** A trace along allowed directions that does not leave them is flat. */
  lemma FlatTrace(g: Grid, path: seq<Edge>)
    requires path != [] && path[0].dir == 2 && forall i | 0 < i < |path| :: FLAT.Allows(path[i].dir)
    ensures Flat(path)
  {
  }

  lemma NotFlat(g: Grid, e: Edge, n: nat)
    requires g.Valid() && g.Boundary(e) && n < |Orbit(g, e)| && !FLAT.Allows(Orbit(g, e)[n].dir)
    ensures !FlatOutline(g, e)
  {
    hide Orbit;
  }

  /** What holds between the tracing of one top edge and the next. */
  ghost predicate TopScan(g: Grid, mapparts: map<Loc, Part>, partcount: nat, polys: seq<seq<seq<Point>>>,
                          starts: seq<seq<Edge>>, row: seq<int>, x: int)
    requires g.Valid()
  {
    && Gathered(g, mapparts, partcount, polys, starts)
    && StartsIn(starts, SIDES + {2})
    && TopMarked(g, starts, row)
    && TopCollected(g, starts, x)
  }

  lemma TopBegins(g: Grid, mapparts: map<Loc, Part>, partcount: nat, polys: seq<seq<seq<Point>>>,
                  starts: seq<seq<Edge>>, row: seq<int>)
    requires g.Valid() && Gathered(g, mapparts, partcount, polys, starts) && StartsIn(starts, SIDES)
    requires |row| == g.width && forall i | 0 <= i < |row| :: row[i] != -1
    ensures TopScan(g, mapparts, partcount, polys, starts, row, 0)
  {
    hide Grid.Valid, Orbit, Collected, TopEdge, FlatOutline, OutlinesOf, AllDrawnFrom, TracedOnce, FiledByPart;
    forall i | 0 <= i < g.width && FlatOutline(g, TopEdge(g, i))
      ensures !Collected(g, starts, TopEdge(g, i))
    {
      FlatNotYet(g, starts, TopEdge(g, i));
    }
  }

  /** Nothing is to be done at top edge x: it is no edge, not flat, or collected already. */
  lemma TopSkips(g: Grid, mapparts: map<Loc, Part>, partcount: nat, polys: seq<seq<seq<Point>>>,
                 starts: seq<seq<Edge>>, row: seq<int>, x: nat)
    requires g.Valid() && TopScan(g, mapparts, partcount, polys, starts, row, x) && x < g.width
    requires LeftSide(g.At(Loc(x, 0))) || !Filled(g.At(g.Move(Loc(x, 0), 4))) || row[x] == -1
    ensures TopScan(g, mapparts, partcount, polys, starts, row, x + 1)
  {
    TopEdgeSides(g, x);
    hide Grid.Valid, Grid.Boundary, Grid.At, Orbit, Collected, TopEdge, WallLeft, Grid.Move, Loop;
    hide OutlinesOf, AllDrawnFrom, TracedOnce, FiledByPart, AllBoundary;
    if FlatOutline(g, TopEdge(g, x)) {
      FullOnLeft(g, TopEdge(g, x));
    }
  }

  lemma FullOnLeft(g: Grid, e: Edge)
    requires g.Valid() && FlatOutline(g, e) && g.Inside(e.at)
    ensures Filled(g.At(WallLeft(g, e)))
  {
    FlatIsFilled(g, Orbit(g, e), 0);
  }

  /** Where the trace of top edge x starts. */
  lemma TopStart(g: Grid, mapparts: map<Loc, Part>, partcount: nat, x: nat)
    requires g.Valid() && PartsFit(g, mapparts, partcount) && x < g.width
    requires !LeftSide(g.At(Loc(x, 0))) && Filled(g.At(g.Move(Loc(x, 0), 4)))
    ensures var c := WallLeft(g, TopEdge(g, x));
            && c == g.Move(Loc(x, 0), 4) && c in mapparts && mapparts[c].num < partcount
            && g.Wrap(mapparts[c].x + 1, mapparts[c].y + 1) == TopEdge(g, x).at
            && g.Boundary(TopEdge(g, x))
  {
    TopEdgeSides(g, x);
    var c := g.Move(Loc(x, 0), 4);
    Diagonal(g, mapparts[c].x, mapparts[c].y, 1, 1);
    Diagonal(g, x - 1, 0, 1, 1);
  }

  lemma Diagonal(g: Grid, x: int, y: int, dx: int, dy: int)
    requires g.Valid()
    ensures g.Wrap(x + dx, y + dy) == Loc((x % g.width + dx) % g.width, (y % g.height + dy) % g.height)
    ensures g.Wrap(x, y) == Loc(x % g.width, y % g.height)
  {
    AddMod(x, dx, g.width);
    AddMod(y, dy, g.height);
  }

  function Row(done: array2<int>): (row: seq<int>)
    requires done.Length0 > 0
    reads done
    ensures |row| == done.Length1 && forall x | 0 <= x < |row| :: row[x] == done[0, x]
  {
    seq(done.Length1, x requires 0 <= x < done.Length1 reads done => done[0, x])
  }

  /** The pass over the top row. */
  method ScanTop(g: Grid, mapparts: map<Loc, Part>, partcount: nat, done: array2<int>,
                 polys0: seq<seq<seq<Point>>>, ghost starts0: seq<seq<Edge>>)
    returns (partpolys: seq<seq<seq<Point>>>, ghost starts: seq<seq<Edge>>)
    requires g.Valid() && PartsFit(g, mapparts, partcount)
    requires done.Length0 == g.height && done.Length1 == g.width
    requires Gathered(g, mapparts, partcount, polys0, starts0) && StartsIn(starts0, SIDES)
    requires forall y, x | 0 <= y < g.height && 0 <= x < g.width :: done[y, x] != -1
    modifies done
    ensures Gathered(g, mapparts, partcount, partpolys, starts) && StartsIn(starts, SIDES + {2})
    ensures TopCollected(g, starts, g.width)
    ensures forall f | Collected(g, starts0, f) :: Collected(g, starts, f)
  {
    hide Grid.NoEdge, Grid.Boundary, Grid.Valid, Grid.Wrap, Grid.Move, Orbit, Collected, TracedOnce, Draws;
    hide TopEdge, TopMarked, TopCollected, FlatOutline, OutlinesOf, FiledByPart, AddStart, StartsIn;
    hide MarkAfter, WallLeft;
    ValidSize(g);
    partpolys, starts := polys0, starts0;
    TopBegins(g, mapparts, partcount, partpolys, starts, Row(done));
    for x := 0 to g.width
      invariant TopScan(g, mapparts, partcount, partpolys, starts, Row(done), x)
      invariant forall f | Collected(g, starts0, f) :: Collected(g, starts, f)
    {
      var loc := Loc(x, 0);
      RowInside(g, x);
      var left := g.Move(loc, 4);
      ghost var was := Row(done);
      if LeftSide(g.At(loc)) || !Filled(g.At(left)) || done[0, x] == -1 {
        TopSkips(g, mapparts, partcount, partpolys, starts, was, x);
        continue;
      }
      partpolys, starts := TraceTop(g, mapparts, partcount, done, x, partpolys, starts);
    }
  }

  /** Marks block (x, 0) and traces the edge on its left. */
  method TraceTop(g: Grid, mapparts: map<Loc, Part>, partcount: nat, done: array2<int>, x: nat,
                  polys0: seq<seq<seq<Point>>>, ghost starts0: seq<seq<Edge>>)
    returns (partpolys: seq<seq<seq<Point>>>, ghost starts: seq<seq<Edge>>)
    requires g.Valid() && PartsFit(g, mapparts, partcount) && x < g.width
    requires done.Length0 == g.height > 0 && done.Length1 == g.width
    requires !LeftSide(g.At(Loc(x, 0))) && Filled(g.At(g.Move(Loc(x, 0), 4))) && done[0, x] != -1
    requires TopScan(g, mapparts, partcount, polys0, starts0, Row(done), x)
    modifies done
    ensures TopScan(g, mapparts, partcount, partpolys, starts, Row(done), x + 1)
    ensures forall f | Collected(g, starts0, f) :: Collected(g, starts, f)
  {
    hide Grid.NoEdge, Grid.Boundary, Grid.Valid, Grid.Wrap, Grid.Move, Grid.At, Orbit, Collected, Draws;
    hide Gathered, TopEdge, TopMarked, TopCollected, FlatOutline, AddStart, StartsIn, MarkAfter, WallLeft, TopAfter;
    hide LeftSide, Filled, OkDir.Allows;
    TopWell(g, mapparts, partcount, polys0, starts0, Row(done), x);
    partpolys, starts := polys0, starts0;
    ghost var was := Row(done);
    done[0, x] := -1;
    TopStart(g, mapparts, partcount, x);
    var sl := mapparts[g.Move(Loc(x, 0), 4)];
    ghost var e := TopEdge(g, x);
    IsUp(g, x);
    var result, path := TracePoly(g, done, sl.x + 1, sl.y + 1, 2, FLAT);
    RowMarks(g, was, Row(done), x, path);
    FlatTrace(g, path);
    if result.Poly? {
      TopFound(g, mapparts, partcount, partpolys, starts, was, Row(done), x, sl, result.points);
      partpolys := partpolys[sl.num := partpolys[sl.num] + [result.points]];
      starts := AddStart(starts, sl.num, e);
    } else {
      NotFlat(g, e, |path|);
      TopNotFound(g, mapparts, partcount, partpolys, starts, was, Row(done), x, path);
    }
  }

  lemma TopWell(g: Grid, mapparts: map<Loc, Part>, partcount: nat, polys: seq<seq<seq<Point>>>,
                starts: seq<seq<Edge>>, row: seq<int>, x: nat)
    requires g.Valid() && TopScan(g, mapparts, partcount, polys, starts, row, x)
    ensures |polys| == |starts| == partcount && AllBoundary(g, starts) && g.height > 0
    ensures forall i: nat | i < g.width :: g.Inside(Loc(i, 0))
  {
    hide Orbit, Collected, Grid.Boundary;
  }

  lemma RowInside(g: Grid, x: nat)
    requires g.Valid() && x < g.width
    ensures g.Inside(Loc(x, 0)) && g.Inside(g.Move(Loc(x, 0), 4))
  {
  }

  lemma IsUp(g: Grid, x: nat)
    requires g.Valid()
    ensures TopEdge(g, x).dir == 2
  {
  }

  lemma RowMarks(g: Grid, was: seq<int>, now: seq<int>, x: nat, path: seq<Edge>)
    requires g.Valid() && |was| == |now| == g.width && x < g.width
    requires forall i | 0 <= i < g.width ::
               now[i] == MarkAfter(g, FLAT, path, Loc(i, 0), if i == x then -1 else was[i])
    ensures TopAfter(g, was, now, x, path)
  {
  }

  lemma TopFound(g: Grid, mapparts: map<Loc, Part>, partcount: nat, polys: seq<seq<seq<Point>>>,
                 starts: seq<seq<Edge>>, was: seq<int>, now: seq<int>, x: nat, sl: Part, poly: seq<Point>)
    requires g.Valid() && TopScan(g, mapparts, partcount, polys, starts, was, x) && x < g.width
    requires g.Boundary(TopEdge(g, x)) && g.Inside(TopEdge(g, x).at) && was[x] != -1
    requires var c := WallLeft(g, TopEdge(g, x)); c in mapparts && mapparts[c] == sl && sl.num < partcount
    requires g.Wrap(sl.x + 1, sl.y + 1) == TopEdge(g, x).at
    requires var path := Orbit(g, TopEdge(g, x));
             Draws(poly, sl.x + 1, sl.y + 1, path) && Flat(path) && TopAfter(g, was, now, x, path)
    ensures var after := AddStart(starts, sl.num, TopEdge(g, x));
            && TopScan(g, mapparts, partcount, polys[sl.num := polys[sl.num] + [poly]], after, now, x + 1)
            && forall f | Collected(g, starts, f) :: Collected(g, after, f)
  {
    hide Grid.Valid, Grid.Boundary, Grid.Wrap, Orbit, Collected, WallLeft, TopAfter, Draws;
    hide OutlinesOf, AllDrawnFrom, TracedOnce, FiledByPart, AddStart, StartsIn, AllBoundary, TopEdge;
    var e := TopEdge(g, x);
    assert !Collected(g, starts, e);
    IsUp(g, x);
    FlatStart(g, e);
    AddOutline(g, mapparts, partcount, polys, starts, WallLeft(g, e), poly, sl.x + 1, sl.y + 1, e);
    TopTraced(g, starts, sl.num, was, now, x);
    UpStart(starts, sl.num, e);
    OrbitHasStart(g, e);
  }

  lemma FlatStart(g: Grid, e: Edge)
    requires g.Valid() && g.Boundary(e) && Flat(Orbit(g, e))
    ensures StartsRight(g, e)
  {
    OutlineFacts(g, e);
    hide Grid.Boundary, Grid.Valid, Orbit, WallLeft, Grid.Move, Grid.At;
  }

  lemma UpStart(starts: seq<seq<Edge>>, k: nat, e: Edge)
    requires StartsIn(starts, SIDES + {2}) && k < |starts| && e.dir == 2
    ensures StartsIn(AddStart(starts, k, e), SIDES + {2})
  {
    AddStartsIn(starts, SIDES + {2}, k, e);
    assert SIDES + {2} + {e.dir as int} == SIDES + {2};
  }

  lemma TopNotFound(g: Grid, mapparts: map<Loc, Part>, partcount: nat, polys: seq<seq<seq<Point>>>,
                    starts: seq<seq<Edge>>, was: seq<int>, now: seq<int>, x: nat, path: seq<Edge>)
    requires g.Valid() && TopScan(g, mapparts, partcount, polys, starts, was, x) && x < g.width
    requires g.Boundary(TopEdge(g, x)) && !FlatOutline(g, TopEdge(g, x))
    requires path != [] && path <= Orbit(g, TopEdge(g, x)) && Flat(path) && TopAfter(g, was, now, x, path)
    ensures TopScan(g, mapparts, partcount, polys, starts, now, x + 1)
  {
    hide Grid.Valid, Grid.Boundary, Orbit, Collected, TopAfter, OutlinesOf, AllDrawnFrom, TracedOnce;
    hide FiledByPart, StartsIn;
    hide AllBoundary, FlatOutline, TopEdge;
    TopGivenUp(g, starts, was, now, x, path);
  }

  // ---------------------------------------------------------- the left column

  /** The edge along the top (direction 4) or the bottom (direction 0) of block (0, y). */
  function ColumnEdge(g: Grid, d: Dir, y: int): Edge
    requires g.Valid()
  {
    if d == 4 then Edge(g.Wrap(1, y), 4) else Edge(g.Wrap(0, y + 1), 0)
  }

  /** The neighbour that must not have wall along that edge. */
  predicate OpenBeside(g: Grid, d: Dir, y: nat)
    requires g.Valid() && y < g.height
  {
    if d == 4 then !BottomSide(g.At(g.Move(Loc(0, y), 2))) else !TopSide(g.At(g.Move(Loc(0, y), 6)))
  }

  lemma ColumnEdgeSides(g: Grid, d: Dir, y: nat)
    requires g.Valid() && y < g.height && (d == 0 || d == 4)
    ensures var e := ColumnEdge(g, d, y);
            && e.dir == d && g.Inside(e.at) && g.Inside(Loc(0, y)) && WallLeft(g, e) == Loc(0, y)
            && (Filled(g.At(Loc(0, y))) ==> (g.Boundary(e) <==> OpenBeside(g, d, y)))
  {
    Around(g, y);
    hide Grid.Move, Grid.Wrap, Grid.At;
  }

  lemma Around(g: Grid, y: nat)
    requires g.Valid() && y < g.height
    ensures g.Inside(Loc(0, y)) && g.Inside(g.Wrap(1, y)) && g.Inside(g.Wrap(0, y + 1))
    ensures g.Move(g.Wrap(1, y), 4) == Loc(0, y) && g.Move(g.Wrap(1, y), 3) == g.Move(Loc(0, y), 2)
    ensures g.Move(g.Wrap(0, y + 1), 2) == Loc(0, y) && g.Move(Loc(0, y), 6) == g.Wrap(0, y + 1)
  {
    WrapInside(g, Loc(0, y));
    Diagonal(g, 1, y, -1, 0);
    Diagonal(g, 1, y, -1, -1);
    Diagonal(g, 0, y + 1, 0, -1);
  }

  ghost predicate StraightOutline(g: Grid, e: Edge, d: Dir)
    requires g.Valid()
  {
    g.Boundary(e) && Straight(Orbit(g, e), d)
  }

  lemma StraightTogether(g: Grid, e: Edge, f: Edge, d: Dir)
    requires g.Valid() && StraightOutline(g, e, d) && f in Orbit(g, e)
    ensures StraightOutline(g, f, d)
  {
    hide Step, Grid.Boundary, Grid.Valid, Orbit;
    SameOutline(g, e, f);
    var p, q := Orbit(g, e), Orbit(g, f);
    assert forall a :: a in p ==> a.dir == d;
    assert forall i | 0 <= i < |q| :: q[i] in q;
  }

  /** The walls on the left of a straight outline lie in one row. */
  lemma OneRow(g: Grid, e: Edge, f: Edge, d: Dir)
    requires g.Valid() && StraightOutline(g, e, d) && f in Orbit(g, e) && (d == 0 || d == 4)
    ensures g.Inside(e.at) && g.Inside(f.at) && f.dir == d && WallLeft(g, f).y == WallLeft(g, e).y
  {
    hide Step, Grid.NoEdge, Extend;
    var path := Orbit(g, e);
    var i :| 0 <= i < |path| && path[i] == f;
    StaysInRow(g, path, d, i);
  }

  /** How far down the column tops and bottoms of blocks have been looked at. */
  datatype Ends = Ends(upper: nat, lower: nat) {
    function Of(d: Dir): nat {
      if d == 4 then upper else lower
    }

    function Next(d: Dir): Ends {
      if d == 4 then Ends(upper + 1, lower) else Ends(upper, lower + 1)
    }
  }

  /** Straight traces have been started in rows already looked at only. */
  ghost predicate StartedAbove(g: Grid, starts: seq<seq<Edge>>, ends: Ends)
    requires g.Valid() && AllBoundary(g, starts)
  {
    forall k, i | 0 <= k < |starts| && 0 <= i < |starts[k]| :: AboveEnd(g, starts[k][i], ends)
  }

  ghost predicate AboveEnd(g: Grid, s: Edge, ends: Ends)
    requires g.Valid() && g.Boundary(s)
  {
    s.dir == 0 || s.dir == 4 ==> WallLeft(g, s).y < ends.Of(s.dir)
  }

  ghost predicate ColumnCollected(g: Grid, starts: seq<seq<Edge>>, ends: Ends)
    requires g.Valid() && AllBoundary(g, starts)
  {
    forall d: Dir, y | (d == 0 || d == 4) && 0 <= y < ends.Of(d) && StraightOutline(g, ColumnEdge(g, d, y), d) ::
      Collected(g, starts, ColumnEdge(g, d, y))
  }

  ghost predicate ColumnScan(g: Grid, mapparts: map<Loc, Part>, partcount: nat, polys: seq<seq<seq<Point>>>,
                             starts: seq<seq<Edge>>, ends: Ends)
    requires g.Valid()
  {
    && Gathered(g, mapparts, partcount, polys, starts)
    && StartedAbove(g, starts, ends)
    && ColumnCollected(g, starts, ends)
  }

  lemma ColumnBegins(g: Grid, mapparts: map<Loc, Part>, partcount: nat, polys: seq<seq<seq<Point>>>,
                     starts: seq<seq<Edge>>)
    requires g.Valid() && Gathered(g, mapparts, partcount, polys, starts) && StartsIn(starts, SIDES + {2})
    ensures ColumnScan(g, mapparts, partcount, polys, starts, Ends(0, 0))
  {
    hide Orbit, Collected, Grid.Boundary, TracedOnce, OutlinesOf, AllDrawnFrom, FiledByPart, WallLeft;
    forall k, i | 0 <= k < |starts| && 0 <= i < |starts[k]|
      ensures starts[k][i].dir != 0 && starts[k][i].dir != 4
    {
      assert starts[k][i].dir in SIDES + {2};
    }
  }

  lemma ColumnSkips(g: Grid, mapparts: map<Loc, Part>, partcount: nat, polys: seq<seq<seq<Point>>>,
                    starts: seq<seq<Edge>>, ends: Ends, d: Dir, y: nat)
    requires g.Valid() && ColumnScan(g, mapparts, partcount, polys, starts, ends) && y < g.height
    requires (d == 0 || d == 4) && ends.Of(d) == y
    requires !StraightOutline(g, ColumnEdge(g, d, y), d)
    ensures ColumnScan(g, mapparts, partcount, polys, starts, ends.Next(d))
  {
    hide Orbit, Collected, Grid.Boundary, TracedOnce, OutlinesOf, AllDrawnFrom, FiledByPart, WallLeft;
    hide ColumnEdge, StraightOutline;
  }

  lemma NotStraight(g: Grid, d: Dir, y: nat)
    requires g.Valid() && y < g.height && (d == 0 || d == 4)
    requires !Filled(g.At(Loc(0, y))) || !OpenBeside(g, d, y)
    ensures !StraightOutline(g, ColumnEdge(g, d, y), d)
  {
    ColumnEdgeSides(g, d, y);
    hide Orbit, Grid.Boundary, WallLeft, ColumnEdge, OpenBeside;
    if StraightOutline(g, ColumnEdge(g, d, y), d) {
      FullOnLeft(g, ColumnEdge(g, d, y));
    }
  }

  lemma ColumnNew(g: Grid, starts: seq<seq<Edge>>, ends: Ends, d: Dir, y: nat)
    requires g.Valid() && AllBoundary(g, starts) && StartedAbove(g, starts, ends) && y < g.height
    requires (d == 0 || d == 4) && ends.Of(d) == y && StraightOutline(g, ColumnEdge(g, d, y), d)
    ensures !Collected(g, starts, ColumnEdge(g, d, y))
  {
    hide Orbit, Collected, Grid.Boundary, WallLeft, ColumnEdge, StraightOutline;
    var e := ColumnEdge(g, d, y);
    ColumnEdgeSides(g, d, y);
    StraightBoundary(g, e, d);
    if Collected(g, starts, e) {
      var k, i := StartOnOutline(g, starts, e);
      OneRow(g, e, starts[k][i], d);
    }
  }

  lemma StraightBoundary(g: Grid, e: Edge, d: Dir)
    requires g.Valid() && StraightOutline(g, e, d)
    ensures g.Boundary(e) && g.Inside(e.at)
  {
  }

  /** A straight outline has been traced from a column edge. */
  lemma ColumnFound(g: Grid, mapparts: map<Loc, Part>, partcount: nat, polys: seq<seq<seq<Point>>>,
                    starts: seq<seq<Edge>>, ends: Ends, d: Dir, y: nat, sl: Part, x0: int, y0: int, poly: seq<Point>)
    requires g.Valid() && ColumnScan(g, mapparts, partcount, polys, starts, ends) && y < g.height
    requires (d == 0 || d == 4) && ends.Of(d) == y && StraightOutline(g, ColumnEdge(g, d, y), d)
    requires Loc(0, y) in mapparts && mapparts[Loc(0, y)] == sl && sl.num < partcount
    requires x0 == sl.x + CornerX(d) && y0 == sl.y + CornerY(d)
    requires g.Wrap(x0, y0) == ColumnEdge(g, d, y).at && Draws(poly, x0, y0, Orbit(g, ColumnEdge(g, d, y)))
    ensures var after := AddStart(starts, sl.num, ColumnEdge(g, d, y));
            && ColumnScan(g, mapparts, partcount, polys[sl.num := polys[sl.num] + [poly]], after, ends.Next(d))
            && forall f | Collected(g, starts, f) :: Collected(g, after, f)
  {
    hide Grid.Valid, Grid.Boundary, Grid.Wrap, Orbit, Collected, WallLeft, Draws;
    hide OutlinesOf, AllDrawnFrom, TracedOnce, FiledByPart, AddStart, AllBoundary, ColumnEdge, StraightOutline;
    var e := ColumnEdge(g, d, y);
    ColumnEdgeSides(g, d, y);
    StraightBoundary(g, e, d);
    ColumnNew(g, starts, ends, d, y);
    StraightStart(g, e, d);
    AddOutline(g, mapparts, partcount, polys, starts, Loc(0, y), poly, x0, y0, e);
    OrbitHasStart(g, e);
    StartAdded(g, starts, ends, sl.num, e, d, y);
  }

  lemma StraightStart(g: Grid, e: Edge, d: Dir)
    requires g.Valid() && StraightOutline(g, e, d) && (d == 0 || d == 4)
    ensures g.Boundary(e) && StartsRight(g, e)
  {
    hide Orbit, Grid.Boundary;
    FlatStart(g, e);
  }

  lemma StartAdded(g: Grid, starts: seq<seq<Edge>>, ends: Ends, k: nat, e: Edge, d: Dir, y: nat)
    requires g.Valid() && AllBoundary(g, starts) && StartedAbove(g, starts, ends) && k < |starts| && g.Boundary(e)
    requires g.Inside(e.at) && e.dir == d && (d == 0 || d == 4) && ends.Of(d) == y && WallLeft(g, e).y == y
    requires AllBoundary(g, AddStart(starts, k, e))
    ensures StartedAbove(g, AddStart(starts, k, e), ends.Next(d))
  {
    hide Grid.Valid, Grid.Boundary, WallLeft;
    var after := AddStart(starts, k, e);
    forall m: int, i: int | 0 <= m < |after| && 0 <= i < |after[m]|
      ensures AboveEnd(g, after[m][i], ends.Next(d))
    {
      if m != k || i != |starts[k]| {
        assert after[m][i] == starts[m][i];
        assert AboveEnd(g, starts[m][i], ends);
      }
    }
  }

  /** Where the trace of a column edge starts. */
  lemma ColumnStart(g: Grid, mapparts: map<Loc, Part>, partcount: nat, d: Dir, y: nat)
    requires g.Valid() && PartsFit(g, mapparts, partcount) && y < g.height && (d == 0 || d == 4)
    requires Filled(g.At(Loc(0, y))) && OpenBeside(g, d, y)
    ensures var c := Loc(0, y);
            && c in mapparts && mapparts[c].num < partcount
            && g.Wrap(mapparts[c].x + (if d == 4 then 1 else 0), mapparts[c].y + (if d == 4 then 0 else 1))
               == ColumnEdge(g, d, y).at
            && ColumnEdge(g, d, y).dir == d && g.Boundary(ColumnEdge(g, d, y))
  {
    ColumnEdgeSides(g, d, y);
    var c := Loc(0, y);
    if d == 4 {
      Diagonal(g, mapparts[c].x, mapparts[c].y, 1, 0);
    } else {
      Diagonal(g, mapparts[c].x, mapparts[c].y, 0, 1);
    }
  }

  lemma StraightTrace(g: Grid, e: Edge, d: Dir, path: seq<Edge>, whole: bool)
    requires g.Valid() && g.Boundary(e) && e.dir == d && path != [] && path <= Orbit(g, e)
    requires forall i | 0 < i < |path| :: Only([d]).Allows(path[i].dir)
    requires if whole then path == Orbit(g, e) else |path| < |Orbit(g, e)| && !Only([d]).Allows(Orbit(g, e)[|path|].dir)
    ensures whole <==> StraightOutline(g, e, d)
  {
    hide Step, Grid.Boundary, Grid.Valid, Extend, Loop;
  }

  /** Traces the edge along the top or bottom of block (0, y), if it is one. */
  method TraceColumn(g: Grid, mapparts: map<Loc, Part>, partcount: nat, done: array2<int>, d: Dir, y: nat,
                     polys0: seq<seq<seq<Point>>>, ghost starts0: seq<seq<Edge>>, ghost ends: Ends)
    returns (partpolys: seq<seq<seq<Point>>>, ghost starts: seq<seq<Edge>>)
    requires g.Valid() && PartsFit(g, mapparts, partcount) && y < g.height && (d == 0 || d == 4)
    requires done.Length0 == g.height && done.Length1 == g.width
    requires ColumnScan(g, mapparts, partcount, polys0, starts0, ends) && ends.Of(d) == y
    requires Filled(g.At(Loc(0, y))) && OpenBeside(g, d, y)
    modifies done
    ensures ColumnScan(g, mapparts, partcount, partpolys, starts, ends.Next(d))
    ensures forall f | Collected(g, starts0, f) :: Collected(g, starts, f)
  {
    hide Grid.NoEdge, Grid.Boundary, Grid.Valid, Grid.Wrap, Grid.Move, Grid.At, Orbit, Collected, Draws;
    hide Gathered, ColumnEdge, ColumnCollected, StartedAbove, StraightOutline, AddStart, MarkAfter;
    hide Filled, OpenBeside, OkDir.Allows;
    partpolys, starts := polys0, starts0;
    ColumnWell(g, mapparts, partcount, partpolys, starts, ends);
    ColumnStart(g, mapparts, partcount, d, y);
    var sl := mapparts[Loc(0, y)];
    ghost var e := ColumnEdge(g, d, y);
    var x0, y0 := sl.x + (if d == 4 then 1 else 0), sl.y + (if d == 4 then 0 else 1);
    var result, path := TracePoly(g, done, x0, y0, d, Only([d]));
    StraightTrace(g, e, d, path, result.Poly?);
    if result.Poly? {
      ColumnFound(g, mapparts, partcount, partpolys, starts, ends, d, y, sl, x0, y0, result.points);
      partpolys := partpolys[sl.num := partpolys[sl.num] + [result.points]];
      starts := AddStart(starts, sl.num, e);
    } else {
      ColumnSkips(g, mapparts, partcount, partpolys, starts, ends, d, y);
    }
  }

  lemma ColumnWell(g: Grid, mapparts: map<Loc, Part>, partcount: nat, polys: seq<seq<seq<Point>>>,
                   starts: seq<seq<Edge>>, ends: Ends)
    requires g.Valid() && ColumnScan(g, mapparts, partcount, polys, starts, ends)
    ensures |polys| == |starts| == partcount && AllBoundary(g, starts)
  {
    hide Orbit, Collected, Grid.Boundary;
  }

  /** The pass down the left column. */
  method ScanColumn(g: Grid, mapparts: map<Loc, Part>, partcount: nat, done: array2<int>,
                    polys0: seq<seq<seq<Point>>>, ghost starts0: seq<seq<Edge>>)
    returns (partpolys: seq<seq<seq<Point>>>, ghost starts: seq<seq<Edge>>)
    requires g.Valid() && PartsFit(g, mapparts, partcount)
    requires done.Length0 == g.height && done.Length1 == g.width
    requires Gathered(g, mapparts, partcount, polys0, starts0) && StartsIn(starts0, SIDES + {2})
    modifies done
    ensures ColumnScan(g, mapparts, partcount, partpolys, starts, Ends(g.height, g.height))
    ensures forall f | Collected(g, starts0, f) :: Collected(g, starts, f)
  {
    hide Grid.NoEdge, Grid.Boundary, Grid.Valid, Grid.Wrap, Grid.Move, Grid.At, Orbit, Collected, Draws;
    hide OutlinesOf, AllDrawnFrom, TracedOnce, FiledByPart, AllBoundary, StartedAbove, ColumnCollected, StartsIn;
    hide StraightOutline, ColumnEdge, Filled, BottomSide, TopSide;
    ValidSize(g);
    partpolys, starts := polys0, starts0;
    ColumnBegins(g, mapparts, partcount, partpolys, starts);
    var y := 0;
    while true
      invariant 0 <= y < g.height && ColumnScan(g, mapparts, partcount, partpolys, starts, Ends(y, y))
      invariant forall f | Collected(g, starts0, f) :: Collected(g, starts, f)
      decreases g.height - y
    {
      var loc := Loc(0, y);
      Around(g, y);
      InsideColumn(g, y);
      if Filled(g.At(loc)) && !BottomSide(g.At(g.Move(loc, 2))) {
        partpolys, starts := TraceColumn(g, mapparts, partcount, done, 4, y, partpolys, starts, Ends(y, y));
      } else {
        NotStraight(g, 4, y);
        ColumnSkips(g, mapparts, partcount, partpolys, starts, Ends(y, y), 4, y);
      }
      if Filled(g.At(loc)) && !TopSide(g.At(g.Move(loc, 6))) {
        partpolys, starts := TraceColumn(g, mapparts, partcount, done, 0, y, partpolys, starts, Ends(y + 1, y));
      } else {
        NotStraight(g, 0, y);
        ColumnSkips(g, mapparts, partcount, partpolys, starts, Ends(y + 1, y), 0, y);
      }
      y := (y + 1) % g.height;
      if y == 0 {
        break;
      }
    }
  }

  lemma InsideColumn(g: Grid, y: nat)
    requires g.Valid() && y < g.height
    ensures g.Inside(g.Move(Loc(0, y), 2)) && g.Inside(g.Move(Loc(0, y), 6))
  {
  }

  /** After the pass over the top row all flat outlines with upward edges are collected. */
  lemma RisingCollected(g: Grid, starts: seq<seq<Edge>>, e: Edge, k: nat)
    requires g.Valid() && AllBoundary(g, starts) && TopCollected(g, starts, g.width) && FlatOutline(g, e)
    requires k < |Orbit(g, e)| && Orbit(g, e)[k].dir == 2
    ensures Collected(g, starts, e)
  {
    hide Grid.Valid, Grid.Boundary, Collected, TopEdge, Extend, Step;
    OutlineFacts(g, e);
    var i := PassesTop(g, Orbit(g, e), k);
    var f := Orbit(g, e)[i];
    var x := IsTopEdge(g, f);
    FlatTogether(g, e, f);
    CollectedTogether(g, starts, e, f);
  }

  /** After the pass down the left column all straight outlines are collected. */
  lemma StraightCollected(g: Grid, starts: seq<seq<Edge>>, e: Edge, d: Dir)
    requires g.Valid() && AllBoundary(g, starts) && ColumnCollected(g, starts, Ends(g.height, g.height))
    requires StraightOutline(g, e, d) && (d == 0 || d == 4)
    ensures Collected(g, starts, e)
  {
    hide Grid.Valid, Grid.Boundary, Collected, ColumnEdge, Extend, Step;
    ValidSize(g);
    OutlineFacts(g, e);
    var x := if d == 4 then 1 % g.width else 0;
    var i := PassesColumn(g, Orbit(g, e), d, x);
    var f := Orbit(g, e)[i];
    var y := IsColumnEdge(g, f, d);
    StraightTogether(g, e, f, d);
    CollectedTogether(g, starts, e, f);
  }

  lemma IsColumnEdge(g: Grid, f: Edge, d: Dir) returns (y: nat)
    requires g.Valid() && g.Inside(f.at) && f.dir == d && (d == 0 || d == 4)
    requires f.at.x == if d == 4 then 1 % g.width else 0
    ensures y < g.height && f == ColumnEdge(g, d, y)
  {
    y := if d == 4 then f.at.y else if f.at.y > 0 then f.at.y - 1 else g.height - 1;
    WrapInside(g, f.at);
  }

  /** Every edge is collected: by the scan for sides if its outline has one, by the pass over
      the top row if it is flat and rises, and else by the pass down the left column. */
  lemma AllCollected(g: Grid, sides: seq<seq<Edge>>, top: seq<seq<Edge>>, starts: seq<seq<Edge>>, e: Edge)
    requires g.Valid() && AllBoundary(g, sides) && AllBoundary(g, top) && AllBoundary(g, starts) && g.Boundary(e)
    requires forall f | g.Boundary(f) && Sought(f) :: Collected(g, sides, f)
    requires TopCollected(g, top, g.width) && ColumnCollected(g, starts, Ends(g.height, g.height))
    requires forall f | Collected(g, sides, f) :: Collected(g, starts, f)
    requires forall f | Collected(g, top, f) :: Collected(g, starts, f)
    ensures Collected(g, starts, e)
  {
    hide Grid.Valid, Grid.Boundary, Collected, TopCollected, ColumnCollected, Extend, Step;
    var path := Orbit(g, e);
    if f :| f in path && Sought(f) {
      SameOutline(g, e, f);
      CollectedTogether(g, starts, e, f);
    } else {
      AllFlat(path);
      if k: nat :| k < |path| && path[k].dir == 2 {
        RisingCollected(g, top, e, k);
      } else {
        GoesStraight(g, path);
        StraightCollected(g, starts, e, path[0].dir);
      }
    }
  }

  lemma AllFlat(path: seq<Edge>)
    requires forall f | f in path :: !Sought(f)
    ensures Flat(path)
  {
    forall i | 0 <= i < |path|
      ensures path[i].dir == 0 || path[i].dir == 2 || path[i].dir == 4
    {
      assert path[i] in path;
    }
  }

  /** Draws all outlines of the map: every boundary edge is on exactly one polygon. */
  method FindEdges(g: Grid, mapparts: map<Loc, Part>, partcount: nat)
    returns (partpolys: seq<seq<seq<Point>>>, ghost starts: seq<seq<Edge>>)
    requires g.Valid() && PartsFit(g, mapparts, partcount)
    ensures Gathered(g, mapparts, partcount, partpolys, starts)
    ensures DrawnOnce(g, partpolys) && forall e | g.Boundary(e) :: IsDrawn(g, partpolys, e)
  {
    hide DrawnOnce, IsDrawn, TopCollected, ColumnCollected, StartedAbove, StartsIn;
    hide Grid.Boundary, Grid.Valid, Orbit, Collected, TracedOnce, OutlinesOf, AllDrawnFrom, FiledByPart, AllBoundary;
    ValidSize(g);
    var done := new int[g.height, g.width]((_, _) => 0);
    ghost var sides, top;
    partpolys, sides := ScanSides(g, mapparts, partcount, done);
    partpolys, top := ScanTop(g, mapparts, partcount, done, partpolys, sides);
    partpolys, starts := ScanColumn(g, mapparts, partcount, done, partpolys, top);
    AllDrawnOnce(g, partpolys, starts);
    forall e | g.Boundary(e)
      ensures IsDrawn(g, partpolys, e)
    {
      AllCollected(g, sides, top, starts, e);
      CollectedDrawn(g, partpolys, starts, e);
    }
  }
}
