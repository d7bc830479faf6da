/** Wall outlines: the tracing step of mapconvert.py as a permutation of the
    boundary edges, and the loops that follow it. */
module Outline {
  import opened Arithmetic
  import opened BlockMap

  // ---------------------------------------------------------------- one step

  /** The eight sectors around a corner: sector d lies clockwise of direction d. */
  type Ring = r: seq<bool> | |r| == 8 witness [false, false, false, false, false, false, false, false]

  function Sectors(g: Grid, l: Loc): (ring: Ring)
    requires g.Valid() && g.Inside(l)
    ensures forall d: Dir :: ring[d] == g.NoEdge(l, d)
  {
    seq(8, d requires 0 <= d < 8 => g.NoEdge(l, d))
  }

  /** Turns made to the right, after the turn of three to the left, until the
      first sector that is not wall. */
  function RightTurns(ring: Ring, d: Dir, k: nat): (r: nat)
    requires k <= 6 && !ring[Turned(d, 5)]
    ensures k <= r <= 6
    ensures !ring[Turned(d, 3 - r)]
    ensures forall t :: 3 - r < t <= 3 - k ==> ring[Turned(d, t)]
    decreases 6 - k
  {
    if !ring[Turned(d, 3 - k)] then k else RightTurns(ring, d, k + 1)
  }

  /** The edge that tracing follows after edge e. */
  function Step(g: Grid, e: Edge): (r: Edge)
    requires g.Valid() && g.Boundary(e)
  {
    BoundaryBothEnds(g, e.at, e.dir);
    var l := g.Move(e.at, e.dir);
    Edge(l, Turned(e.dir, 3 - RightTurns(Sectors(g, l), e.dir, 0)))
  }

  lemma StepAt(g: Grid, e: Edge)
    requires g.Valid() && g.Boundary(e)
    ensures Step(g, e).at == g.Move(e.at, e.dir)
  {
  }

  lemma StepIsBoundary(g: Grid, e: Edge)
    requires g.Valid() && g.Boundary(e)
    ensures g.Boundary(Step(g, e))
  {
    hide Grid.NoEdge, Grid.Move, Grid.Wrap, Grid.Valid, RightTurns, Sectors;
    BoundaryBothEnds(g, e.at, e.dir);
    var ring := Sectors(g, g.Move(e.at, e.dir));
    var k: int := RightTurns(ring, e.dir, 0);
    assert Turned(Turned(e.dir, 3 - k), 1) == Turned(e.dir, 4 - k);
  }

  /** Two ways into a corner that leave it the same way are the same way in. */
  lemma SameTurns(ring: Ring, a: Dir, i: nat, b: Dir, j: nat)
    requires ring[Turned(a, 4)] && !ring[Turned(a, 5)]
    requires ring[Turned(b, 4)] && !ring[Turned(b, 5)]
    requires i == RightTurns(ring, a, 0) && j == RightTurns(ring, b, 0)
    requires Turned(a, 3 - i) == Turned(b, 3 - j)
    ensures a == b
  {
    hide RightTurns;
    if i < j {
      PassesOpenSector(ring, a, i, b, j);
    } else if j < i {
      PassesOpenSector(ring, b, j, a, i);
    }
    TurnedSame(a, b, 3 - i);
  }

  lemma TurnedAlike(a: Dir, s: int, b: Dir, t: int, u: int)
    requires Turned(a, s) == Turned(b, t)
    ensures Turned(b, u) == Turned(a, s - t + u)
  {
  }

  lemma TurnedSame(a: Dir, b: Dir, t: int)
    requires Turned(a, t) == Turned(b, t)
    ensures a == b
  {
  }

  /** The longer turn would have to pass the open sector next to the other way in. */
  lemma PassesOpenSector(ring: Ring, a: Dir, i: nat, b: Dir, j: nat)
    requires ring[Turned(b, 4)] && !ring[Turned(a, 5)] && !ring[Turned(b, 5)]
    requires i == RightTurns(ring, a, 0) && j == RightTurns(ring, b, 0)
    requires Turned(a, 3 - i) == Turned(b, 3 - j)
    ensures j <= i
  {
    if i < j {
      TurnedAlike(a, 3 - i, b, 3 - j, i - j + 5);
      hide Turned, RightTurns;
      assert false;
    }
  }

  /** No two boundary edges are followed by the same edge. */
  lemma StepInjective(g: Grid, a: Edge, b: Edge)
    requires g.Valid() && g.Boundary(a) && g.Boundary(b)
    requires Step(g, a) == Step(g, b)
    ensures a == b
  {
    hide Grid.NoEdge, Grid.Move, Grid.Wrap, Grid.Valid, RightTurns, Sectors, Turned;
    BoundaryBothEnds(g, a.at, a.dir);
    BoundaryBothEnds(g, b.at, b.dir);
    MoveBack(g, a.at, a.dir);
    MoveBack(g, b.at, b.dir);
    var ring := Sectors(g, g.Move(a.at, a.dir));
    SameTurns(ring, a.dir, RightTurns(ring, a.dir, 0), b.dir, RightTurns(ring, b.dir, 0));
  }

  /** The block that the sector clockwise of direction d belongs to. */
  function SectorBlock(g: Grid, l: Loc, d: Dir): (c: Loc)
    requires g.Valid() && g.Inside(l)
    ensures g.Inside(c)
  {
    match d
    case 0 => l
    case 7 => l
    case 1 => g.Move(l, 2)
    case 2 => g.Move(l, 2)
    case 3 => g.Move(l, 3)
    case 4 => g.Move(l, 3)
    case _ => g.Move(l, 4)
  }

  /** The block on the left of an edge. */
  function WallLeft(g: Grid, e: Edge): (c: Loc)
    requires g.Valid() && g.Inside(e.at)
    ensures g.Inside(c)
  {
    SectorBlock(g, e.at, Turned(e.dir, 1))
  }

  // ------------------------------------------------------------- whole traces

  ghost function Edges(g: Grid): set<Edge>
    requires g.Valid()
  {
    set x, y, d: Dir | 0 <= x < g.width && 0 <= y < g.height && 0 <= d < 8 && g.Boundary(Edge(Loc(x, y), d)) ::
      Edge(Loc(x, y), d)
  }

  /** A run of the tracing step that has met no edge twice. */
  ghost predicate Trace(g: Grid, path: seq<Edge>)
    requires g.Valid()
  {
    && |path| > 0
    && (forall i :: 0 <= i < |path| ==> g.Boundary(path[i]))
    && (forall i :: 0 < i < |path| ==> path[i] == Step(g, path[i - 1]))
    && (forall i, j :: 0 <= i < j < |path| ==> path[i] != path[j])
  }

  /** A trace that has come back to its first edge. */
  ghost predicate Loop(g: Grid, path: seq<Edge>)
    requires g.Valid()
  {
    Trace(g, path) && Step(g, path[|path| - 1]) == path[0]
  }

  lemma CountDistinct(path: seq<Edge>, all: set<Edge>)
    requires forall i, j :: 0 <= i < j < |path| ==> path[i] != path[j]
    requires forall e :: e in path ==> e in all
    ensures |path| <= |all|
  {
    if |path| > 0 {
      CountDistinct(path[1..], all - {path[0]});
    }
  }

  lemma TraceBounded(g: Grid, path: seq<Edge>)
    requires g.Valid() && Trace(g, path)
    ensures |path| <= |Edges(g)|
  {
    forall e | e in path
      ensures e in Edges(g)
    {
      assert e == Edge(Loc(e.at.x, e.at.y), e.dir);
    }
    CountDistinct(path, Edges(g));
  }

  /** A trace can only run into its own first edge: it extends or it closes. */
  lemma TraceExtends(g: Grid, path: seq<Edge>)
    requires g.Valid() && Trace(g, path)
    ensures Loop(g, path) || Trace(g, path + [Step(g, path[|path| - 1])])
  {
    hide Step, Grid.Boundary;
    var next := Step(g, path[|path| - 1]);
    StepIsBoundary(g, path[|path| - 1]);
    forall i | 0 < i < |path|
      ensures path[i] != next
    {
      if path[i] == next {
        StepInjective(g, path[i - 1], path[|path| - 1]);
        assert false;
      }
    }
  }

  ghost function Extend(g: Grid, path: seq<Edge>): (r: seq<Edge>)
    requires g.Valid() && Trace(g, path)
    ensures Loop(g, r) && path <= r
    decreases |Edges(g)| - |path|
  {
    TraceExtends(g, path);
    if Loop(g, path) then path
    else
      var longer := path + [Step(g, path[|path| - 1])];
      TraceBounded(g, longer);
      Extend(g, longer)
  }

  /** Everything tracing meets from edge e before it is back at e. */
  ghost function Orbit(g: Grid, e: Edge): (r: seq<Edge>)
    requires g.Valid() && g.Boundary(e)
    ensures Loop(g, r) && r[0] == e
  {
    Extend(g, [e])
  }

  /** Every edge has an edge before it, so the step permutes the edges. */
  lemma StepSurjective(g: Grid, e: Edge) returns (before: Edge)
    requires g.Valid() && g.Boundary(e)
    ensures g.Boundary(before) && Step(g, before) == e
  {
    var orbit := Orbit(g, e);
    before := orbit[|orbit| - 1];
  }

  /** Loops through a common edge have the same edges. */
  lemma LoopsMeet(g: Grid, a: seq<Edge>, b: seq<Edge>, i: nat, j: nat)
    requires g.Valid() && Loop(g, a) && Loop(g, b)
    requires i < |a| && j < |b| && a[i] == b[j]
    ensures forall e :: e in a ==> e in b
  {
    hide Step, Grid.Boundary;
    forall k | 0 <= k < |a|
      ensures a[k] in b
    {
      var n := if k >= i then k - i else k + |a| - i;
      LoopAdvance(g, a, b, i, j, n);
    }
  }

  lemma {:induction false} LoopAdvance(g: Grid, a: seq<Edge>, b: seq<Edge>, i: nat, j: nat, n: nat)
    requires g.Valid() && Loop(g, a) && Loop(g, b)
    requires i < |a| && j < |b| && a[i] == b[j] && n < |a|
    ensures a[if i + n < |a| then i + n else i + n - |a|] in b
    decreases n
  {
    hide Step, Grid.Boundary;
    if n > 0 {
      LoopAdvance(g, a, b, i, j, n - 1);
      var p := if i + n - 1 < |a| then i + n - 1 else i + n - 1 - |a|;
      var q :| 0 <= q < |b| && b[q] == a[p];
      var next := Step(g, a[p]);
      assert next == a[if i + n < |a| then i + n else i + n - |a|];
      if q + 1 < |b| {
        assert b[q + 1] == next;
      } else {
        assert b[0] == next;
      }
    }
  }

  // ---------------------------------------------------------------- polygons

  /** One traced edge in map coordinates that are not wrapped. */
  datatype Point = Point(x: int, y: int, dir: Dir)

  ghost function Displacement(path: seq<Edge>): (int, int)
  {
    if path == [] then (0, 0)
    else
      var (x, y) := Displacement(path[..|path| - 1]);
      var last := path[|path| - 1];
      (x + DirX(last.dir), y + DirY(last.dir))
  }

  /** The polygon lists the path's directions at the summed-up coordinates. */
  ghost predicate Draws(poly: seq<Point>, x: int, y: int, path: seq<Edge>) {
    && |poly| == |path|
    && (forall i :: 0 <= i < |path| ==>
          poly[i] == Point(x + Displacement(path[..i]).0, y + Displacement(path[..i]).1, path[i].dir))
  }

  /** The wrapped place reached after n edges is the place of the next edge. */
  lemma {:induction false} PathPlace(g: Grid, x: int, y: int, path: seq<Edge>, n: nat)
    requires g.Valid() && Loop(g, path) && g.Wrap(x, y) == path[0].at && n <= |path|
    ensures g.Wrap(x + Displacement(path[..n]).0, y + Displacement(path[..n]).1) == path[if n < |path| then n else 0].at
    decreases n
  {
    hide Step, Grid.Boundary;
    if n > 0 {
      StepAt(g, path[n - 1]);
      PathPlace(g, x, y, path, n - 1);
      var sum := Displacement(path[..n - 1]);
      assert path[..n][..n - 1] == path[..n - 1];
      AddMod(x + sum.0, DirX(path[n - 1].dir), g.width);
      AddMod(y + sum.1, DirY(path[n - 1].dir), g.height);
    }
  }

  lemma SameMod(a: int, e: int, m: int)
    requires 0 < m && (a + e) % m == a % m
    ensures e % m == 0
  {
    var k := (a + e) / m - a / m - e / m;
    assert e % m == k * m by {
      assert (a + e) / m * m + (a + e) % m == a + e;
      assert a / m * m + a % m == a;
      assert e / m * m + e % m == e;
    }
    AtLeastOne(k, m);
  }

  lemma WrapParts(g: Grid, l: Loc, off: (int, int))
    requires g.Valid()
    ensures g.Wrap(l.x + off.0, l.y + off.1) == Loc((l.x + off.0) % g.width, (l.y + off.1) % g.height)
    ensures g.Wrap(l.x, l.y) == Loc(l.x % g.width, l.y % g.height)
  {
  }

  /** A traced polygon closes up to whole turns around the map. */
  lemma LoopCloses(g: Grid, path: seq<Edge>)
    requires g.Valid() && Loop(g, path)
    ensures Displacement(path).0 % g.width == 0
    ensures Displacement(path).1 % g.height == 0
  {
    hide Step, Grid.NoEdge, Displacement, Grid.Wrap;
    var l := path[0].at;
    WrapInside(g, l);
    WrapParts(g, l, Displacement(path));
    PathPlace(g, l.x, l.y, path, |path|);
    assert path[..|path|] == path;
    SameMod(l.x, Displacement(path).0, g.width);
    SameMod(l.y, Displacement(path).1, g.height);
  }

  // ----------------------------------------------- outlines without left sides

  /** Going right never turns into going left, nor left into right. */
  lemma NoUTurn(g: Grid, e: Edge)
    requires g.Valid() && g.Boundary(e)
    ensures Step(g, e).dir != Turned(e.dir, 4)
  {
    BoundaryBothEnds(g, e.at, e.dir);
  }

  ghost predicate Flat(path: seq<Edge>) {
    forall i :: 0 <= i < |path| ==> path[i].dir == 0 || path[i].dir == 2 || path[i].dir == 4
  }

  lemma {:induction false} FlatRises(path: seq<Edge>, n: nat)
    requires Flat(path) && n <= |path|
    ensures Displacement(path[..n]).1 <= 0
    ensures forall i :: 0 <= i < n && path[i].dir == 2 ==> Displacement(path[..n]).1 < 0
    decreases n
  {
    if n > 0 {
      FlatRises(path, n - 1);
      assert path[..n][..n - 1] == path[..n - 1];
    }
  }

  lemma {:induction false} FlatGoesOn(g: Grid, path: seq<Edge>, n: nat)
    requires g.Valid() && Loop(g, path) && Flat(path) && n <= |path|
    requires forall i :: 0 <= i < |path| ==> path[i].dir != 2
    ensures forall i :: 0 <= i < n ==> path[i].dir == path[0].dir
    ensures Displacement(path[..n]) == (n * DirX(path[0].dir), 0)
    decreases n
  {
    hide Step, Grid.NoEdge;
    if n > 0 {
      FlatGoesOn(g, path, n - 1);
      if n > 1 {
        NoUTurn(g, path[n - 2]);
      }
      assert path[..n][..n - 1] == path[..n - 1];
    }
  }

  /** An outline of flat edges and right sides alone winds around the map: it
      does not come back to its unwrapped starting point. */
  lemma FlatOutlineWinds(g: Grid, path: seq<Edge>)
    requires g.Valid() && Loop(g, path) && Flat(path)
    ensures Displacement(path) != (0, 0)
  {
    hide Step, Grid.NoEdge, Displacement;
    assert path[..|path|] == path;
    FlatRises(path, |path|);
    if forall i :: 0 <= i < |path| ==> path[i].dir != 2 {
      FlatGoesOn(g, path, |path|);
    }
  }
}
