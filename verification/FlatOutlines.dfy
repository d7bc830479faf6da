/** Outlines without left and slanted sides (mapconvert.py): they wind around the map, have
    full blocks on their left, and pass the top row or the left column. */
module FlatOutlines {
  import opened Arithmetic
  import opened BlockMap
  import opened Outline
  import opened Tracing

  // --------------------------------------------------- the blocks they outline

  /** If the sharpest turn to the left is open, the step makes it. */
  lemma StepTurnsLeft(g: Grid, e: Edge)
    requires g.Valid() && g.Boundary(e) && !g.NoEdge(g.Move(e.at, e.dir), Turned(e.dir, 3))
    ensures Step(g, e) == Edge(g.Move(e.at, e.dir), Turned(e.dir, 3))
  {
    hide Grid.NoEdge, Grid.Move, Turned;
    BoundaryBothEnds(g, e.at, e.dir);
    var ring := Sectors(g, g.Move(e.at, e.dir));
    assert !ring[Turned(e.dir, 3)];
  }

  /** Where a flat edge ends at a slanted block, the slanted side follows. */
  lemma SlantAfter(g: Grid, e: Edge)
    requires g.Valid() && g.Boundary(e)
    ensures e.dir == 2 && g.At(WallLeft(g, e)) == REC_DR ==> Step(g, e).dir == 5
    ensures e.dir == 4 && g.At(WallLeft(g, e)) == REC_UR ==> Step(g, e).dir == 7
    ensures e.dir == 0 && g.At(WallLeft(g, e)) == REC_DL ==> Step(g, e).dir == 3
  {
    hide Step, Grid.At;
    MoveMove(g, e.at, 2, 4);
    MoveMove(g, e.at, 0, 3);
    WrapInside(g, e.at);
    if e.dir == 2 && g.At(WallLeft(g, e)) == REC_DR {
      StepTurnsLeft(g, e);
    } else if e.dir == 4 && g.At(WallLeft(g, e)) == REC_UR {
      StepTurnsLeft(g, e);
    } else if e.dir == 0 && g.At(WallLeft(g, e)) == REC_DL {
      StepTurnsLeft(g, e);
    }
  }

  /** Where a flat edge begins at a slanted block, the slanted side is before it. */
  lemma SlantBefore(g: Grid, a: Edge, e: Edge)
    requires g.Valid() && g.Boundary(a) && g.Boundary(e) && Step(g, a) == e
    ensures e.dir == 2 && g.At(WallLeft(g, e)) == REC_UR ==> a.dir == 7
    ensures e.dir == 4 && g.At(WallLeft(g, e)) == REC_UL ==> a.dir == 1
    ensures e.dir == 0 && g.At(WallLeft(g, e)) == REC_DR ==> a.dir == 5
  {
    hide Step, Grid.At;
    WrapInside(g, e.at);
    var c := WallLeft(g, e);
    if e.dir == 2 && g.At(c) == REC_UR {
      MoveMove(g, e.at, 3, 7);
      StepsFrom(g, a, e, Edge(c, 7));
    } else if e.dir == 4 && g.At(c) == REC_UL {
      MoveMove(g, e.at, 5, 1);
      MoveMove(g, e.at, 5, 2);
      StepsFrom(g, a, e, Edge(g.Move(e.at, 5), 1));
    } else if e.dir == 0 && g.At(c) == REC_DR {
      MoveMove(g, e.at, 1, 5);
      MoveMove(g, e.at, 1, 4);
      StepsFrom(g, a, e, Edge(g.Move(e.at, 1), 5));
    }
  }

  lemma StepsFrom(g: Grid, a: Edge, e: Edge, b: Edge)
    requires g.Valid() && g.Boundary(a) && g.Boundary(e) && Step(g, a) == e
    requires g.Boundary(b) && g.Move(b.at, b.dir) == e.at && Turned(b.dir, 3) == e.dir
    ensures a == b
  {
    StepTurnsLeft(g, b);
    StepInjective(g, a, b);
  }

  /** A full side of a block of wall belongs to a full block or to one of two slanted ones. */
  lemma FlatSide(g: Grid, e: Edge)
    requires g.Valid() && g.Boundary(e) && (e.dir == 0 || e.dir == 2 || e.dir == 4)
    ensures var b := g.At(WallLeft(g, e));
            || Filled(b)
            || (b == REC_DR && (e.dir == 2 || e.dir == 0))
            || (b == REC_UR && (e.dir == 4 || e.dir == 2))
            || (b == REC_DL && e.dir == 0)
            || (b == REC_UL && e.dir == 4)
  {
    hide Grid.At, Grid.Move;
  }

  lemma FlatIsFilled(g: Grid, path: seq<Edge>, i: nat)
    requires g.Valid() && Loop(g, path) && Flat(path) && i < |path|
    ensures Filled(g.At(WallLeft(g, path[i])))
  {
    hide Step, Grid.NoEdge, Grid.At, Grid.Move, WallLeft;
    var n := |path|;
    var before, e := path[if i > 0 then i - 1 else n - 1], path[i];
    assert Step(g, before) == e;
    assert Step(g, e) == path[if i + 1 < n then i + 1 else 0];
    FlatSide(g, e);
    SlantAfter(g, e);
    SlantBefore(g, before, e);
  }

  // ----------------------------------------------------- where they pass

  /** A path that sinks below t has an upward edge that leads down to t. */
  lemma {:induction false} Reaches(path: seq<Edge>, n: nat, t: int) returns (i: nat)
    requires Flat(path) && n <= |path| && Displacement(path[..n]).1 <= t < 0
    ensures i < n && path[i].dir == 2 && Displacement(path[..i]).1 == t + 1
    decreases n
  {
    NoneSoFar(path);
    assert path[..n][..n - 1] == path[..n - 1];
    if Displacement(path[..n - 1]).1 <= t {
      i := Reaches(path, n - 1, t);
    } else {
      i := n - 1;
    }
  }

  lemma NoneSoFar(path: seq<Edge>)
    ensures Displacement(path[..0]) == (0, 0)
  {
  }

  lemma WholeTurn(d: int, h: int)
    requires h > 0 && d < 0 && d % h == 0
    ensures d <= -h
  {
    AtLeastOne(d / h, h);
    assert d == d / h * h;
  }

  /** A flat outline with an upward edge has one that leads from the second corner row to the first. */
  lemma PassesTop(g: Grid, path: seq<Edge>, k: nat) returns (i: nat)
    requires g.Valid() && Loop(g, path) && Flat(path) && k < |path| && path[k].dir == 2
    ensures i < |path| && path[i].dir == 2 && path[i].at.y == 1 % g.height
  {
    hide Step, Grid.NoEdge, Displacement;
    var l := path[0].at;
    assert path[..|path|] == path;
    FlatRises(path, |path|);
    LoopCloses(g, path);
    WholeTurn(Displacement(path).1, g.height);
    var t := if l.y > 0 then -l.y else -g.height;
    i := Reaches(path, |path|, t);
    WrapInside(g, l);
    PathPlace(g, l.x, l.y, path, i);
    WrapParts(g, l, Displacement(path[..i]));
    TurnedDown(l.y, g.height);
  }

  lemma TurnedDown(y: int, h: int)
    requires 0 <= y < h
    ensures (y + ((if y > 0 then -y else -h) + 1)) % h == 1 % h
  {
    if y == 0 {
      AddMod(1 - h, h, h);
      MultipleOf(-1, h);
      AddMod(-h, 1, h);
    }
  }

  ghost predicate Straight(path: seq<Edge>, d: Dir) {
    forall i :: 0 <= i < |path| ==> path[i].dir == d
  }

  /** A flat outline without upward edges goes straight, left or right. */
  lemma GoesStraight(g: Grid, path: seq<Edge>)
    requires g.Valid() && Loop(g, path) && Flat(path)
    requires forall i :: 0 <= i < |path| ==> path[i].dir != 2
    ensures Straight(path, path[0].dir) && (path[0].dir == 0 || path[0].dir == 4)
  {
    hide Step, Grid.NoEdge;
    FlatGoesOn(g, path, |path|);
  }

  /** A straight outline stays in its row. */
  lemma StaysInRow(g: Grid, path: seq<Edge>, d: Dir, i: nat)
    requires g.Valid() && Loop(g, path) && Straight(path, d) && (d == 0 || d == 4) && i < |path|
    ensures path[i].at == Loc((path[0].at.x + i * DirX(d)) % g.width, path[0].at.y)
  {
    hide Step, Grid.NoEdge, Displacement;
    var l := path[0].at;
    FlatGoesOn(g, path, i);
    WrapInside(g, l);
    PathPlace(g, l.x, l.y, path, i);
    WrapParts(g, l, (i * DirX(d), 0));
  }

  lemma LongEnough(n: int, w: int, x: int)
    requires w > 0 && n > 0 && (x == 1 || x == -1) && (n * x) % w == 0
    ensures n >= w
  {
    if x == 1 {
      AtLeastOne(n / w, w);
      assert n == n / w * w;
    } else {
      assert n * x == -n;
      WholeTurn(-n, w);
    }
  }

  /** A straight outline passes every column. */
  lemma PassesColumn(g: Grid, path: seq<Edge>, d: Dir, x: nat) returns (i: nat)
    requires g.Valid() && Loop(g, path) && Straight(path, d) && (d == 0 || d == 4) && x < g.width
    ensures i < |path| && path[i].at == Loc(x, path[0].at.y)
  {
    hide Step, Grid.NoEdge, Displacement;
    var w, x0 := g.width, path[0].at.x;
    FlatGoesOn(g, path, |path|);
    assert path[..|path|] == path;
    LoopCloses(g, path);
    LongEnough(|path|, w, DirX(d));
    var gap := if d == 0 then x - x0 else x0 - x;
    i := if gap >= 0 then gap else gap + w;
    StaysInRow(g, path, d, i);
    Meets(x0, x, w, i);
  }

  lemma Meets(x0: int, x: int, w: int, i: int)
    requires 0 <= x < w && 0 <= x0 < w
    ensures i == x - x0 || i == x - x0 + w ==> (x0 + i) % w == x
    ensures i == x0 - x || i == x0 - x + w ==> (x0 - i) % w == x
  {
    Remainder(0, x, w);
    Remainder(1, x, w);
    Remainder(-1, x, w);
  }
}
