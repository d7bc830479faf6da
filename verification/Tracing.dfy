/** The tracing of one outline (tracepoly of mapconvert.py). */
module Tracing {
  import opened Arithmetic
  import opened BlockMap
  import opened Outline

  /** Coordinates on the wrapped map; `Godir` moves them in place. */
  class Wrapcoords {
    const width: int
    const height: int
    var x: int
    var y: int

    ghost predicate On(g: Grid)
      reads this
    {
      g.Valid() && width == g.width && height == g.height && g.Inside(Place())
    }

    function Place(): Loc
      reads this
    {
      Loc(x, y)
    }

    constructor (width: int, height: int, x: int, y: int)
      requires 0 < width && 0 < height
      ensures this.width == width && this.height == height
      ensures Place() == Loc(x % width, y % height)
    {
      this.width, this.height := width, height;
      this.x, this.y := x % width, y % height;
    }

    method Godir(ghost g: Grid, dir: Dir)
      requires On(g)
      modifies this
      ensures On(g) && Place() == g.Move(old(Place()), dir)
    {
      x := x + DirX(dir);
      y := y + DirY(dir);
      x := x % width;
      y := y % height;
    }
  }

  /** Tracing edge e marks block c as done: the block whose left side or
      slanted side the edge is. */
  predicate Marks(g: Grid, e: Edge, c: Loc)
    requires g.Valid()
  {
    match e.dir
    case 6 => c == e.at
    case 7 => c == e.at
    case 5 => c == g.Move(e.at, 4)
    case 3 => c == g.Move(e.at, 3)
    case 1 => c == g.Move(e.at, 2)
    case _ => false
  }

  ghost predicate MarkedBy(g: Grid, path: seq<Edge>, c: Loc)
    requires g.Valid()
  {
    exists e :: e in path && Marks(g, e, c)
  }

  /** The list of allowed directions that tracing may be given. */
  datatype OkDir = AnyDir | Only(dirs: seq<Dir>) {
    predicate Allows(d: Dir) {
      Only? ==> d in dirs
    }
  }

  datatype Traced = NoPoly | Poly(points: seq<Point>)

  /** With a list of allowed directions, an upward edge marks the block on its right
      when it is reached. */
  predicate MarksRight(g: Grid, okdir: OkDir, e: Edge, c: Loc)
    requires g.Valid()
  {
    okdir.Only? && e.dir == 2 && c == g.Move(e.at, 2)
  }

  /** The mark that block c has when a trace has gone over the path: the last one given. */
  ghost function MarkAfter(g: Grid, okdir: OkDir, path: seq<Edge>, c: Loc, was: int): int
    requires g.Valid()
  {
    if path == [] then was
    else
      var front, e := path[..|path| - 1], path[|path| - 1];
      if Marks(g, e, c) then 1
      else if front != [] && MarksRight(g, okdir, e, c) then -1
      else MarkAfter(g, okdir, front, c, was)
  }

  /** Follows the outline that starts at (x, y) in direction startdir, and gives up
      at the first edge in a direction that is not allowed. */
  method TracePoly(g: Grid, done: array2<int>, x0: int, y0: int, startdir: Dir, okdir: OkDir)
    returns (result: Traced, ghost path: seq<Edge>)
    requires g.Valid() && done.Length0 == g.height && done.Length1 == g.width
    requires g.Boundary(Edge(g.Wrap(x0, y0), startdir))
    modifies done
    ensures path != [] && path <= Orbit(g, Edge(g.Wrap(x0, y0), startdir))
    ensures forall i | 0 < i < |path| :: okdir.Allows(path[i].dir)
    ensures var orbit := Orbit(g, Edge(g.Wrap(x0, y0), startdir));
            match result
            case Poly(points) => path == orbit && Draws(points, x0, y0, orbit)
            case NoPoly => |path| < |orbit| && !okdir.Allows(orbit[|path|].dir)
    ensures forall c: Loc | g.Inside(c) ::
              done[c.y, c.x] == MarkAfter(g, okdir, path, c, old(done[c.y, c.x]))
  {
    hide Grid.NoEdge, Grid.Move, Grid.Wrap, Grid.Boundary, Grid.Valid, Step, Turned, Marks, MarksRight, MarkAfter;
    hide Trace, Loop, Extend, Draws, Displacement, OkDir.Allows;
    ghost var start := Edge(g.Wrap(x0, y0), startdir);
    var x, y, dir := x0, y0, startdir;
    assert g.width > 0 && g.height > 0 by { WrapIs(g, x0, y0); }
    var l := new Wrapcoords(g.width, g.height, x, y);
    WrapIs(g, x0, y0);
    var startloc := l.Place();
    var poly := [];
    path := [start];
    TraceStarts(g, x0, y0, start);
    FirstMark(g, okdir, start);
    while true
      invariant l.On(g) && fresh(l)
      invariant Trace(g, path) && Extend(g, path) == Orbit(g, start)
      invariant |path| > 0 && path[0] == start && path[|path| - 1] == Edge(l.Place(), dir)
      invariant Draws(poly, x0, y0, path[..|path| - 1])
      invariant (x, y) == (x0 + Displacement(path[..|path| - 1]).0, y0 + Displacement(path[..|path| - 1]).1)
      invariant forall i | 0 < i < |path| :: okdir.Allows(path[i].dir)
      invariant forall c: Loc | g.Inside(c) ::
                  done[c.y, c.x] == MarkReached(g, okdir, path, c, old(done[c.y, c.x]))
      decreases |Edges(g)| - |path|
    {
      ghost var before := path[..|path| - 1];
      ghost var here := path[|path| - 1];
      assert path == before + [here];
      TraceMembers(g, path);
      Grows(poly, x0, y0, before, here);
      poly := poly + [Point(x, y, dir)];
      x := x + DirX(dir);
      y := y + DirY(dir);
      MarkDone(g, done, Edge(l.Place(), dir));
      MarkDrawn(g, okdir, path);
      l.Godir(g, dir);
      dir := FollowCorner(g, l.Place(), dir, here);
      Advance(g, path);
      if l.Place() == startloc && dir == startdir {
        break;
      }
      ExtendGoesOn(g, start, path);
      if !okdir.Allows(dir) {
        return NoPoly, path;
      }
      MarkUp(g, done, okdir, Edge(l.Place(), dir));
      path := path + [Step(g, here)];
      assert path[..|path| - 1] == before + [here];
      MarkGrows(g, okdir, before + [here], Edge(l.Place(), dir));
    }
    return Poly(poly), path;
  }

  lemma WrapIs(g: Grid, x: int, y: int)
    requires g.Valid()
    ensures g.width > 0 && g.height > 0
    ensures g.Wrap(x, y) == Loc(x % g.width, y % g.height)
  {
  }

  lemma TraceStarts(g: Grid, x0: int, y0: int, e: Edge)
    requires g.Valid() && g.Boundary(e)
    ensures Trace(g, [e]) && Extend(g, [e]) == Orbit(g, e)
    ensures Draws([], x0, y0, [e][..0]) && Displacement([e][..0]) == (0, 0)
  {
  }

  lemma TraceMembers(g: Grid, path: seq<Edge>)
    requires g.Valid() && Trace(g, path)
    ensures |path| > 0 && g.Boundary(path[|path| - 1]) && g.Inside(path[|path| - 1].at)
    ensures |path| <= |Edges(g)|
  {
    TraceBounded(g, path);
  }

  /** The next step either closes the trace or makes it longer. */
  lemma Advance(g: Grid, path: seq<Edge>)
    requires g.Valid() && Trace(g, path)
    ensures var next := Step(g, path[|path| - 1]);
            if next == path[0] then Extend(g, path) == path
            else Trace(g, path + [next]) && Extend(g, path + [next]) == Extend(g, path)
                 && |path| < |Edges(g)|
  {
    hide Step, Grid.Boundary;
    TraceExtends(g, path);
    var next := Step(g, path[|path| - 1]);
    if next != path[0] {
      TraceBounded(g, path + [next]);
    } else {
      assert Loop(g, path);
    }
  }

  lemma Grows(poly: seq<Point>, x0: int, y0: int, path: seq<Edge>, e: Edge)
    requires Draws(poly, x0, y0, path)
    ensures var (x, y) := Displacement(path);
            && Draws(poly + [Point(x0 + x, y0 + y, e.dir)], x0, y0, path + [e])
            && Displacement(path + [e]) == (x + DirX(e.dir), y + DirY(e.dir))
  {
    hide DirX, DirY, Displacement;
    OneFurther(path, e);
    var more := path + [e];
    var (x, y) := Displacement(path);
    var longer := poly + [Point(x0 + x, y0 + y, e.dir)];
    forall i | 0 <= i < |more|
      ensures longer[i] == Point(x0 + Displacement(more[..i]).0, y0 + Displacement(more[..i]).1, more[i].dir)
    {
      if i < |path| {
        assert more[..i] == path[..i];
      } else {
        assert more[..i] == path;
      }
    }
  }

  lemma OneFurther(path: seq<Edge>, e: Edge)
    ensures var (x, y) := Displacement(path); Displacement(path + [e]) == (x + DirX(e.dir), y + DirY(e.dir))
  {
    assert (path + [e])[..|path|] == path;
  }

  /** The mark of block c when the trace has reached the last edge of the path, but has
      not drawn it yet. */
  ghost function MarkReached(g: Grid, okdir: OkDir, path: seq<Edge>, c: Loc, was: int): int
    requires g.Valid() && path != []
  {
    var front, e := path[..|path| - 1], path[|path| - 1];
    if front != [] && MarksRight(g, okdir, e, c) then -1 else MarkAfter(g, okdir, front, c, was)
  }

  lemma FirstMark(g: Grid, okdir: OkDir, e: Edge)
    requires g.Valid()
    ensures forall c, was :: MarkReached(g, okdir, [e], c, was) == was
  {
    assert [e][..0] == [];
  }

  lemma MarkDrawn(g: Grid, okdir: OkDir, path: seq<Edge>)
    requires g.Valid() && path != []
    ensures forall c, was :: MarkAfter(g, okdir, path, c, was)
                          == if Marks(g, path[|path| - 1], c) then 1 else MarkReached(g, okdir, path, c, was)
  {
  }

  lemma MarkGrows(g: Grid, okdir: OkDir, path: seq<Edge>, e: Edge)
    requires g.Valid() && path != []
    ensures forall c, was :: MarkReached(g, okdir, path + [e], c, was)
                          == if MarksRight(g, okdir, e, c) then -1 else MarkAfter(g, okdir, path, c, was)
  {
    hide MarkAfter, MarksRight, Grid.Valid;
    assert (path + [e])[..|path|] == path;
  }

  /** Without a list of allowed directions exactly the blocks of the path are marked. */
  lemma {:induction false} MarksAnyDir(g: Grid, path: seq<Edge>, c: Loc, was: int)
    requires g.Valid()
    ensures MarkAfter(g, AnyDir, path, c, was) == if MarkedBy(g, path, c) then 1 else was
  {
    hide Marks, Grid.Valid;
    if path != [] {
      var front, e := path[..|path| - 1], path[|path| - 1];
      MarksAnyDir(g, front, c, was);
      assert forall f :: f in path <==> f in front || f == e;
    }
  }

  /** With only flat directions exactly the blocks to the right of upward edges are
      marked, but for the edge that the trace starts with. */
  lemma {:induction false} MarksFlat(g: Grid, okdir: OkDir, path: seq<Edge>, c: Loc, was: int)
    requires g.Valid() && okdir.Only? && Flat(path)
    ensures MarkAfter(g, okdir, path, c, was)
         == if exists i :: 0 < i < |path| && MarksRight(g, okdir, path[i], c) then -1 else was
  {
    hide MarksRight, Grid.Valid;
    if path != [] {
      var front := path[..|path| - 1];
      MarksFlat(g, okdir, front, c, was);
    }
  }

  /** The trace has not reached the end of the outline yet. */
  lemma ExtendGoesOn(g: Grid, start: Edge, path: seq<Edge>)
    requires g.Valid() && Trace(g, path) && g.Boundary(start) && Extend(g, path) == Orbit(g, start)
    requires Step(g, path[|path| - 1]) != path[0]
    ensures var orbit := Orbit(g, start);
            |path| < |orbit| && path <= orbit && orbit[|path|] == Step(g, path[|path| - 1])
  {
    hide Step, Grid.Boundary, Loop, Orbit;
    Advance(g, path);
    var longer := path + [Step(g, path[|path| - 1])];
    assert longer <= Extend(g, longer);
    assert longer[|path|] == Step(g, path[|path| - 1]);
  }

  method MarkUp(g: Grid, done: array2<int>, okdir: OkDir, e: Edge)
    requires g.Valid() && done.Length0 == g.height && done.Length1 == g.width && g.Inside(e.at)
    modifies done
    ensures forall c: Loc | g.Inside(c) ::
              done[c.y, c.x] == if MarksRight(g, okdir, e, c) then -1 else old(done[c.y, c.x])
  {
    hide Grid.Wrap;
    if okdir.Only? && e.dir == 2 {
      var c := g.Move(e.at, 2);
      done[c.y, c.x] := -1;
    }
  }

  method MarkDone(g: Grid, done: array2<int>, e: Edge)
    requires g.Valid() && done.Length0 == g.height && done.Length1 == g.width && g.Inside(e.at)
    modifies done
    ensures forall c: Loc | g.Inside(c) :: done[c.y, c.x] == if Marks(g, e, c) then 1 else old(done[c.y, c.x])
  {
    hide Grid.Wrap, Grid.NoEdge;
    if e.dir == 6 || e.dir == 7 {
      done[e.at.y, e.at.x] := 1;
    } else if e.dir == 5 {
      var c := g.Move(e.at, 4);
      done[c.y, c.x] := 1;
    } else if e.dir == 3 {
      var c := g.Move(e.at, 3);
      done[c.y, c.x] := 1;
    } else if e.dir == 1 {
      var c := g.Move(e.at, 2);
      done[c.y, c.x] := 1;
    }
  }

  lemma TurnedTwice(d: Dir, s: int, t: int)
    ensures Turned(Turned(d, s), t) == Turned(d, s + t)
  {
  }

  /** Always turns as much left as possible. */
  method FollowCorner(g: Grid, l: Loc, from: Dir, ghost e: Edge) returns (dir: Dir)
    requires g.Valid() && g.Boundary(e) && l == g.Move(e.at, e.dir) && from == e.dir
    ensures Edge(l, dir) == Step(g, e)
  {
    hide Grid.NoEdge, Grid.Move, Grid.Wrap, Grid.Valid, Sectors, Turned;
    BoundaryBothEnds(g, e.at, e.dir);
    ghost var ring := Sectors(g, l);
    ghost var k: nat := 0;
    dir := Turned(from, 3);
    while g.NoEdge(l, dir)
      invariant k <= 6 && dir == Turned(e.dir, 3 - k)
      invariant RightTurns(ring, e.dir, 0) == RightTurns(ring, e.dir, k)
      decreases 6 - k
    {
      TurnedTwice(from, 3 - k, -1);
      dir := Turned(dir, -1);
      k := k + 1;
    }
  }
}
