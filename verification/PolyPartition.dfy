/** The parts of a block map (poly_partition of mapconvert.py): wall blocks that are joined
    across their sides get one number, and each outline stays within one part. */
module PolyPartition {
  import opened Arithmetic
  import opened BlockMap
  import opened Outline
  import opened Tracing
  import opened SideScan

  /** The directions in which a block of wall joins its neighbours. */
  function Ways(c: char): (ways: seq<Dir>)
    ensures Wall(c) <==> ways != []
  {
    if Filled(c) then [0, 2, 4, 6]
    else if c == REC_UR then [0, 2]
    else if c == REC_UL then [2, 4]
    else if c == REC_DL then [4, 6]
    else if c == REC_DR then [6, 0]
    else []
  }

  /** Block a and the block in direction d both have wall along the side between them. */
  predicate Joined(g: Grid, a: Loc, d: Dir)
    requires g.Valid()
  {
    g.Inside(a) && d in Ways(g.At(a)) && Turned(d, 4) in Ways(g.At(g.Move(a, d)))
  }

  ghost predicate WallNext(g: Grid, a: Loc, b: Loc)
    requires g.Valid()
  {
    exists d: Dir :: Joined(g, a, d) && b == g.Move(a, d)
  }

  ghost predicate Chain(g: Grid, p: seq<Loc>)
    requires g.Valid()
  {
    && |p| > 0
    && (forall k | 0 <= k < |p| :: g.Inside(p[k]) && Wall(g.At(p[k])))
    && (forall k | 0 < k < |p| :: WallNext(g, p[k - 1], p[k]))
  }

  /** One can get from block a to block b through wall, crossing sides only. */
  ghost predicate Linked(g: Grid, a: Loc, b: Loc)
    requires g.Valid()
  {
    exists p :: Chain(g, p) && p[0] == a && p[|p| - 1] == b
  }

  lemma LinkedSelf(g: Grid, a: Loc)
    requires g.Valid() && g.Inside(a) && Wall(g.At(a))
    ensures Linked(g, a, a)
  {
    assert Chain(g, [a]);
  }

  lemma LinkedEnds(g: Grid, a: Loc, b: Loc)
    requires g.Valid() && Linked(g, a, b)
    ensures g.Inside(a) && g.Inside(b) && Wall(g.At(a)) && Wall(g.At(b))
  {
  }

  lemma JoinedWalls(g: Grid, a: Loc, d: Dir)
    requires g.Valid() && Joined(g, a, d)
    ensures g.Inside(a) && Wall(g.At(a)) && Wall(g.At(g.Move(a, d))) && WallNext(g, a, g.Move(a, d))
  {
    hide Grid.Move, Grid.At;
  }

  lemma LinkedStep(g: Grid, a: Loc, b: Loc, c: Loc)
    requires g.Valid() && Linked(g, a, b) && WallNext(g, b, c)
    ensures Linked(g, a, c)
  {
    hide Grid.Move, Grid.At, Grid.Valid, Joined;
    var d: Dir :| Joined(g, b, d) && c == g.Move(b, d);
    JoinedWalls(g, b, d);
    var p :| Chain(g, p) && p[0] == a && p[|p| - 1] == b;
    hide WallNext;
    assert Chain(g, p + [c]);
  }

  lemma {:induction false} ChainLinks(g: Grid, a: Loc, p: seq<Loc>, n: nat)
    requires g.Valid() && Chain(g, p) && n < |p| && Linked(g, a, p[0])
    ensures Linked(g, a, p[n])
    decreases n
  {
    hide WallNext, Linked;
    if n > 0 {
      ChainLinks(g, a, p, n - 1);
      LinkedStep(g, a, p[n - 1], p[n]);
    }
  }

  lemma SomeChain(g: Grid, a: Loc, b: Loc) returns (p: seq<Loc>)
    requires g.Valid() && Linked(g, a, b)
    ensures Chain(g, p) && |p| > 0 && p[0] == a && p[|p| - 1] == b
  {
    p :| Chain(g, p) && p[0] == a && p[|p| - 1] == b;
  }

  lemma LinkedTrans(g: Grid, a: Loc, b: Loc, c: Loc)
    requires g.Valid() && Linked(g, a, b) && Linked(g, b, c)
    ensures Linked(g, a, c)
  {
    hide Chain, Linked, Grid.Valid;
    var p := SomeChain(g, b, c);
    ChainLinks(g, a, p, |p| - 1);
  }

  lemma NextBack(g: Grid, a: Loc, b: Loc)
    requires g.Valid() && WallNext(g, a, b)
    ensures WallNext(g, b, a)
  {
    hide Grid.Move, Grid.At;
    var d: Dir :| Joined(g, a, d) && b == g.Move(a, d);
    MoveBack(g, a, d);
    TurnedTwice(d, 4, 4);
    assert Joined(g, b, Turned(d, 4));
  }

  lemma {:induction false} ChainBack(g: Grid, p: seq<Loc>, n: nat)
    requires g.Valid() && Chain(g, p) && n < |p|
    ensures Linked(g, p[n], p[0])
    decreases n
  {
    hide WallNext, Linked;
    LinkedSelf(g, p[n]);
    if n > 0 {
      ChainBack(g, p, n - 1);
      NextBack(g, p[n - 1], p[n]);
      LinkedStep(g, p[n], p[n], p[n - 1]);
      LinkedTrans(g, p[n], p[n - 1], p[0]);
    }
  }

  lemma LinkedBack(g: Grid, a: Loc, b: Loc)
    requires g.Valid() && Linked(g, a, b)
    ensures Linked(g, b, a)
  {
    hide Chain, Linked, Grid.Valid;
    var p := SomeChain(g, a, b);
    ChainBack(g, p, |p| - 1);
  }

  // ------------------------------------------------- an outline stays in its part

  lemma SectorIsWall(g: Grid, l: Loc, d: Dir)
    requires g.Valid() && g.Inside(l) && g.NoEdge(l, d)
    ensures Wall(g.At(SectorBlock(g, l, d)))
  {
    hide Grid.Move, Grid.At;
  }

  /** Neighbouring sectors of wall belong to one block or to joined ones. */
  lemma SectorsJoin(g: Grid, l: Loc, d: Dir)
    requires g.Valid() && g.Inside(l) && g.NoEdge(l, d) && g.NoEdge(l, Turned(d, 1))
    ensures var a, b := SectorBlock(g, l, d), SectorBlock(g, l, Turned(d, 1));
            a == b || WallNext(g, b, a)
  {
    Quarters(g, l);
    hide Grid.At, Grid.Move, Grid.Wrap;
    var a, b := SectorBlock(g, l, d), SectorBlock(g, l, Turned(d, 1));
    match d
    case 0 => assert Joined(g, b, 6);
    case 2 => assert Joined(g, b, 0);
    case 4 => assert Joined(g, b, 2);
    case 6 => assert Joined(g, b, 4);
    case _ =>
  }

  /** The four blocks around a corner, counterclockwise. */
  lemma Quarters(g: Grid, l: Loc)
    requires g.Valid() && g.Inside(l)
    ensures g.Move(g.Move(l, 2), 6) == l
    ensures g.Move(g.Move(l, 3), 0) == g.Move(l, 2)
    ensures g.Move(g.Move(l, 4), 2) == g.Move(l, 3)
  {
    WrapInside(g, l);
    MoveMove(g, l, 2, 6);
    MoveMove(g, l, 3, 0);
    MoveMove(g, l, 4, 2);
  }

  /** Seen from its other end an edge has the same block on its left. */
  lemma WallLeftAtEnd(g: Grid, e: Edge)
    requires g.Valid() && g.Inside(e.at)
    ensures WallLeft(g, e) == SectorBlock(g, g.Move(e.at, e.dir), Turned(e.dir, 4))
  {
    WrapInside(g, e.at);
    forall b: Dir
      ensures g.Move(g.Move(e.at, e.dir), b)
           == g.Wrap(e.at.x + (DirX(e.dir) + DirX(b)), e.at.y + (DirY(e.dir) + DirY(b)))
    {
      MoveMove(g, e.at, e.dir, b);
    }
    match e.dir
    case 0 =>
    case 1 =>
    case 2 =>
    case 3 =>
    case 4 =>
    case 5 =>
    case 6 =>
    case _ =>
  }

  /** Turning right past wall goes from block to block through wall. */
  lemma {:induction false} TurnLinks(g: Grid, l: Loc, d: Dir, m: int)
    requires g.Valid() && g.Inside(l) && m <= 4 && forall t | m <= t <= 4 :: g.NoEdge(l, Turned(d, t))
    ensures Linked(g, SectorBlock(g, l, Turned(d, 4)), SectorBlock(g, l, Turned(d, m)))
    decreases 4 - m
  {
    hide Grid.NoEdge, Linked, WallNext, SectorBlock, Grid.Valid, Turned;
    var from, now := SectorBlock(g, l, Turned(d, 4)), SectorBlock(g, l, Turned(d, m));
    if m == 4 {
      SectorIsWall(g, l, Turned(d, 4));
      LinkedSelf(g, from);
    } else {
      TurnLinks(g, l, d, m + 1);
      TurnedTwice(d, m, 1);
      SectorsJoin(g, l, Turned(d, m));
      var was := SectorBlock(g, l, Turned(d, m + 1));
      if now != was {
        LinkedStep(g, from, was, now);
      }
    }
  }

  /** The tracing step leads to an edge whose wall is linked to that of the edge before. */
  lemma StepLinks(g: Grid, e: Edge)
    requires g.Valid() && g.Boundary(e)
    ensures g.Boundary(Step(g, e)) && Linked(g, WallLeft(g, e), WallLeft(g, Step(g, e)))
  {
    hide Grid.NoEdge, Grid.Move, Linked, SectorBlock, Grid.Valid, RightTurns, Turned;
    StepIsBoundary(g, e);
    BoundaryBothEnds(g, e.at, e.dir);
    WallLeftAtEnd(g, e);
    var l := g.Move(e.at, e.dir);
    var k: int := RightTurns(Sectors(g, l), e.dir, 0);
    TurnLinks(g, l, e.dir, 4 - k);
    TurnedTwice(e.dir, 3 - k, 1);
  }

  lemma {:induction false} TraceLinks(g: Grid, path: seq<Edge>, n: nat)
    requires g.Valid() && Trace(g, path) && n < |path|
    ensures g.Boundary(path[0]) && g.Boundary(path[n]) && Linked(g, WallLeft(g, path[0]), WallLeft(g, path[n]))
    decreases n
  {
    hide Grid.NoEdge, Linked, SectorBlock, Grid.Valid, Step, Turned;
    if n == 0 {
      LeftIsWall(g, path[0]);
      LinkedSelf(g, WallLeft(g, path[0]));
    } else {
      TraceLinks(g, path, n - 1);
      StepLinks(g, path[n - 1]);
      LinkedTrans(g, WallLeft(g, path[0]), WallLeft(g, path[n - 1]), WallLeft(g, path[n]));
    }
  }

  lemma LeftIsWall(g: Grid, e: Edge)
    requires g.Valid() && g.Boundary(e)
    ensures Wall(g.At(WallLeft(g, e)))
  {
    SectorIsWall(g, e.at, Turned(e.dir, 1));
  }

  // --------------------------------------------------------- numbering the parts

  /** Blocks b and c have the same number. */
  predicate SamePart(parts: map<Loc, Part>, b: Loc, c: Loc) {
    b in parts && c in parts && parts[b].num == parts[c].num
  }

  /** What is known of each numbered block: it is linked to the first block of its part. */
  ghost predicate Numbered(g: Grid, parts: map<Loc, Part>, seeds: seq<Loc>)
    requires g.Valid()
  {
    && (forall c <- parts :: parts[c].num < |seeds| && g.Wrap(parts[c].x, parts[c].y) == c)
    && (forall c <- parts :: Linked(g, seeds[parts[c].num], c))
    && (forall k | 0 <= k < |seeds| :: seeds[k] in parts && parts[seeds[k]] == Part(k, seeds[k].x, seeds[k].y))
  }

  /** Blocks whose neighbours are still to be looked at: listed in left, at unwrapped
      coordinates, or in open. All belong to the newest part. */
  ghost predicate Pending(g: Grid, left: seq<Loc>, open: set<Loc>, c: Loc)
    requires g.Valid()
  {
    c in open || exists k :: 0 <= k < |left| && g.Wrap(left[k].x, left[k].y) == c
  }

  ghost predicate Growing(g: Grid, parts: map<Loc, Part>, seeds: seq<Loc>, left: seq<Loc>, open: set<Loc>)
    requires g.Valid()
  {
    && Numbered(g, parts, seeds)
    && (forall c | Pending(g, left, open, c) :: c in parts && parts[c].num == |seeds| - 1)
    && (forall c, d: Dir | c in parts && Joined(g, c, d) ::
          SamePart(parts, c, g.Move(c, d)) || Pending(g, left, open, c))
  }

  /** Two blocks of wall have one number exactly if they are linked. */
  ghost predicate Parted(g: Grid, parts: map<Loc, Part>, partcount: nat)
    requires g.Valid()
  {
    && PartsFit(g, parts, partcount)
    && (forall c <- parts :: g.Inside(c) && Wall(g.At(c)))
    && (forall b, c | b in parts && c in parts :: parts[b].num == parts[c].num <==> Linked(g, b, c))
    && (forall k | 0 <= k < partcount :: InUse(parts, k))
  }

  /** The first block of a part has its own coordinates. */
  ghost predicate InUse(parts: map<Loc, Part>, k: nat) {
    exists c :: c in parts && parts[c] == Part(k, c.x, c.y)
  }

  ghost function Blocks(g: Grid): set<Loc>
    requires g.Valid()
  {
    set x, y | 0 <= x < g.width && 0 <= y < g.height && Wall(g.At(Loc(x, y))) :: Loc(x, y)
  }

  lemma NumberedFit(g: Grid, parts: map<Loc, Part>, seeds: seq<Loc>)
    requires g.Valid() && Numbered(g, parts, seeds)
    ensures parts.Keys <= Blocks(g) && forall c <- parts :: g.Inside(c) && Wall(g.At(c))
  {
    forall c <- parts
      ensures c in Blocks(g) && g.Inside(c) && Wall(g.At(c))
    {
      LinkedEnds(g, seeds[parts[c].num], c);
      assert c == Loc(c.x, c.y);
    }
  }

  /** A new part begins with one block. */
  lemma PartBegins(g: Grid, parts: map<Loc, Part>, seeds: seq<Loc>, c: Loc)
    requires g.Valid() && Growing(g, parts, seeds, [], {}) && g.Inside(c) && Wall(g.At(c)) && c !in parts
    ensures g.Wrap(c.x, c.y) == c
    ensures Growing(g, parts[c := Part(|seeds|, c.x, c.y)], seeds + [c], [c], {})
  {
    hide Joined, Linked, Grid.At, Grid.Move;
    WrapInside(g, c);
    LinkedSelf(g, c);
    assert [c][0] == c;
    assert Pending(g, [c], {}, c);
  }

  /** The last block listed is taken off the list. */
  lemma BlockTaken(g: Grid, parts: map<Loc, Part>, seeds: seq<Loc>, left: seq<Loc>)
    requires g.Valid() && Growing(g, parts, seeds, left, {}) && left != []
    ensures var last := left[|left| - 1];
            Growing(g, parts, seeds, left[..|left| - 1], {g.Wrap(last.x, last.y)})
  {
    hide Numbered, Joined, Grid.Move, Grid.Wrap;
    var last := left[|left| - 1];
    forall c
      ensures Pending(g, left, {}, c) <==> Pending(g, left[..|left| - 1], {g.Wrap(last.x, last.y)}, c)
    {
      if Pending(g, left, {}, c) {
        var k :| 0 <= k < |left| && g.Wrap(left[k].x, left[k].y) == c;
        if k < |left| - 1 {
          assert left[..|left| - 1][k] == left[k];
        }
      }
    }
  }

  /** A joined block without a number gets that of the newest part and is listed. */
  lemma BlockJoins(g: Grid, parts: map<Loc, Part>, seeds: seq<Loc>, left: seq<Loc>, c: Loc, d: Dir, at: Loc)
    requires g.Valid() && Growing(g, parts, seeds, left, {c}) && Joined(g, c, d)
    requires g.Wrap(at.x, at.y) == g.Move(c, d) && g.Move(c, d) !in parts && |seeds| > 0
    ensures Growing(g, parts[g.Move(c, d) := Part(|seeds| - 1, at.x, at.y)], seeds, left + [at], {c})
  {
    hide Joined, Linked, Grid.Move, Grid.Wrap;
    var b := g.Move(c, d);
    var after := parts[b := Part(|seeds| - 1, at.x, at.y)];
    assert Pending(g, left, {c}, c);
    JoinedWalls(g, c, d);
    LinkedStep(g, seeds[|seeds| - 1], c, b);
    forall a
      ensures Pending(g, left + [at], {c}, a) <==> Pending(g, left, {c}, a) || a == b
    {
      if Pending(g, left, {c}, a) && a != c {
        var k :| 0 <= k < |left| && g.Wrap(left[k].x, left[k].y) == a;
        assert (left + [at])[k] == left[k];
      }
      assert (left + [at])[|left|] == at;
    }
    assert Numbered(g, after, seeds);
  }

  /** A joined block that has a number already has that of the newest part. */
  lemma BlockKnown(g: Grid, parts: map<Loc, Part>, seeds: seq<Loc>, left: seq<Loc>, c: Loc, d: Dir)
    requires g.Valid() && Growing(g, parts, seeds, left, {c}) && Joined(g, c, d) && g.Move(c, d) in parts
    ensures SamePart(parts, c, g.Move(c, d))
  {
    hide Grid.Move, Grid.At, Grid.Wrap, Numbered;
    var b := g.Move(c, d);
    assert Pending(g, left, {c}, c);
    MoveBack(g, c, d);
    TurnedTwice(d, 4, 4);
    TurnedAround(d);
    InsideNow(g, c, d);
    assert Joined(g, b, Turned(d, 4));
  }

  lemma TurnedAround(d: Dir)
    ensures Turned(d, 8) == d
  {
  }

  lemma InsideNow(g: Grid, c: Loc, d: Dir)
    requires g.Valid()
    ensures g.Inside(g.Move(c, d))
  {
  }

  /** With all neighbours seen to, nothing is open. */
  lemma BlockDone(g: Grid, parts: map<Loc, Part>, seeds: seq<Loc>, left: seq<Loc>, c: Loc)
    requires g.Valid() && Growing(g, parts, seeds, left, {c})
    requires forall d: Dir | Joined(g, c, d) :: SamePart(parts, c, g.Move(c, d))
    ensures Growing(g, parts, seeds, left, {})
  {
    hide Grid.Move, Grid.At, Grid.Wrap, Numbered, Joined;
    forall a
      ensures Pending(g, left, {}, a) ==> Pending(g, left, {c}, a)
      ensures Pending(g, left, {c}, a) ==> Pending(g, left, {}, a) || a == c
    {
    }
  }

  lemma {:induction false} ChainInPart(g: Grid, parts: map<Loc, Part>, p: seq<Loc>, n: nat)
    requires g.Valid() && Chain(g, p) && n < |p| && p[0] in parts
    requires forall c, d: Dir | c in parts && Joined(g, c, d) :: SamePart(parts, c, g.Move(c, d))
    ensures SamePart(parts, p[0], p[n])
    decreases n
  {
    hide Joined, Grid.Move, Grid.At;
    if n > 0 {
      ChainInPart(g, parts, p, n - 1);
      assert WallNext(g, p[n - 1], p[n]);
    }
  }

  lemma AllParted(g: Grid, parts: map<Loc, Part>, seeds: seq<Loc>)
    requires g.Valid() && Growing(g, parts, seeds, [], {})
    requires forall c | g.Inside(c) && Wall(g.At(c)) :: c in parts
    ensures Parted(g, parts, |seeds|)
  {
    hide Growing, Numbered, Grid.Move, Grid.At, Grid.Wrap, Grid.Valid, Linked, Wall, InUse, PartsFit;
    SeedsNumbered(g, parts, seeds);
    NumbersFit(g, parts, seeds);
    forall b, c | b in parts && c in parts
      ensures parts[b].num == parts[c].num <==> Linked(g, b, c)
    {
      NumbersTell(g, parts, seeds, b, c);
    }
  }

  lemma NumbersFit(g: Grid, parts: map<Loc, Part>, seeds: seq<Loc>)
    requires g.Valid() && Growing(g, parts, seeds, [], {})
    requires forall c | g.Inside(c) && Wall(g.At(c)) :: c in parts
    ensures PartsFit(g, parts, |seeds|) && forall c <- parts :: g.Inside(c) && Wall(g.At(c))
  {
    NumberedFit(g, parts, seeds);
    hide Linked, Grid.Wrap, Grid.Valid, Wall, Grid.At;
  }

  lemma SeedsNumbered(g: Grid, parts: map<Loc, Part>, seeds: seq<Loc>)
    requires g.Valid() && Growing(g, parts, seeds, [], {})
    ensures forall k | 0 <= k < |seeds| :: InUse(parts, k)
  {
    hide Linked, Grid.Wrap, Grid.Valid;
    forall k | 0 <= k < |seeds|
      ensures InUse(parts, k)
    {
      assert seeds[k] in parts;
    }
  }

  lemma NumbersTell(g: Grid, parts: map<Loc, Part>, seeds: seq<Loc>, b: Loc, c: Loc)
    requires g.Valid() && Growing(g, parts, seeds, [], {}) && b in parts && c in parts
    ensures parts[b].num == parts[c].num <==> Linked(g, b, c)
  {
    hide Joined, Grid.Move, Grid.At, Grid.Wrap, Linked, Grid.Valid;
    if parts[b].num == parts[c].num {
      LinkedBack(g, seeds[parts[b].num], b);
      LinkedTrans(g, b, seeds[parts[b].num], c);
    }
    if Linked(g, b, c) {
      LinkedInPart(g, parts, b, c);
    }
  }

  lemma LinkedInPart(g: Grid, parts: map<Loc, Part>, b: Loc, c: Loc)
    requires g.Valid() && Linked(g, b, c) && b in parts
    requires forall a, d: Dir | a in parts && Joined(g, a, d) :: SamePart(parts, a, g.Move(a, d))
    ensures SamePart(parts, b, c)
  {
    hide Chain, Linked, Grid.Valid;
    var p := SomeChain(g, b, c);
    ChainInPart(g, parts, p, |p| - 1);
  }

  lemma NoPartYet(g: Grid)
    requires g.Valid()
    ensures Growing(g, map[], [], [], {})
  {
  }

  lemma JoinedWays(g: Grid, c: Loc)
    requires g.Valid() && g.Inside(c)
    ensures forall d: Dir :: Joined(g, c, d) <==> d in Ways(g.At(c)) && Turned(d, 4) in Ways(g.At(g.Move(c, d)))
  {
  }

  /** Looks at the neighbours of the block at (x2, y2), and numbers and lists those that join it. */
  method LookRound(g: Grid, parts0: map<Loc, Part>, left0: seq<Loc>, num: nat, x2: int, y2: int, ghost seeds: seq<Loc>)
    returns (mapparts: map<Loc, Part>, left: seq<Loc>)
    requires g.Valid() && |seeds| == num + 1
    requires Growing(g, parts0, seeds, left0, {g.Wrap(x2, y2)})
    ensures Growing(g, mapparts, seeds, left, {})
    ensures parts0.Keys <= mapparts.Keys && (mapparts.Keys == parts0.Keys ==> left == left0)
  {
    hide Growing, Joined, Grid.Move, Grid.Wrap, Grid.At, Ways, SamePart, Grid.Valid;
    mapparts, left := parts0, left0;
    ghost var c := g.Wrap(x2, y2);
    JoinedWays(g, c);
    var ways := Ways(g.At(g.Wrap(x2, y2)));
    for i := 0 to |ways|
      invariant Growing(g, mapparts, seeds, left, {c})
      invariant parts0.Keys <= mapparts.Keys && (mapparts.Keys == parts0.Keys ==> left == left0)
      invariant forall j | 0 <= j < i && Joined(g, c, ways[j]) :: SamePart(mapparts, c, g.Move(c, ways[j]))
    {
      var d := ways[i];
      var x3, y3 := x2 + DirX(d), y2 + DirY(d);
      var at := g.Wrap(x3, y3);
      NextAt(g, x2, y2, d);
      var other := g.At(at);
      if !Wall(other) || Turned(d, 4) !in Ways(other) {
        continue;
      }
      if at !in mapparts {
        BlockJoins(g, mapparts, seeds, left, c, d, Loc(x3, y3));
        ghost var before := mapparts;
        left := left + [Loc(x3, y3)];
        mapparts := mapparts[at := Part(num, x3, y3)];
        StillSame(before, mapparts, at);
      }
      BlockKnown(g, mapparts, seeds, left, c, d);
    }
    BlockDone(g, mapparts, seeds, left, c);
  }

  lemma NextAt(g: Grid, x: int, y: int, d: Dir)
    requires g.Valid()
    ensures g.Inside(g.Wrap(x, y)) && g.Inside(g.Wrap(x + DirX(d), y + DirY(d)))
    ensures g.Wrap(x + DirX(d), y + DirY(d)) == g.Move(g.Wrap(x, y), d)
  {
    AddMod(x, DirX(d), g.width);
    AddMod(y, DirY(d), g.height);
  }

  lemma StillSame(before: map<Loc, Part>, after: map<Loc, Part>, at: Loc)
    requires at !in before && at in after && after == before[at := after[at]]
    ensures forall b, c | SamePart(before, b, c) :: SamePart(after, b, c)
  {
  }

  /** Numbers all blocks that are linked to block c. */
  method NumberPart(g: Grid, parts0: map<Loc, Part>, num: nat, c: Loc, ghost seeds0: seq<Loc>)
    returns (mapparts: map<Loc, Part>, ghost seeds: seq<Loc>)
    requires g.Valid() && |seeds0| == num && Growing(g, parts0, seeds0, [], {})
    requires g.Inside(c) && Wall(g.At(c)) && c !in parts0
    ensures |seeds| == num + 1 && Growing(g, mapparts, seeds, [], {})
    ensures parts0.Keys <= mapparts.Keys && c in mapparts
  {
    hide Growing, Grid.Move, Grid.Wrap, Grid.At, Grid.Valid, Wall;
    PartBegins(g, parts0, seeds0, c);
    var left := [c];
    mapparts := parts0[c := Part(num, c.x, c.y)];
    seeds := seeds0 + [c];
    while left != []
      invariant Growing(g, mapparts, seeds, left, {})
      invariant parts0.Keys <= mapparts.Keys && c in mapparts
      decreases |Blocks(g) - mapparts.Keys|, |left|
    {
      ghost var before := mapparts.Keys;
      BlockTaken(g, mapparts, seeds, left);
      var last := left[|left| - 1];
      left := left[..|left| - 1];
      mapparts, left := LookRound(g, mapparts, left, num, last.x, last.y, seeds);
      FewerLeft(g, before, mapparts, seeds, left);
    }
  }

  lemma FewerLeft(g: Grid, before: set<Loc>, parts: map<Loc, Part>, seeds: seq<Loc>, left: seq<Loc>)
    requires g.Valid() && before <= parts.Keys && Growing(g, parts, seeds, left, {})
    ensures |Blocks(g) - parts.Keys| <= |Blocks(g) - before|
    ensures before != parts.Keys ==> |Blocks(g) - parts.Keys| < |Blocks(g) - before|
  {
    NumberedFit(g, parts, seeds);
    hide Blocks, Numbered;
    var now, was := Blocks(g) - parts.Keys, Blocks(g) - before;
    assert was == now + (parts.Keys - before);
  }

  /** Numbers the parts of the map, and gives each block coordinates that are not wrapped. */
  method PolyPartition(g: Grid) returns (mapparts: map<Loc, Part>, partnum: nat)
    requires g.Valid()
    ensures Parted(g, mapparts, partnum)
  {
    hide Growing, Grid.Move, Grid.Wrap, Grid.At, Wall;
    mapparts, partnum := map[], 0;
    ghost var seeds: seq<Loc> := [];
    NoPartYet(g);
    for y := 0 to g.height
      invariant Growing(g, mapparts, seeds, [], {}) && |seeds| == partnum
      invariant forall c | g.Inside(c) && c.y < y && Wall(g.At(c)) :: c in mapparts
    {
      for x := 0 to g.width
        invariant Growing(g, mapparts, seeds, [], {}) && |seeds| == partnum
        invariant forall c | g.Inside(c) && (c.y < y || (c.y == y && c.x < x)) && Wall(g.At(c)) :: c in mapparts
      {
        var c := Loc(x, y);
        if Wall(g.At(c)) && c !in mapparts {
          mapparts, seeds := NumberPart(g, mapparts, partnum, c, seeds);
          partnum := partnum + 1;
        }
      }
    }
    AllParted(g, mapparts, seeds);
  }

  /** The polygons filed under a part are outlines of its blocks: each edge of each of them
      has a block of that part on its left. */
  lemma OutlinesOnePart(g: Grid, mapparts: map<Loc, Part>, partcount: nat, polys: seq<seq<seq<Point>>>,
                        starts: seq<seq<Edge>>, k: nat, i: nat, j: nat)
    requires g.Valid() && Parted(g, mapparts, partcount) && Gathered(g, mapparts, partcount, polys, starts)
    requires k < |polys| && i < |polys[k]| && j < |polys[k][i]|
    ensures var e := EdgeOf(g, polys[k][i][j]);
            g.Boundary(e) && g.Inside(e.at) && WallLeft(g, e) in mapparts && mapparts[WallLeft(g, e)].num == k
  {
    hide Linked, Grid.Boundary, Grid.Valid, Orbit, TracedOnce, OutlineOf, WallLeft, Trace, EdgeOf;
    var first := starts[k][i];
    assert OutlinesPart(g, mapparts, first, k);
    var path := Orbit(g, first);
    PointIsEdge(g, polys[k][i], first, j);
    TraceLinks(g, path, j);
    InsideEdge(g, path[j]);
    NumberOfLinked(g, mapparts, partcount, WallLeft(g, first), WallLeft(g, path[j]));
  }

  lemma NumberOfLinked(g: Grid, mapparts: map<Loc, Part>, partcount: nat, b: Loc, c: Loc)
    requires g.Valid() && Parted(g, mapparts, partcount) && Linked(g, b, c)
    ensures SamePart(mapparts, b, c)
  {
    hide Linked, Grid.At, Grid.Wrap;
    LinkedEnds(g, b, c);
  }
}
