/** What partitioning leaves of a map, and why it has no holes. */
module PartitionSpec {
  import opened RingGraph
  import opened FloodSpec
  import opened LabelOrder
  import opened LabelSpec
  import opened Thinning

  /** Labelled, with every component kept if there are labels for all of them,
      and in any case if it has more than one in 223 cells. */
  ghost predicate WellLabelled(r: Ring, s: set<int>, d: seq<Cell>)
    requires r.Valid()
  {
    && Labelled(r, s, d)
    && BigOnesKept(r, s, d)
    && (|Components(r, s)| <= 254 ==> forall j <- s :: 0 <= j < |d| && d[j] != 0)
  }

  /** The first of the values 0, 2, 3, ..., 255 that most cells carry. */
  ghost predicate MainLabel(d: seq<Cell>, marker: int) {
    && (marker == 0 || 2 <= marker < 256)
    && (forall v | 2 <= v < 256 :: |Holding(d, marker)| >= |Holding(d, v)|)
    && (forall v | 2 <= v < marker :: |Holding(d, marker)| > |Holding(d, v)|)
    && (marker != 0 ==> |Holding(d, marker)| > |Holding(d, 0)|)
  }

  ghost function Outside(d: seq<Cell>, marker: int): set<int> {
    set j | 0 <= j < |d| && d[j] != marker
  }

  /** The stages of partitioning map d0: its open cells labelled, the biggest
      value found picked out, the rest labelled, and some of the rest cleared. */
  ghost predicate Partitioned(r: Ring, fill: real, d0: seq<Cell>, first: seq<Cell>, marker: int, second: seq<Cell>,
                              d: seq<Cell>)
    requires r.Valid()
  {
    && |d0| == r.datasize
    && WellLabelled(r, Holding(d0, 0), first)
    && MainLabel(first, marker)
    && WellLabelled(r, Outside(first, marker), second)
    && Thinned(r, fill, second, d)
  }

  lemma LabelIsRegion(r: Ring, s: set<int>, d: seq<Cell>, v: int)
    requires r.Valid() && Labelled(r, s, d) && v != 0
    ensures r.OneRegion(Holding(d, v))
  {
    var b := Holding(d, v);
    forall i, j | i in b && j in b
      ensures r.Connected(b, i, j)
    {
      var p :| r.Walk(s, p) && p[0] == i && p[|p| - 1] == j;
      forall n | 0 <= n < |p|
        ensures p[n] in b
      {
        LabelAlongWalk(r, s, d, p, n);
      }
      assert r.Walk(b, p);
    }
  }

  lemma LabelAlongWalk(r: Ring, s: set<int>, d: seq<Cell>, p: seq<int>, n: nat)
    requires r.Valid() && Labelled(r, s, d) && r.Walk(s, p) && n < |p|
    ensures r.Has(p[0]) && r.Has(p[n]) && d[p[n]] == d[p[0]]
  {
    hide Ring.Adjacent;
    assert r.Walk(s, p[..n + 1]);
    assert r.Connected(s, p[0], p[n]);
  }

  lemma SomeOf<T>(b: set<T>) returns (y: T)
    requires b != {}
    ensures y in b
  {
    y :| y in b;
  }

  /** A component of what surrounds a region touches the region. */
  lemma ComponentTouches(r: Ring, b: set<int>, t: set<int>, z: int) returns (a: int, c: int)
    requires r.Valid() && b != {} && z in t && b !! t
    requires forall j :: r.Has(j) <==> j in b || j in t
    ensures a in t && r.Connected(t, z, a) && c in b && r.Adjacent(a, c)
  {
    var y := SomeOf(b);
    var part := r.Component(t, z);
    ConnectedSelf(r, t, z);
    if k :| k in part && r.Has(k) && r.Right(k) !in part {
      a, c := k, r.Right(k);
      if c in t {
        ConnectedStep(r, t, a, c);
        ConnectedTrans(r, t, z, a, c);
        assert false;
      }
    } else {
      RingClosed(r, part, z, y);
      assert false;
    }
  }

  /** A region stays one region when whole surrounding components join it. */
  lemma RegionGrows(r: Ring, b: set<int>, t: set<int>, second: seq<Cell>, z: set<int>, i: int) returns (c: int)
    requires r.Valid() && b != {} && b !! t && b <= z && i in z
    requires forall j :: r.Has(j) <==> j in b || j in t
    requires Labelled(r, t, second) && z <= b + t
    requires forall x, y | 0 <= x < |second| && 0 <= y < |second| && x in t && y in t && second[x] == second[y] ::
             x in z ==> y in z
    ensures c in b && r.Connected(z, i, c)
  {
    if i in b {
      c := i;
      ConnectedSelf(r, z, i);
    } else {
      var a;
      a, c := ComponentTouches(r, b, t, i);
      var p :| r.Walk(t, p) && p[0] == i && p[|p| - 1] == a;
      forall n | 0 <= n < |p|
        ensures p[n] in z
      {
        LabelAlongWalk(r, t, second, p, n);
      }
      assert r.Walk(z, p);
      ConnectedStep(r, z, a, c);
      ConnectedTrans(r, z, i, a, c);
    }
  }

  lemma PartsJoinRegion(r: Ring, b: set<int>, t: set<int>, second: seq<Cell>, z: set<int>)
    requires r.Valid() && r.OneRegion(b) && b != {} && b !! t && b <= z
    requires forall j :: r.Has(j) <==> j in b || j in t
    requires Labelled(r, t, second) && z <= b + t
    requires forall x, y | 0 <= x < |second| && 0 <= y < |second| && x in t && y in t && second[x] == second[y] ::
             x in z ==> y in z
    ensures r.OneRegion(z)
  {
    forall i, j | i in z && j in z
      ensures r.Connected(z, i, j)
    {
      var c := RegionGrows(r, b, t, second, z, i);
      var e := RegionGrows(r, b, t, second, z, j);
      ConnectedWider(r, b, z, c, e);
      ConnectedBack(r, z, j, e);
      ConnectedTrans(r, z, i, c, e);
      ConnectedTrans(r, z, i, e, j);
    }
  }

  /** If the cells picked out first are one region, the open cells are in the end. */
  lemma OpenCellsJoin(r: Ring, fill: real, d0: seq<Cell>, first: seq<Cell>, marker: int, second: seq<Cell>,
                      d: seq<Cell>)
    requires r.Valid() && Partitioned(r, fill, d0, first, marker, second, d)
    requires r.OneRegion(Holding(first, marker)) && Holding(first, marker) != {}
    ensures r.OneRegion(Holding(d, 0))
  {
    PartsJoinRegion(r, Holding(first, marker), Outside(first, marker), second, Holding(d, 0));
  }

  /** When no wall is cleared and no label runs out, the open cells are exactly
      the cells picked out, so they are one region if and only if those are. */
  lemma OpenCellsUncleared(r: Ring, fill: real, d0: seq<Cell>, first: seq<Cell>, marker: int, second: seq<Cell>,
                           d: seq<Cell>)
    requires r.Valid() && Partitioned(r, fill, d0, first, marker, second, d)
    requires Excess(r.datasize, |Holding(second, 0)|, fill) < 0
    requires |Components(r, Outside(first, marker))| <= 254
    ensures Holding(d, 0) == Holding(first, marker)
  {
  }

  /** No holes: with an open component bigger than the rest that has label 0,
      all open cells can be reached from each other afterwards, whichever
      walls were cleared and whichever labels ran out. */
  lemma NoHoles(r: Ring, fill: real, d0: seq<Cell>, first: seq<Cell>, marker: int, second: seq<Cell>, d: seq<Cell>)
    requires r.Valid() && Partitioned(r, fill, d0, first, marker, second, d)
    requires LabelOutnumbers(first)
    ensures marker != 0 && r.OneRegion(Holding(d, 0))
  {
    LabelIsRegion(r, Holding(d0, 0), first, marker);
    OpenCellsJoin(r, fill, d0, first, marker, second, d);
  }

  /** What is left of the walls is below the wanted share exactly if no two constructs are spared. */
  lemma RatioMet(r: Ring, fill: real, d0: seq<Cell>, first: seq<Cell>, marker: int, second: seq<Cell>, d: seq<Cell>)
    requires r.Valid() && Partitioned(r, fill, d0, first, marker, second, d)
    ensures Wanted(r.datasize, fill) >= 1 ==>
              (r.datasize - |Holding(d, 0)| < Wanted(r.datasize, fill)
               <==> !TwoSpared(second, Excess(r.datasize, |Holding(second, 0)|, fill)))
  {
    hide Thinned, TwoSpared, Wanted;
    if Wanted(r.datasize, fill) >= 1 {
      RatioMetIff(r, fill, second, d);
    }
  }

  // ------------------------------------------- told from the map handed in

  /** One space has more cells than all walls together. */
  ghost predicate BigSpace(r: Ring, d0: seq<Cell>)
    requires r.Valid()
  {
    exists i :: i in Holding(d0, 0) && |r.Component(Holding(d0, 0), i)| > |Outside(d0, 0)|
  }

  /** One space has more than half of all cells. */
  ghost predicate HugeSpace(r: Ring, d0: seq<Cell>)
    requires r.Valid()
  {
    exists i :: i in Holding(d0, 0) && 2 * |r.Component(Holding(d0, 0), i)| > r.datasize
  }

  ghost predicate LabelOutnumbers(first: seq<Cell>) {
    exists v | 2 <= v < 256 :: |Holding(first, v)| > |Holding(first, 0)|
  }

  lemma LabelIsComponent(r: Ring, s: set<int>, d: seq<Cell>, i: int)
    requires r.Valid() && Labelled(r, s, d) && i in s && r.Has(i) && d[i] != 0
    ensures Holding(d, d[i]) == r.Component(s, i)
  {
    forall j
      ensures j in Holding(d, d[i]) <==> j in r.Component(s, i)
    {
      if j in r.Component(s, i) {
        ConnectedEnds(r, s, i, j);
      }
    }
  }

  /** A label outnumbers label 0 only if a space outnumbers the walls, and does
      if in addition no label ran out or the space fills half of the map. */
  lemma MainFromInput(r: Ring, d0: seq<Cell>, first: seq<Cell>)
    requires r.Valid() && |d0| == r.datasize && WellLabelled(r, Holding(d0, 0), first)
    ensures LabelOutnumbers(first) ==> BigSpace(r, d0)
    ensures BigSpace(r, d0) && |Components(r, Holding(d0, 0))| <= 254 ==> LabelOutnumbers(first)
    ensures HugeSpace(r, d0) ==> LabelOutnumbers(first)
  {
    hide Ring.Connected, Ring.Component, Components;
    var s := Holding(d0, 0);
    SubsetSize(Outside(d0, 0), Holding(first, 0));
    if LabelOutnumbers(first) {
      var v :| 2 <= v < 256 && |Holding(first, v)| > |Holding(first, 0)|;
      var i := SomeOf(Holding(first, v));
      LabelIsComponent(r, s, first, i);
    }
    if BigSpace(r, d0) && |Components(r, s)| <= 254 {
      var i :| i in s && |r.Component(s, i)| > |Outside(d0, 0)|;
      LabelIsComponent(r, s, first, i);
      assert Holding(first, 0) == Outside(d0, 0);
    }
    if HugeSpace(r, d0) {
      HugeIsKept(r, d0, first);
    }
  }

  lemma HugeIsKept(r: Ring, d0: seq<Cell>, first: seq<Cell>)
    requires r.Valid() && |d0| == r.datasize && WellLabelled(r, Holding(d0, 0), first) && HugeSpace(r, d0)
    ensures LabelOutnumbers(first)
  {
    hide Ring.Connected, Ring.Component, Components;
    var s := Holding(d0, 0);
    var i :| i in s && 2 * |r.Component(s, i)| > r.datasize;
    RangeSize(0, r.datasize);
    SubsetSize(s, Range(0, r.datasize));
    LabelIsComponent(r, s, first, i);
    SubsetSize(Holding(first, first[i]) + Holding(first, 0), Range(0, r.datasize));
  }

  /** Without a big space it is the walls that become the open cells, unless more are cleared. */
  lemma WallsBecomeSpace(r: Ring, fill: real, d0: seq<Cell>, first: seq<Cell>, second: seq<Cell>, d: seq<Cell>)
    requires r.Valid() && Partitioned(r, fill, d0, first, 0, second, d)
    requires |Components(r, Holding(d0, 0))| <= 254
    ensures Holding(first, 0) == Outside(d0, 0)
    ensures Excess(r.datasize, |Outside(d0, 0)|, fill) < 0 ==> Holding(d, 0) == Outside(d0, 0)
  {
    assert Holding(first, 0) == Outside(d0, 0);
    assert Outside(first, 0) == Holding(d0, 0);
    assert Holding(second, 0) == Outside(d0, 0);
    if Excess(r.datasize, |Outside(d0, 0)|, fill) < 0 {
      OpenCellsUncleared(r, fill, d0, first, 0, second, d);
    }
  }

  /** When labels suffice, the open cells end up as one region if one space outnumbers the
      walls or if the walls are one region, and if nothing is thinned out only then. */
  lemma OneSpaceIff(r: Ring, fill: real, d0: seq<Cell>, first: seq<Cell>, marker: int, second: seq<Cell>, d: seq<Cell>)
    requires r.Valid() && Partitioned(r, fill, d0, first, marker, second, d)
    requires |Components(r, Holding(d0, 0))| <= 254
    ensures BigSpace(r, d0) || r.OneRegion(Outside(d0, 0)) ==> r.OneRegion(Holding(d, 0))
    ensures Excess(r.datasize, |Outside(d0, 0)|, fill) < 0 && r.OneRegion(Holding(d, 0)) ==>
              BigSpace(r, d0) || r.OneRegion(Outside(d0, 0))
  {
    hide Ring.Component, Components, Thinned;
    MainFromInput(r, d0, first);
    if LabelOutnumbers(first) {
      NoHoles(r, fill, d0, first, marker, second, d);
    } else {
      assert marker == 0;
      hide Ring.OneRegion;
      WallsBecomeSpace(r, fill, d0, first, second, d);
      if r.OneRegion(Outside(d0, 0)) {
        SomeWall(r, d0);
        OpenCellsJoin(r, fill, d0, first, marker, second, d);
      }
    }
  }

  lemma SomeWall(r: Ring, d0: seq<Cell>)
    requires r.Valid() && |d0| == r.datasize
    ensures Outside(d0, 0) == {} ==> BigSpace(r, d0)
  {
    if Outside(d0, 0) == {} {
      assert 0 !in Outside(d0, 0);
      ConnectedSelf(r, Holding(d0, 0), 0);
      assert 0 in r.Component(Holding(d0, 0), 0);
    }
  }
}
