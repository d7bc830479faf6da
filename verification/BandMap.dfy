/** A map of horizontal bands that partitioning leaves with holes and with too many walls. */
module BandMap {
  import opened RingGraph
  import opened FloodSpec
  import opened LabelOrder
  import opened LabelSpec
  import opened Thinning
  import opened PartitionSpec
  import opened ConnectMap

  /** The sizes and fill ratios that the options allow. */
  predicate Allowed(width: int, height: int, fill: real) {
    90 <= width <= 900 && 90 <= height <= 900 && 0.02 <= fill <= 0.80
  }

  /** The ring of cells of a map: each row has one cell more than the map is wide. */
  function RingOf(width: int, height: int): Ring {
    Ring(width + 1, (width + 1) * height)
  }

  /** Rows 0 to 9, 25 to 30, 46 to 51 and 67 to 72 of 90. */
  predicate InBands(i: int) {
    0 <= i < 910 || 2275 <= i < 2821 || 4186 <= i < 4732 || 6097 <= i < 6643
  }

  /** Four open bands between solid ones. */
  function Bands(): (d: seq<Cell>)
    ensures |d| == 8190 && forall i | 0 <= i < 8190 :: d[i] == if InBands(i) then 0 else 1
  {
    seq(8190, i => if InBands(i) then 0 else 1)
  }

  /** Closing the gaps changes nothing on this map. */
  lemma BandsHaveNoGaps(i: int)
    requires 0 <= i < 8190
    ensures !WindowAt(Ring(91, 8190), Bands(), i).Fires()
  {
  }

  // --------------------------------------------------------------- components

  /** Cells in a row are connected. */
  lemma {:induction false} RunConnected(r: Ring, s: set<int>, i: int, j: int)
    requires r.Valid() && 0 <= i <= j < r.datasize && forall k | i <= k <= j :: k in s
    ensures r.Connected(s, i, j)
    decreases j - i
  {
    if i == j {
      ConnectedSelf(r, s, i);
    } else {
      RunConnected(r, s, i, j - 1);
      ConnectedStep(r, s, j - 1, j);
      ConnectedTrans(r, s, i, j - 1, j);
    }
  }

  ghost predicate Leaves(r: Ring, s: set<int>, lo: int, hi: int)
    requires r.Valid()
  {
    exists a, b :: lo <= a < hi && b in s && !(lo <= b < hi) && r.Adjacent(a, b)
  }

  /** A stretch of the ring that no step within s leaves is a component of s. */
  lemma StretchIsComponent(r: Ring, s: set<int>, lo: int, hi: int, i: int)
    requires r.Valid() && 0 <= lo <= i < hi <= r.datasize
    requires (forall k | lo <= k < hi :: k in s) && !Leaves(r, s, lo, hi)
    ensures r.Component(s, i) == Range(lo, hi)
  {
    forall j
      ensures j in r.Component(s, i) <==> lo <= j < hi
    {
      if lo <= j < hi {
        RunConnected(r, s, if i <= j then i else j, if i <= j then j else i);
        if j < i {
          ConnectedBack(r, s, j, i);
        }
      }
      if r.Connected(s, i, j) {
        ConnectedStaysIn(r, s, Range(lo, hi), i, j);
      }
    }
  }

  /** The first cell of each band, and the cell after its last. */
  predicate Band(lo: int, hi: int) {
    (lo == 0 && hi == 910) || (lo == 2275 && hi == 2821) || (lo == 4186 && hi == 4732) || (lo == 6097 && hi == 6643)
  }

  lemma InOneBand(i: int) returns (lo: int, hi: int)
    requires InBands(i)
    ensures Band(lo, hi) && lo <= i < hi
  {
    if i < 910 {
      lo, hi := 0, 910;
    } else if i < 2821 {
      lo, hi := 2275, 2821;
    } else if i < 4732 {
      lo, hi := 4186, 4732;
    } else {
      lo, hi := 6097, 6643;
    }
  }

  lemma OpenCells()
    ensures Holding(Bands(), 0) == Range(0, 910) + Range(2275, 2821) + Range(4186, 4732) + Range(6097, 6643)
    ensures |Holding(Bands(), 0)| == 2548
  {
    var a, b, c, e := Range(0, 910), Range(2275, 2821), Range(4186, 4732), Range(6097, 6643);
    forall j
      ensures j in Holding(Bands(), 0) <==> j in a + b + c + e
    {
      assert j in Holding(Bands(), 0) <==> InBands(j);
    }
    RangeSize(0, 910);
    RangeSize(2275, 2821);
    RangeSize(4186, 4732);
    RangeSize(6097, 6643);
    DisjointSizes(a, b);
    DisjointSizes(a + b, c);
    DisjointSizes(a + b + c, e);
  }

  lemma DisjointSizes(a: set<int>, b: set<int>)
    requires a !! b
    ensures |a + b| == |a| + |b|
  {
  }

  /** Each band is a component of the open cells. */
  lemma BandIsComponent(lo: int, hi: int, i: int)
    requires Band(lo, hi) && lo <= i < hi
    ensures Ring(91, 8190).Component(Holding(Bands(), 0), i) == Range(lo, hi)
  {
    var r := Ring(91, 8190);
    var s := Holding(Bands(), 0);
    assert forall k | 0 <= k < 8190 :: k in s <==> InBands(k);
    assert !Leaves(r, s, lo, hi);
    StretchIsComponent(r, s, lo, hi, i);
  }

  lemma FewOpen()
    ensures |Holding(Bands(), 0)| == 2548
  {
    OpenCells();
  }

  lemma InAnyBand(lo: int, hi: int, i: int)
    requires Band(lo, hi) && lo <= i < hi
    ensures i in Holding(Bands(), 0)
  {
  }

  /** All bands are big enough to keep a label, so each has one of its own. */
  lemma BandKeepsLabel(d: seq<Cell>, lo: int, hi: int, i: int)
    requires WellLabelled(Ring(91, 8190), Holding(Bands(), 0), d) && Band(lo, hi) && lo <= i < hi
    ensures |d| == 8190 && d[i] >= 2 && Holding(d, d[i]) == Range(lo, hi)
  {
    hide Ring.Component, Ring.Connected, Components, InBands;
    var r := Ring(91, 8190);
    var s := Holding(Bands(), 0);
    FewOpen();
    RangeSize(lo, hi);
    BandIsComponent(lo, hi, i);
    InAnyBand(lo, hi, i);
    LabelIsComponent(r, s, d, i);
  }

  ghost predicate BandLabels(d: seq<Cell>) {
    && |d| == 8190
    && (forall i | 0 <= i < 8190 :: d[i] >= 2 <==> InBands(i))
    && (forall i | 0 <= i < 8190 :: d[i] >= 2 || d[i] == 0)
    && (forall lo, hi, i | Band(lo, hi) && lo <= i < hi :: Holding(d, d[i]) == Range(lo, hi))
  }

  lemma LabelsOfBands(d: seq<Cell>)
    requires WellLabelled(Ring(91, 8190), Holding(Bands(), 0), d)
    ensures BandLabels(d)
  {
    hide Ring.Component, Ring.Connected, Components, BigOnesKept;
    assert |d| == 8190;
    forall i | 0 <= i < 8190
      ensures d[i] >= 2 || d[i] == 0
      ensures d[i] >= 2 <==> InBands(i)
    {
      if InBands(i) {
        var lo, hi := InOneBand(i);
        BandKeepsLabel(d, lo, hi, i);
      }
    }
    forall lo, hi, i | Band(lo, hi) && lo <= i < hi
      ensures Holding(d, d[i]) == Range(lo, hi)
    {
      BandKeepsLabel(d, lo, hi, i);
    }
  }

  /** No label outnumbers the walls, so the walls and the spaces change places. */
  lemma NoMainBand(first: seq<Cell>, marker: int)
    requires BandLabels(first) && MainLabel(first, marker)
    ensures marker == 0 && Outside(first, marker) == Holding(Bands(), 0)
  {
    OpenOf(first);
    if marker != 0 {
      NoBandOutnumbers(first, marker);
    }
  }

  lemma OpenOf(d: seq<Cell>)
    requires BandLabels(d)
    ensures |Holding(d, 0)| == 5642
  {
    FewOpen();
    forall j
      ensures j in Range(0, 8190) <==> j in Holding(d, 0) || j in Holding(Bands(), 0)
      ensures !(j in Holding(d, 0) && j in Holding(Bands(), 0))
    {
    }
    DisjointSizes(Holding(d, 0), Holding(Bands(), 0));
    RangeSize(0, 8190);
    assert Range(0, 8190) == Holding(d, 0) + Holding(Bands(), 0);
  }

  lemma NoBandOutnumbers(d: seq<Cell>, v: int)
    requires BandLabels(d) && v >= 2
    ensures |Holding(d, v)| <= 910
  {
    if i :| i in Holding(d, v) {
      var lo, hi := InOneBand(i);
      RangeSize(lo, hi);
    } else {
      assert Holding(d, v) == {};
    }
  }

  lemma BandLabel(d: seq<Cell>, lo: int, hi: int, i: int)
    requires BandLabels(d) && Band(lo, hi) && lo <= i < hi
    ensures d[i] >= 2 && Holding(d, d[i]) == Range(lo, hi) && |Holding(d, d[i])| == hi - lo
  {
    RangeSize(lo, hi);
    assert InBands(i);
  }

  /** Whichever label goes, the labels after it do not include the widest band. */
  lemma WidestFirst(d: seq<Cell>, i: int)
    requires BandLabels(d) && 0 <= i < 8190 && InBands(i)
    ensures |Behind(d, d[i])| <= 1638
  {
    var lo, hi := InOneBand(i);
    BandLabel(d, lo, hi, i);
    hide BandLabels;
    forall j | 0 <= j < 910
      ensures j !in Behind(d, d[i])
    {
      BandLabel(d, 0, 910, j);
      if lo == 0 {
        assert j in Holding(d, d[i]);
      }
    }
    InNarrowBands(d, Behind(d, d[i]));
  }

  lemma InNarrowBands(d: seq<Cell>, b: set<int>)
    requires |d| == 8190 && forall j <- b :: 910 <= j < 8190 && InBands(j)
    ensures |b| <= 1638
  {
    OpenCells();
    RangeSize(0, 910);
    DisjointSizes(Range(0, 910), b);
    SubsetSize(Range(0, 910) + b, Holding(Bands(), 0));
  }

  lemma AllBandsSmall(d: seq<Cell>)
    requires BandLabels(d)
    ensures forall i | 0 <= i < 8190 :: Small(d, 1729, d[i]) <==> InBands(i)
    ensures |SmallCells(d, 1729)| == 2548
  {
    forall i | 0 <= i < 8190
      ensures Small(d, 1729, d[i]) <==> InBands(i)
    {
      if InBands(i) {
        WidestFirst(d, i);
      }
    }
    FewOpen();
    hide Small;
    assert SmallCells(d, 1729) == Holding(Bands(), 0);
  }

  /** The narrow bands are all spared, each on account of the others. */
  lemma NarrowSpared(d: seq<Cell>, i: int)
    requires BandLabels(d) && 0 <= i < 8190 && InBands(i)
    ensures Spared(d, 1729, d[i]) <==> i >= 910
  {
    AllBandsSmall(d);
    var lo, hi := InOneBand(i);
    BandLabel(d, lo, hi, i);
    hide SmallCells;
    forall w | Small(d, 1729, w)
      ensures |Holding(d, w)| <= 910
    {
      SmallIsLabel(d, 1729, w);
      NoBandOutnumbers(d, w);
    }
    hide Small, BandLabels;
  }

  lemma WidestGoes(d: seq<Cell>, f: seq<Cell>)
    requires BandLabels(d) && Thinned(Ring(91, 8190), 0.1, d, f)
    ensures |f| == 8190 && forall i | 0 <= i < 8190 :: f[i] == 0 <==> !(InBands(i) && i >= 910)
  {
    OpenOf(d);
    AllBandsSmall(d);
    assert Wanted(8190, 0.1) == 819.5.Floor == 819;
    assert Excess(8190, 5642, 0.1) == 1729;
    hide Small, Spared;
    forall i | 0 <= i < 8190
      ensures f[i] == 0 <==> !(InBands(i) && i >= 910)
    {
      if InBands(i) {
        NarrowSpared(d, i);
      }
    }
  }

  /** What the narrow bands leave open lies on both sides of them. */
  lemma BandsCut(f: seq<Cell>)
    requires |f| == 8190 && forall i | 0 <= i < 8190 :: f[i] == 0 <==> !(InBands(i) && i >= 910)
    ensures !Ring(91, 8190).OneRegion(Holding(f, 0)) && |Holding(f, 0)| == 6552
  {
    var r := Ring(91, 8190);
    var z := Holding(f, 0);
    assert 910 in z && 2821 in z;
    if r.Connected(z, 2821, 910) {
      assert !Leaves(r, z, 2821, 4186);
      ConnectedStaysIn(r, z, Range(2821, 4186), 2821, 910);
    }
    var walls := Holding(Bands(), 0) - Range(0, 910);
    WallsLeft();
    RangeSize(0, 8190);
    DisjointSizes(z, walls);
    assert Range(0, 8190) == z + walls;
  }

  lemma WallsLeft()
    ensures |Holding(Bands(), 0) - Range(0, 910)| == 1638
  {
    OpenCells();
    RangeSize(0, 910);
    DisjointSizes(Range(0, 910), Holding(Bands(), 0) - Range(0, 910));
    assert Holding(Bands(), 0) == Range(0, 910) + (Holding(Bands(), 0) - Range(0, 910));
  }

  /** On an allowed map that has no gaps to close, partitioning leaves open cells shut off from
      each other, and twice as many walls as wanted: it clears one band of ten rows and none of
      the three bands of six rows, with more than eighteen rows to go. */
  lemma HolesAndWallsStay(first: seq<Cell>, marker: int, second: seq<Cell>, d: seq<Cell>)
    requires Partitioned(RingOf(90, 90), 0.1, Bands(), first, marker, second, d)
    ensures Allowed(90, 90, 0.1) && NothingFires(RingOf(90, 90), Bands(), 8190)
    ensures !RingOf(90, 90).OneRegion(Holding(d, 0))
    ensures Wanted(8190, 0.1) == 819 && 8190 - |Holding(d, 0)| == 1638
  {
    hide InBands, Ring.OneRegion, WellLabelled, BandLabels, MainLabel;
    assert RingOf(90, 90) == Ring(91, 8190);
    forall i | 0 <= i < 8190
      ensures !WindowAt(Ring(91, 8190), Bands(), i).Fires()
    {
      BandsHaveNoGaps(i);
    }
    LabelsOfBands(first);
    NoMainBand(first, marker);
    LabelsOfBands(second);
    WidestGoes(second, d);
    BandsCut(d);
    assert Wanted(8190, 0.1) == 819.5.Floor == 819;
  }
}
