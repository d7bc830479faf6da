/** Which constructs partitioning clears to bring the walls down to the wanted share,
    and when that is enough. */
module Thinning {
  import opened RingGraph
  import opened FloodSpec
  import opened LabelOrder

  /** The number of wall cells that a fill ratio stands for. */
  function Wanted(datasize: int, fill: real): int {
    (fill * datasize as real + 0.5).Floor
  }

  /** It is the whole number nearest to that share of the cells; of two equally near, the bigger. */
  lemma WantedNearest(datasize: int, fill: real, n: int)
    ensures var share := fill * datasize as real;
            Wanted(datasize, fill) == n <==> -0.5 < n as real - share <= 0.5
  {
  }

  /** More cells must go than this to have fewer wall cells than wanted. */
  function Excess(datasize: int, open: int, fill: real): int {
    datasize - open - Wanted(datasize, fill)
  }

  /** The cells with labels that come after v. */
  ghost function Behind(d: seq<Cell>, v: int): set<int> {
    set j | 0 <= j < |d| && d[j] >= 2 && Precedes(d, v, d[j])
  }

  /** The labels to be cleared: those that, with all labels after them gone, are still needed. */
  ghost predicate Small(d: seq<Cell>, excess: int, v: int) {
    2 <= v < 256 && |Behind(d, v)| <= excess
  }

  ghost function SmallCells(d: seq<Cell>, excess: int): set<int> {
    set j | 0 <= j < |d| && Small(d, excess, d[j])
  }

  /** A small label is spared if without it alone enough cells would still go, and
      no small label has more than twice its cells. */
  ghost predicate Spared(d: seq<Cell>, excess: int, v: int) {
    && Small(d, excess, v)
    && |SmallCells(d, excess)| - |Holding(d, v)| > excess
    && (forall w | Small(d, excess, w) :: 2 * |Holding(d, v)| >= |Holding(d, w)|)
  }

  /** f is d without the small labels that are not spared. */
  ghost predicate Cleared(d: seq<Cell>, excess: int, f: seq<Cell>) {
    && |f| == |d|
    && (forall j | 0 <= j < |d| :: f[j] == if Small(d, excess, d[j]) && !Spared(d, excess, d[j]) then 0 else d[j])
  }

  ghost predicate Thinned(r: Ring, fill: real, d: seq<Cell>, f: seq<Cell>) {
    Cleared(d, Excess(r.datasize, |Holding(d, 0)|, fill), f)
  }

  ghost predicate TwoSpared(d: seq<Cell>, excess: int) {
    exists v, w :: v != w && Spared(d, excess, v) && Spared(d, excess, w)
  }

  // ------------------------------------------------- when the ratio is met

  /** Unless all labels are small, the small ones have more cells than must go. */
  lemma SmallSuffice(d: seq<Cell>, excess: int, v: int)
    requires 2 <= v < 256 && !Small(d, excess, v)
    ensures |SmallCells(d, excess)| > excess
    decreases |LabelsAfter(d, v)|
  {
    if w :| 2 <= w < 256 && Precedes(d, v, w) && !Small(d, excess, w) {
      assert w in LabelsAfter(d, v) && w !in LabelsAfter(d, w);
      SubsetSize(LabelsAfter(d, w), LabelsAfter(d, v));
      SmallSuffice(d, excess, w);
    } else {
      SubsetSize(Behind(d, v), SmallCells(d, excess));
    }
  }

  ghost function LabelsAfter(d: seq<Cell>, v: int): set<int> {
    set w | 2 <= w < 256 && Precedes(d, v, w)
  }

  /** Some small label has so many cells that the others would not suffice. */
  lemma BiggestNeeded(d: seq<Cell>, excess: int, v: int) returns (u: int)
    requires Small(d, excess, v)
    ensures Small(d, excess, u) && |SmallCells(d, excess)| - |Holding(d, u)| <= excess
    decreases |LabelsBefore(d, v)|
  {
    if w :| 2 <= w < 256 && Precedes(d, w, v) && Small(d, excess, w) {
      assert w in LabelsBefore(d, v) && w !in LabelsBefore(d, w);
      SubsetSize(LabelsBefore(d, w), LabelsBefore(d, v));
      u := BiggestNeeded(d, excess, w);
    } else {
      u := v;
      SubsetSize(SmallCells(d, excess), Behind(d, v) + Holding(d, v));
    }
  }

  ghost function LabelsBefore(d: seq<Cell>, v: int): set<int> {
    set w | 2 <= w < 256 && Precedes(d, w, v)
  }

  ghost function SparedCells(d: seq<Cell>, excess: int): set<int> {
    set j | 0 <= j < |d| && Spared(d, excess, d[j])
  }

  lemma OpenAfter(d: seq<Cell>, excess: int, f: seq<Cell>)
    requires Cleared(d, excess, f)
    ensures |Holding(f, 0)| == |Holding(d, 0)| + |SmallCells(d, excess)| - |SparedCells(d, excess)|
  {
    hide Small, Spared;
    var gone := SmallCells(d, excess) - SparedCells(d, excess);
    SparedAreSmall(d, excess);
    NoneSmall(d, excess);
    assert Holding(f, 0) == Holding(d, 0) + gone;
  }

  lemma SparedAreSmall(d: seq<Cell>, excess: int)
    ensures SparedCells(d, excess) <= SmallCells(d, excess)
  {
  }

  lemma NoneSmall(d: seq<Cell>, excess: int)
    ensures Holding(d, 0) !! SmallCells(d, excess)
  {
  }

  /** Two spared labels together outweigh the biggest small one, so too few cells go. */
  lemma TwoSparedTooMany(d: seq<Cell>, excess: int)
    requires TwoSpared(d, excess)
    ensures |SmallCells(d, excess)| - |SparedCells(d, excess)| <= excess
  {
    var v, w :| v != w && Spared(d, excess, v) && Spared(d, excess, w);
    var u := BiggestNeeded(d, excess, v);
    SubsetSize(Holding(d, v) + Holding(d, w), SparedCells(d, excess));
  }

  /** If at most one label is spared, enough cells go. */
  lemma OneSparedIsFine(d: seq<Cell>, excess: int)
    requires !TwoSpared(d, excess) && |SmallCells(d, excess)| > excess
    ensures |SmallCells(d, excess)| - |SparedCells(d, excess)| > excess
  {
    if w :| Spared(d, excess, w) {
      assert SparedCells(d, excess) == Holding(d, w);
    } else {
      assert SparedCells(d, excess) == {};
    }
  }

  /** If all labels are small, all cells that carry one are in question. */
  lemma AllSmall(r: Ring, d: seq<Cell>, excess: int)
    requires |d| == r.datasize && forall j | 0 <= j < |d| :: d[j] != 1
    requires forall v | 2 <= v < 256 :: Small(d, excess, v)
    ensures |SmallCells(d, excess)| == r.datasize - |Holding(d, 0)|
  {
    RangeSize(0, |d|);
    assert Range(0, |d|) == Holding(d, 0) + SmallCells(d, excess);
  }

  /** The walls end up below the wanted number exactly if no two labels are spared. */
  lemma RatioMetIff(r: Ring, fill: real, d: seq<Cell>, f: seq<Cell>)
    requires |d| == r.datasize && Thinned(r, fill, d, f) && forall j | 0 <= j < |d| :: d[j] != 1
    requires Wanted(r.datasize, fill) >= 1
    ensures r.datasize - |Holding(f, 0)| < Wanted(r.datasize, fill)
            <==> !TwoSpared(d, Excess(r.datasize, |Holding(d, 0)|, fill))
  {
    hide Small, Spared, TwoSpared, Wanted;
    var excess := Excess(r.datasize, |Holding(d, 0)|, fill);
    OpenAfter(d, excess, f);
    if TwoSpared(d, excess) {
      TwoSparedTooMany(d, excess);
    } else {
      if v :| 2 <= v < 256 && !Small(d, excess, v) {
        SmallSuffice(d, excess, v);
      } else {
        AllSmall(r, d, excess);
      }
      OneSparedIsFine(d, excess);
    }
  }

  // ------------------------------------------------- by places in a sorted table

  lemma TailEnds(d: seq<Cell>, count: seq<int>, tbl: seq<int>, pos: seq<int>)
    requires Sorted(count, tbl, pos, 256)
    ensures Tail(d, pos, 256) == {}
  {
  }

  lemma BehindIsTail(d: seq<Cell>, count: seq<int>, tbl: seq<int>, pos: seq<int>, v: int)
    requires Counted(count, d) && Sorted(count, tbl, pos, 256) && 2 <= v < 256
    ensures |pos| == 256 && 2 <= pos[v] < 256 && Behind(d, v) == Tail(d, pos, pos[v] + 1)
  {
    PlacesInOrder(d, count, tbl, pos, v, v);
    forall j | 0 <= j < |d| && d[j] >= 2
      ensures pos[d[j]] > pos[v] <==> Precedes(d, v, d[j])
    {
      PlacesInOrder(d, count, tbl, pos, v, d[j]);
    }
  }

  /** Place i is as far down as the counting of cells that have to go gets. */
  ghost predicate CutAt(d: seq<Cell>, pos: seq<int>, excess: int, i: int)
    requires |pos| == 256
  {
    && 2 <= i <= 256
    && (forall k | i < k <= 256 :: |Tail(d, pos, k)| <= excess)
    && (i > 2 ==> |Tail(d, pos, i)| > excess)
  }

  lemma CutPlace(d: seq<Cell>, pos: seq<int>, excess: int, i: int)
    requires |pos| == 256 && CutAt(d, pos, excess, i)
    ensures 2 <= i <= 256
  {
  }

  lemma SmallFromCut(d: seq<Cell>, count: seq<int>, tbl: seq<int>, pos: seq<int>, excess: int, i: int)
    requires |pos| == 256 && Counted(count, d) && Sorted(count, tbl, pos, 256) && CutAt(d, pos, excess, i)
    ensures forall v | 0 <= v < 256 :: Small(d, excess, v) <==> v >= 2 && pos[v] >= i
    ensures SmallCells(d, excess) == Tail(d, pos, i)
  {
    hide Behind, Sorted, Counted, Tail;
    forall v | 2 <= v < 256
      ensures Small(d, excess, v) <==> pos[v] >= i
    {
      BehindIsTail(d, count, tbl, pos, v);
      if pos[v] < i {
        TailsNest(d, pos, pos[v] + 1, i);
      }
    }
    CellsFrom(d, pos, excess, i);
  }

  lemma CellsFrom(d: seq<Cell>, pos: seq<int>, excess: int, i: int)
    requires |pos| == 256 && forall v | 2 <= v < 256 :: Small(d, excess, v) <==> pos[v] >= i
    ensures SmallCells(d, excess) == Tail(d, pos, i)
  {
  }

  lemma TailsNest(d: seq<Cell>, pos: seq<int>, k: int, i: int)
    requires |pos| == 256 && k <= i
    ensures |Tail(d, pos, k)| >= |Tail(d, pos, i)|
  {
    SubsetSize(Tail(d, pos, i), Tail(d, pos, k));
  }

  /** The test that the original makes for the labels after the cut tells which are spared. */
  lemma SparedByTest(d: seq<Cell>, count: seq<int>, tbl: seq<int>, pos: seq<int>, excess: int, i: int, v: int)
    requires |pos| == 256 && Counted(count, d) && Sorted(count, tbl, pos, 256) && CutAt(d, pos, excess, i)
    requires i < 256 && 2 <= v < 256 && pos[v] >= i
    ensures 2 <= tbl[i] < 256
    ensures Spared(d, excess, v) <==>
              pos[v] > i && |Tail(d, pos, i)| - count[v] > excess && 2 * count[v] >= count[tbl[i]]
  {
    SmallFromCut(d, count, tbl, pos, excess, i);
    TailNext(d, count, tbl, pos, i);
    PlacesInOrder(d, count, tbl, pos, tbl[i], v);
    hide Behind, Tail, Small, SmallCells;
    forall w | Small(d, excess, w)
      ensures |Holding(d, w)| <= count[tbl[i]]
    {
      SmallIsLabel(d, excess, w);
      PlacesInOrder(d, count, tbl, pos, tbl[i], w);
    }
  }

  lemma SmallIsLabel(d: seq<Cell>, excess: int, v: int)
    requires Small(d, excess, v)
    ensures 2 <= v < 256
  {
  }
}
