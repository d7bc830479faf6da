/** The order of labels by the number of their cells, and tables sorted by it. */
module LabelOrder {
  import opened RingGraph
  import opened FloodSpec

  ghost predicate Counted(count: seq<int>, d: seq<Cell>) {
    |count| == 256 && forall v | 0 <= v < 256 :: count[v] == |Holding(d, v)|
  }

  lemma CountOf(count: seq<int>, d: seq<Cell>, v: int)
    requires Counted(count, d) && 0 <= v < 256
    ensures |count| == 256 && count[v] == |Holding(d, v)|
  {
  }

  /** Label v with c cells comes before label w with e cells. */
  predicate Before(c: int, v: int, e: int, w: int) {
    c > e || (c == e && v < w)
  }

  /** Of two labels the one with more cells comes first, or the smaller one if they have as many. */
  ghost predicate Precedes(d: seq<Cell>, v: int, w: int) {
    Before(|Holding(d, v)|, v, |Holding(d, w)|, w)
  }

  /** The labels at places 2 to n - 1, leaving out the hole, are in order. */
  ghost predicate SortedBy(count: seq<int>, tbl: seq<int>, n: int, hole: int) {
    && |count| == |tbl| == 256 && n <= 256
    && (forall a | 2 <= a < n && a != hole :: 0 <= tbl[a] < 256)
    && (forall a, b | 2 <= a < b < n && a != hole && b != hole ::
          Before(count[tbl[a]], tbl[a], count[tbl[b]], tbl[b]))
  }

  /** tbl and pos undo each other on the first n numbers. */
  ghost predicate Inverse(tbl: seq<int>, pos: seq<int>, n: int) {
    InverseBut(tbl, pos, n, -1, -1)
  }

  /** The same with value v still to be stored at place hole. */
  ghost predicate InverseBut(tbl: seq<int>, pos: seq<int>, n: int, hole: int, v: int) {
    && |tbl| == |pos| == 256
    && 0 <= n <= 256
    && (forall a | 0 <= a < n && a != hole :: 0 <= tbl[a] < n && tbl[a] != v && pos[tbl[a]] == a)
    && (forall w | 0 <= w < n && w != v :: 0 <= pos[w] < n && pos[w] != hole && tbl[pos[w]] == w)
    && (0 <= v < n ==> pos[v] == hole)
  }

  /** Label v is being inserted at the hole, and belongs before all labels after the hole. */
  ghost predicate Inserting(count: seq<int>, tbl: seq<int>, pos: seq<int>, n: int, hole: int, v: int) {
    && InverseBut(tbl, pos, n, hole, v)
    && SortedBy(count, tbl, n, hole)
    && 2 <= hole < n && v == n - 1
    && (forall b | hole < b < n :: Before(count[v], v, count[tbl[b]], tbl[b]))
    && tbl[0] == 0 && tbl[1] == 1
  }

  ghost predicate Sorted(count: seq<int>, tbl: seq<int>, pos: seq<int>, n: int) {
    Inverse(tbl, pos, n) && SortedBy(count, tbl, n, -1) && 2 <= n && tbl[0] == 0 && tbl[1] == 1
  }

  lemma SortStarts(count: seq<int>, tbl: seq<int>, pos: seq<int>)
    requires |count| == |tbl| == |pos| == 256 && tbl[0] == pos[0] == 0 && tbl[1] == pos[1] == 1
    ensures Sorted(count, tbl, pos, 2)
  {
  }

  lemma SortedPlaces(count: seq<int>, tbl: seq<int>, pos: seq<int>)
    requires Sorted(count, tbl, pos, 256)
    ensures |tbl| == |pos| == 256 && pos[0] == 0 && pos[1] == 1
    ensures forall a | 0 <= a < 256 :: 0 <= tbl[a] < 256 && pos[tbl[a]] == a
    ensures forall v | 0 <= v < 256 :: 0 <= pos[v] < 256 && tbl[pos[v]] == v
    ensures forall a | 2 <= a < 256 :: 2 <= tbl[a] < 256
    ensures forall v | 2 <= v < 256 :: 2 <= pos[v] < 256
  {
  }

  lemma InsertStarts(count: seq<int>, tbl: seq<int>, pos: seq<int>, n: int)
    requires Sorted(count, tbl, pos, n) && n < 256
    ensures |pos| == 256 && Inserting(count, tbl, pos[n := n], n + 1, n, n)
  {
  }

  lemma InsertAt(count: seq<int>, tbl: seq<int>, pos: seq<int>, n: int, hole: int, v: int)
    requires Inserting(count, tbl, pos, n, hole, v)
    ensures |count| == |tbl| == |pos| == 256 && n <= 256 && 2 <= hole < n && 0 <= v < 256
    ensures hole > 2 ==> 0 <= tbl[hole - 1] < 256
  {
  }

  /** The hole moves down past a label with fewer cells. */
  lemma InsertMoves(count: seq<int>, tbl: seq<int>, pos: seq<int>, n: int, hole: int, v: int)
    requires Inserting(count, tbl, pos, n, hole, v) && hole > 2
    requires 0 <= tbl[hole - 1] < 256 && count[v] > count[tbl[hole - 1]]
    ensures Inserting(count, tbl[hole := tbl[hole - 1]], pos[tbl[hole - 1] := hole][v := hole - 1], n, hole - 1, v)
  {
    HoleMoves(tbl, pos, n, hole, v);
    hide InverseBut;
  }

  /** The label goes into the hole below labels with at least as many cells. */
  lemma InsertEnds(count: seq<int>, tbl: seq<int>, pos: seq<int>, n: int, hole: int, v: int)
    requires Inserting(count, tbl, pos, n, hole, v)
    requires hole > 2 ==> 0 <= tbl[hole - 1] < 256 && count[v] <= count[tbl[hole - 1]]
    ensures Sorted(count, tbl[hole := v], pos, n)
  {
    FillHole(tbl, pos, n, hole, v);
    hide InverseBut;
  }

  lemma HoleMoves(tbl: seq<int>, pos: seq<int>, n: int, j: int, v: int)
    requires InverseBut(tbl, pos, n, j, v) && 0 < j < n && 0 <= v < n
    ensures 0 <= tbl[j - 1] < 256
    ensures InverseBut(tbl[j := tbl[j - 1]], pos[tbl[j - 1] := j][v := j - 1], n, j - 1, v)
  {
  }

  lemma FillHole(tbl: seq<int>, pos: seq<int>, n: int, j: int, v: int)
    requires InverseBut(tbl, pos, n, j, v) && 0 <= j < n && 0 <= v < n
    ensures Inverse(tbl[j := v], pos, n)
  {
  }

  /** In a full sorted table labels are in order exactly if their places are. */
  lemma PlacesInOrder(d: seq<Cell>, count: seq<int>, tbl: seq<int>, pos: seq<int>, v: int, w: int)
    requires Counted(count, d) && Sorted(count, tbl, pos, 256) && 2 <= v < 256 && 2 <= w < 256
    ensures |pos| == 256 && 2 <= pos[v] < 256 && 2 <= pos[w] < 256
    ensures pos[v] < pos[w] <==> Precedes(d, v, w)
  {
    assert pos[0] == 0 && pos[1] == 1;
    assert tbl[pos[v]] == v && tbl[pos[w]] == w;
  }

  /** The cells with labels from place k on. */
  ghost function Tail(d: seq<Cell>, pos: seq<int>, k: int): set<int>
    requires |pos| == 256
  {
    set j | 0 <= j < |d| && d[j] >= 2 && pos[d[j]] >= k
  }

  lemma TailNext(d: seq<Cell>, count: seq<int>, tbl: seq<int>, pos: seq<int>, k: int)
    requires Counted(count, d) && Sorted(count, tbl, pos, 256) && 2 <= k < 256
    ensures 2 <= tbl[k] < 256 && |Tail(d, pos, k)| == |Tail(d, pos, k + 1)| + count[tbl[k]]
  {
    assert pos[0] == 0 && pos[1] == 1;
    assert forall v | 0 <= v < 256 :: tbl[pos[v]] == v;
    assert Tail(d, pos, k) == Tail(d, pos, k + 1) + Holding(d, tbl[k]);
  }

  lemma SubsetSize<T>(a: set<T>, b: set<T>)
    requires a <= b
    ensures |a| <= |b|
    ensures a != b ==> |a| < |b|
  {
    assert b == a + (b - a);
  }

  /** The cells that carry a label. */
  ghost function Carrying(d: seq<Cell>): set<int> {
    set j | 0 <= j < |d| && d[j] >= 2
  }

  lemma {:induction false} TailWeighs(d: seq<Cell>, count: seq<int>, tbl: seq<int>, pos: seq<int>, v: int, k: int)
    requires Counted(count, d) && Sorted(count, tbl, pos, 256) && 2 <= v < 256 && pos[v] >= 224 >= k >= 2
    ensures |Tail(d, pos, k)| >= (225 - k) * |Holding(d, v)|
    decreases 224 - k
  {
    if k == 224 {
      SubsetSize(Holding(d, v), Tail(d, pos, k));
    } else {
      TailWeighs(d, count, tbl, pos, v, k + 1);
      TailNext(d, count, tbl, pos, k);
      assert Before(count[tbl[k]], tbl[k], count[tbl[pos[v]]], tbl[pos[v]]);
    }
  }

  /** A label after the first 222 has at most one in 223 of the labelled cells. */
  lemma LateLabelIsRare(d: seq<Cell>, count: seq<int>, tbl: seq<int>, pos: seq<int>, v: int)
    requires Counted(count, d) && Sorted(count, tbl, pos, 256) && 2 <= v < 256 && pos[v] >= 224
    ensures 223 * |Holding(d, v)| <= |Carrying(d)|
  {
    TailWeighs(d, count, tbl, pos, v, 2);
    SubsetSize(Tail(d, pos, 2), Carrying(d));
  }
}
