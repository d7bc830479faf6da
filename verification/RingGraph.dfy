/** The graph of contrib/wildmap.c: map cells in one ring of datasize cells, in
    which each cell has the neighbours that the MAPOFF macros compute. */
module RingGraph {

  /** A cell's value: one byte. */
  type Cell = c: int | 0 <= c < 256

  datatype Ring = Ring(linewidth: int, datasize: int) {
    predicate Valid() {
      0 < linewidth <= datasize
    }

    predicate Has(i: int) {
      0 <= i < datasize
    }

    function Left(i: int): (j: int)
      requires Valid() && Has(i)
      ensures Has(j)
    {
      if i >= 1 then i - 1 else datasize - 1
    }

    function Right(i: int): (j: int)
      requires Valid() && Has(i)
      ensures Has(j)
    {
      if i + 1 < datasize then i + 1 else 0
    }

    function Up(i: int): (j: int)
      requires Valid() && Has(i)
      ensures Has(j)
    {
      if i >= linewidth then i - linewidth else i - linewidth + datasize
    }

    function Down(i: int): (j: int)
      requires Valid() && Has(i)
      ensures Has(j)
    {
      if i + linewidth < datasize then i + linewidth else i + linewidth - datasize
    }

    predicate Adjacent(i: int, j: int)
      requires Valid()
    {
      Has(i) && (j == Up(i) || j == Left(i) || j == Down(i) || j == Right(i))
    }

    /** A walk over neighbouring cells that stays within s. */
    ghost predicate Walk(s: set<int>, p: seq<int>)
      requires Valid()
    {
      && |p| > 0
      && (forall k :: 0 <= k < |p| ==> p[k] in s && Has(p[k]))
      && (forall k :: 0 < k < |p| ==> Adjacent(p[k - 1], p[k]))
    }

    ghost predicate Connected(s: set<int>, i: int, j: int)
      requires Valid()
    {
      exists p :: Walk(s, p) && p[0] == i && p[|p| - 1] == j
    }

    /** All of s is one region. */
    ghost predicate OneRegion(s: set<int>)
      requires Valid()
    {
      forall i, j | i in s && j in s :: Connected(s, i, j)
    }

    /** The cells that cell i is connected to within s. */
    ghost function Component(s: set<int>, i: int): set<int>
      requires Valid()
    {
      set j | j in s && Connected(s, i, j)
    }
  }

  predicate Between(lo: int, j: int, hi: int) {
    lo <= j < hi
  }

  /** The numbers from lo up to but not including hi. */
  ghost function Range(lo: int, hi: int): set<int> {
    set j | lo <= j < hi && Between(lo, j, hi)
  }

  lemma {:induction false} RangeSize(lo: int, hi: int)
    requires lo <= hi
    ensures |Range(lo, hi)| == hi - lo
    decreases hi - lo
  {
    if lo < hi {
      RangeSize(lo, hi - 1);
      assert Range(lo, hi) == Range(lo, hi - 1) + {hi - 1};
    }
  }

  lemma AdjacentBothWays(r: Ring, i: int, j: int)
    requires r.Valid() && r.Adjacent(i, j)
    ensures r.Has(j) && r.Adjacent(j, i)
  {
  }

  lemma WalkJoins(r: Ring, s: set<int>, p: seq<int>, q: seq<int>)
    requires r.Valid() && r.Walk(s, p) && r.Walk(s, q) && p[|p| - 1] == q[0]
    ensures r.Walk(s, p + q[1..])
    ensures (p + q[1..])[0] == p[0] && (p + q[1..])[|p + q[1..]| - 1] == q[|q| - 1]
  {
    hide Ring.Adjacent;
    var w := p + q[1..];
    forall k | 0 < k < |w|
      ensures r.Adjacent(w[k - 1], w[k])
    {
      if k == |p| {
        assert w[k - 1] == q[0] && w[k] == q[1];
      } else if k > |p| {
        assert w[k - 1] == q[k - |p|] && w[k] == q[k - |p| + 1];
      }
    }
  }

  ghost function Backwards(p: seq<int>): (q: seq<int>)
    ensures |q| == |p|
    ensures forall k :: 0 <= k < |p| ==> q[k] == p[|p| - 1 - k]
  {
    seq(|p|, k requires 0 <= k < |p| => p[|p| - 1 - k])
  }

  lemma WalkBack(r: Ring, s: set<int>, p: seq<int>)
    requires r.Valid() && r.Walk(s, p)
    ensures r.Walk(s, Backwards(p))
  {
    hide Ring.Adjacent;
    var q := Backwards(p);
    forall k | 0 < k < |q|
      ensures r.Adjacent(q[k - 1], q[k])
    {
      assert r.Adjacent(p[|p| - 1 - k], p[|p| - 1 - k + 1]);
      AdjacentBothWays(r, p[|p| - 1 - k], p[|p| - k]);
    }
  }

  lemma ConnectedSelf(r: Ring, s: set<int>, i: int)
    requires r.Valid() && r.Has(i) && i in s
    ensures r.Connected(s, i, i)
  {
    assert r.Walk(s, [i]);
  }

  lemma ConnectedStep(r: Ring, s: set<int>, i: int, j: int)
    requires r.Valid() && r.Adjacent(i, j) && i in s && j in s
    ensures r.Connected(s, i, j)
  {
    AdjacentBothWays(r, i, j);
    assert r.Walk(s, [i, j]);
  }

  lemma ConnectedTrans(r: Ring, s: set<int>, i: int, j: int, k: int)
    requires r.Valid() && r.Connected(s, i, j) && r.Connected(s, j, k)
    ensures r.Connected(s, i, k)
  {
    var p :| r.Walk(s, p) && p[0] == i && p[|p| - 1] == j;
    var q :| r.Walk(s, q) && q[0] == j && q[|q| - 1] == k;
    hide Ring.Walk;
    WalkJoins(r, s, p, q);
  }

  lemma ConnectedBack(r: Ring, s: set<int>, i: int, j: int)
    requires r.Valid() && r.Connected(s, i, j)
    ensures r.Connected(s, j, i)
  {
    var p :| r.Walk(s, p) && p[0] == i && p[|p| - 1] == j;
    WalkBack(r, s, p);
    assert Backwards(p)[0] == j;
  }

  lemma ConnectedWider(r: Ring, s: set<int>, t: set<int>, i: int, j: int)
    requires r.Valid() && s <= t && r.Connected(s, i, j)
    ensures r.Connected(t, i, j)
  {
    var p :| r.Walk(s, p) && p[0] == i && p[|p| - 1] == j;
    assert r.Walk(t, p);
  }

  /** A set that no step within s leaves holds everything connected to it. */
  lemma {:induction false} WalkStaysIn(r: Ring, s: set<int>, a: set<int>, p: seq<int>, n: nat)
    requires r.Valid() && r.Walk(s, p) && n < |p| && p[0] in a
    requires forall i, j :: i in a && j in s && r.Adjacent(i, j) ==> j in a
    ensures p[n] in a
    decreases n
  {
    if n > 0 {
      WalkStaysIn(r, s, a, p, n - 1);
    }
  }

  lemma ConnectedStaysIn(r: Ring, s: set<int>, a: set<int>, i: int, j: int)
    requires r.Valid() && r.Connected(s, i, j) && i in a
    requires forall i, j :: i in a && j in s && r.Adjacent(i, j) ==> j in a
    ensures j in a
  {
    var p :| r.Walk(s, p) && p[0] == i && p[|p| - 1] == j;
    WalkStaysIn(r, s, a, p, |p| - 1);
  }

  /** The whole ring is one region. */
  lemma RingClosed(r: Ring, a: set<int>, i: int, j: int)
    requires r.Valid() && r.Has(i) && i in a && r.Has(j)
    requires forall k :: k in a && r.Has(k) ==> r.Right(k) in a
    ensures j in a
    decreases if j >= i then j - i else j - i + r.datasize
  {
    if i != j {
      RingClosed(r, a, r.Right(i), j);
    }
  }
}
