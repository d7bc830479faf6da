/** What flooding does to a map, and the invariant of the flooding loop. */
module FloodSpec {
  import opened RingGraph

  /** The cells that hold value t. */
  ghost function Holding(d: seq<Cell>, t: int): set<int> {
    set j | 0 <= j < |d| && d[j] == t
  }

  /** The map with the component of cell i among the t cells changed to m. */
  ghost function Flooded(r: Ring, d: seq<Cell>, i: int, t: int, m: Cell): (f: seq<Cell>)
    requires r.Valid() && |d| == r.datasize && r.Has(i)
    ensures |f| == |d|
    ensures forall j :: 0 <= j < |d| ==> f[j] == if j in r.Component(Holding(d, t), i) then m else d[j]
  {
    seq(|d|, j requires 0 <= j < |d| => if j in r.Component(Holding(d, t), i) then m else d[j])
  }

  ghost predicate Distinct(s: seq<int>) {
    forall i, j :: 0 <= i < j < |s| ==> s[i] != s[j]
  }

  lemma {:induction false} DistinctFits(s: seq<int>, all: set<int>)
    requires Distinct(s) && forall k | 0 <= k < |s| :: s[k] in all
    ensures |s| <= |all|
  {
    if s != [] {
      assert |all - {s[0]}| == |all| - 1;
      DistinctFits(s[1..], all - {s[0]});
    }
  }

  // ------------------------------------------------- the worklist's invariant

  ghost predicate InItems(items: seq<seq<int>>, j: int) {
    exists c :: 0 <= c < |items| && j in items[c]
  }

  /** All cells of s around cell j have been queued. */
  ghost predicate Closed(r: Ring, s: set<int>, queued: seq<int>, j: int)
    requires r.Valid()
  {
    forall b | r.Adjacent(j, b) && b in s :: b in queued
  }

  /** What flooding keeps, apart from cell `open` whose neighbours are being looked at. */
  ghost predicate Flooding(r: Ring, d0: seq<Cell>, d: seq<Cell>, i: int, t: int, m: Cell,
                           queued: seq<int>, items: seq<seq<int>>, open: set<int>)
    requires r.Valid() && |d0| == r.datasize
  {
    var s := Holding(d0, t);
    && |d| == |d0|
    && i in queued
    && Distinct(queued)
    && (forall j <- queued :: j in s && r.Connected(s, i, j))
    && (forall j | 0 <= j < |d| :: d[j] == if j in queued then m else d0[j])
    && (forall c, e | 0 <= c < |items| && 0 <= e < |items[c]| :: items[c][e] in queued)
    && (forall j <- queued :: j in open || InItems(items, j) || Closed(r, s, queued, j))
  }

  lemma FloodStarts(r: Ring, d0: seq<Cell>, i: int, t: int, m: Cell)
    requires r.Valid() && |d0| == r.datasize && r.Has(i) && d0[i] == t
    ensures Flooding(r, d0, d0[i := m], i, t, m, [i], [[i]], {})
  {
    ConnectedSelf(r, Holding(d0, t), i);
    assert [[i]][0][0] == i;
  }

  lemma FloodTakes(r: Ring, d0: seq<Cell>, d: seq<Cell>, i: int, t: int, m: Cell, queued: seq<int>,
                   items: seq<seq<int>>)
    requires r.Valid() && |d0| == r.datasize
    requires Flooding(r, d0, d, i, t, m, queued, items, {})
    requires |items| > 0 && |items[0]| > 0
    ensures var k := items[0][|items[0]| - 1];
            k in queued && Flooding(r, d0, d, i, t, m, queued, items[0 := items[0][..|items[0]| - 1]], {k})
  {
    hide Closed, Ring.Connected, Distinct;
    var k := items[0][|items[0]| - 1];
    var after := items[0 := items[0][..|items[0]| - 1]];
    forall j <- queued
      ensures j == k || InItems(after, j) || Closed(r, Holding(d0, t), queued, j)
    {
      if j != k && InItems(items, j) {
        var c :| 0 <= c < |items| && j in items[c];
        assert j in after[c];
      }
    }
  }

  lemma FloodReserves(r: Ring, d0: seq<Cell>, d: seq<Cell>, i: int, t: int, m: Cell, queued: seq<int>,
                      items: seq<seq<int>>, open: set<int>)
    requires r.Valid() && |d0| == r.datasize
    requires Flooding(r, d0, d, i, t, m, queued, items, open)
    ensures Flooding(r, d0, d, i, t, m, queued, items + [[]], open)
  {
    hide Closed, Ring.Connected, Distinct;
    var after := items + [[]];
    forall j <- queued
      ensures j in open || InItems(after, j) || Closed(r, Holding(d0, t), queued, j)
    {
      if InItems(items, j) {
        var c :| 0 <= c < |items| && j in items[c];
        assert j in after[c];
      }
    }
  }

  lemma FloodPuts(r: Ring, d0: seq<Cell>, d: seq<Cell>, i: int, t: int, m: Cell, queued: seq<int>,
                  items: seq<seq<int>>, k: int, j: int)
    requires r.Valid() && |d0| == r.datasize && t != m
    requires Flooding(r, d0, d, i, t, m, queued, items, {k})
    requires k in queued && |items| > 0 && r.Adjacent(k, j) && d[j] == t
    ensures Flooding(r, d0, d[j := m], i, t, m, queued + [j], items[|items| - 1 := items[|items| - 1] + [j]], {k})
  {
    var s := Holding(d0, t);
    assert j in s && j !in queued;
    ConnectedStep(r, s, k, j);
    ConnectedTrans(r, s, i, k, j);
    hide Ring.Connected, Ring.Adjacent;
    var last := |items| - 1;
    var after := items[last := items[last] + [j]];
    var longer := queued + [j];
    forall e <- longer
      ensures e == k || InItems(after, e) || Closed(r, s, longer, e)
    {
      if e == j {
        assert j in after[last];
      } else if InItems(items, e) {
        var c :| 0 <= c < |items| && e in items[c];
        assert e in after[c];
      } else if Closed(r, s, queued, e) {
        assert forall b <- queued :: b in longer;
      }
    }
    assert longer[0] == queued[0];
    assert forall b :: b in longer <==> b in queued || b == j;
    forall c, e | 0 <= c < |after| && 0 <= e < |after[c]|
      ensures after[c][e] in longer
    {
      if c == last && e == |items[last]| {
      } else {
        assert after[c][e] == items[c][e];
      }
    }
  }

  lemma FloodCloses(r: Ring, d0: seq<Cell>, d: seq<Cell>, i: int, t: int, m: Cell, queued: seq<int>,
                    items: seq<seq<int>>, k: int)
    requires r.Valid() && |d0| == r.datasize && t != m
    requires Flooding(r, d0, d, i, t, m, queued, items, {k}) && k in queued
    requires forall b | r.Adjacent(k, b) :: r.Has(b) && d[b] != t
    ensures Flooding(r, d0, d, i, t, m, queued, items, {})
  {
    assert Closed(r, Holding(d0, t), queued, k);
  }

  lemma FloodNext(r: Ring, d0: seq<Cell>, d: seq<Cell>, i: int, t: int, m: Cell, queued: seq<int>, items: seq<seq<int>>)
    requires r.Valid() && |d0| == r.datasize
    requires Flooding(r, d0, d, i, t, m, queued, items, {})
    requires |items| > 0 && items[0] == []
    ensures Flooding(r, d0, d, i, t, m, queued, items[1..], {})
  {
    hide Closed, Ring.Connected, Distinct;
    forall j <- queued
      ensures InItems(items[1..], j) || Closed(r, Holding(d0, t), queued, j)
    {
      if InItems(items, j) {
        var c :| 0 <= c < |items| && j in items[c];
        assert j in items[1..][c - 1];
      }
    }
  }

  lemma FloodDone(r: Ring, d0: seq<Cell>, d: seq<Cell>, i: int, t: int, m: Cell, queued: seq<int>)
    requires r.Valid() && |d0| == r.datasize && r.Has(i)
    requires Flooding(r, d0, d, i, t, m, queued, [], {})
    ensures d == Flooded(r, d0, i, t, m) && Distinct(queued)
    ensures forall j :: j in queued <==> j in r.Component(Holding(d0, t), i)
  {
    var s := Holding(d0, t);
    var all := set j | j in queued;
    hide Ring.Connected;
    forall j | j in s && r.Connected(s, i, j)
      ensures j in queued
    {
      forall a, b | a in all && b in s && r.Adjacent(a, b)
        ensures b in all
      {
        assert Closed(r, s, queued, a);
      }
      ConnectedStaysIn(r, s, all, i, j);
    }
  }

  lemma NothingToFlood(r: Ring, d0: seq<Cell>, i: int, t: int, m: Cell)
    requires r.Valid() && |d0| == r.datasize && r.Has(i) && d0[i] != t
    ensures d0 == Flooded(r, d0, i, t, m)
    ensures r.Component(Holding(d0, t), i) == {}
  {
    assert r.Component(Holding(d0, t), i) == {};
  }

  /** 1 if the chunk being written needs a successor before it is written to again. */
  ghost function Crowded(items: seq<seq<int>>): nat {
    if items != [] && |items[|items| - 1]| + 4 > 1024 then 1 else 0
  }

  lemma FloodFits(r: Ring, d0: seq<Cell>, d: seq<Cell>, i: int, t: int, m: Cell, queued: seq<int>,
                  items: seq<seq<int>>, open: set<int>)
    requires r.Valid() && |d0| == r.datasize
    requires Flooding(r, d0, d, i, t, m, queued, items, open)
    ensures |queued| <= |Holding(d0, t)|
  {
    DistinctFits(queued, Holding(d0, t));
  }

  lemma QueuedOnRing(r: Ring, d0: seq<Cell>, d: seq<Cell>, i: int, t: int, m: Cell, queued: seq<int>,
                     items: seq<seq<int>>, open: set<int>, k: int)
    requires r.Valid() && |d0| == r.datasize
    requires Flooding(r, d0, d, i, t, m, queued, items, open) && k in queued
    ensures r.Has(k)
  {
  }

  lemma AroundCell(r: Ring, k: int)
    requires r.Valid() && r.Has(k)
    ensures r.Adjacent(k, r.Up(k)) && r.Adjacent(k, r.Left(k)) && r.Adjacent(k, r.Down(k)) && r.Adjacent(k, r.Right(k))
    ensures forall b | r.Adjacent(k, b) :: b == r.Up(k) || b == r.Left(k) || b == r.Down(k) || b == r.Right(k)
  {
  }
}
