/** What labelling the components of a map means, and the labelling loop's invariant. */
module LabelSpec {
  import opened RingGraph
  import opened FloodSpec
  import opened LabelOrder

  /** Each component of s carries one label of its own, or 0 if it was dropped. */
  ghost predicate Labelled(r: Ring, s: set<int>, d: seq<Cell>)
    requires r.Valid()
  {
    && |d| == r.datasize
    && (forall j | 0 <= j < |d| :: d[j] != 1 && (j !in s ==> d[j] == 0))
    && (forall i, j | 0 <= i < |d| && 0 <= j < |d| :: r.Connected(s, i, j) ==> d[i] == d[j])
    && (forall i, j | 0 <= i < |d| && 0 <= j < |d| :: d[i] == d[j] != 0 ==> r.Connected(s, i, j))
  }

  ghost function Components(r: Ring, s: set<int>): set<set<int>>
    requires r.Valid()
  {
    set j | j in s :: r.Component(s, j)
  }

  /** Labels below the marker are given out; value 1 marks components not reached yet. */
  ghost predicate Labelling(r: Ring, s: set<int>, d: seq<Cell>, marker: int)
    requires r.Valid()
  {
    && |d| == r.datasize
    && 2 <= marker <= 256
    && (forall j <- s :: r.Has(j))
    && (forall j | 0 <= j < |d| :: d[j] < marker && (j !in s ==> d[j] == 0))
    && (forall i, j | 0 <= i < |d| && 0 <= j < |d| :: r.Connected(s, i, j) ==> d[i] == d[j])
    && (forall i, j | 0 <= i < |d| && 0 <= j < |d| :: d[i] == d[j] && d[i] >= 2 ==> r.Connected(s, i, j))
  }

  /** As long as nothing was dropped, reps holds one cell of each label. */
  ghost predicate AllKept(s: set<int>, d: seq<Cell>, marker: int, reps: seq<int>) {
    && |reps| == marker - 2
    && (forall j <- s :: 0 <= j < |d| && d[j] != 0)
    && (forall k | 0 <= k < |reps| :: reps[k] in s && d[reps[k]] == k + 2)
  }

  /** A component was dropped only if it has at most one in 223 of the cells. */
  ghost predicate BigOnesKept(r: Ring, s: set<int>, d: seq<Cell>)
    requires r.Valid()
  {
    forall j | j in s && 0 <= j < |d| && d[j] == 0 :: 223 * |r.Component(s, j)| <= |s|
  }

  /** A component that is still marked 1 as a whole is flooded as a whole. */
  lemma UnreachedComponent(r: Ring, s: set<int>, d: seq<Cell>, marker: int, i: int)
    requires r.Valid() && Labelling(r, s, d, marker) && r.Has(i) && d[i] == 1
    ensures r.Component(Holding(d, 1), i) == r.Component(s, i)
  {
    hide Ring.Connected;
    var u := Holding(d, 1);
    assert u <= s;
    forall j
      ensures j in u && r.Connected(u, i, j) <==> j in s && r.Connected(s, i, j)
    {
      if j in u && r.Connected(u, i, j) {
        ConnectedWider(r, u, s, i, j);
      }
      if j in s && r.Connected(s, i, j) {
        ConnectedWithin(r, s, u, d, i, j);
      }
    }
  }

  lemma ConnectedWithin(r: Ring, s: set<int>, u: set<int>, d: seq<Cell>, i: int, j: int)
    requires r.Valid() && u <= s && i in u && r.Connected(s, i, j) && |d| == r.datasize
    requires u == Holding(d, 1)
    requires forall a, b | 0 <= a < |d| && 0 <= b < |d| :: r.Connected(s, a, b) ==> d[a] == d[b]
    ensures j in u && r.Connected(u, i, j)
  {
    var p :| r.Walk(s, p) && p[0] == i && p[|p| - 1] == j;
    forall a, b | a in u && b in s && r.Adjacent(a, b)
      ensures b in u
    {
      AdjacentBothWays(r, a, b);
      ConnectedStep(r, s, a, b);
    }
    forall n | 0 <= n < |p|
      ensures p[n] in u
    {
      WalkStaysIn(r, s, u, p, n);
    }
    assert r.Walk(u, p);
  }

  lemma FloodLabels(r: Ring, s: set<int>, d: seq<Cell>, marker: int, i: int)
    requires r.Valid() && Labelling(r, s, d, marker) && marker < 256 && r.Has(i) && d[i] == 1
    ensures Labelling(r, s, Flooded(r, d, i, 1, marker), marker + 1)
  {
    hide Ring.Connected;
    UnreachedComponent(r, s, d, marker, i);
    var f := Flooded(r, d, i, 1, marker);
    var c := r.Component(s, i);
    forall a, b | 0 <= a < |f| && 0 <= b < |f|
      ensures r.Connected(s, a, b) ==> f[a] == f[b]
      ensures f[a] == f[b] && f[a] >= 2 ==> r.Connected(s, a, b)
    {
      SameComponent(r, s, i, a, b);
    }
  }

  /** Component membership is an equivalence. */
  lemma SameComponent(r: Ring, s: set<int>, i: int, a: int, b: int)
    requires r.Valid() && forall j <- s :: r.Has(j)
    ensures r.Connected(s, a, b) ==> (a in r.Component(s, i) <==> b in r.Component(s, i))
    ensures a in r.Component(s, i) && b in r.Component(s, i) ==> r.Connected(s, a, b)
  {
    if r.Connected(s, a, b) {
      ConnectedBack(r, s, a, b);
      ConnectedEnds(r, s, a, b);
      if r.Connected(s, i, a) { ConnectedTrans(r, s, i, a, b); }
      if r.Connected(s, i, b) { ConnectedTrans(r, s, i, b, a); }
    }
    if a in r.Component(s, i) && b in r.Component(s, i) {
      ConnectedBack(r, s, i, a);
      ConnectedTrans(r, s, a, i, b);
    }
  }

  lemma ConnectedEnds(r: Ring, s: set<int>, a: int, b: int)
    requires r.Valid() && r.Connected(s, a, b)
    ensures a in s && b in s && r.Has(a) && r.Has(b)
  {
  }

  lemma FloodKeeps(r: Ring, s: set<int>, d: seq<Cell>, marker: int, i: int, reps: seq<int>)
    requires r.Valid() && Labelling(r, s, d, marker) && marker < 256 && r.Has(i) && d[i] == 1
    requires AllKept(s, d, marker, reps)
    ensures AllKept(s, Flooded(r, d, i, 1, marker), marker + 1, reps + [i])
  {
    ConnectedSelf(r, Holding(d, 1), i);
  }

  // -------------------------------------------------------------- relabelling

  /** A relabelling that merges no two labels that it keeps. */
  ghost predicate Compacting(del: seq<int>, limit: int) {
    && |del| == 256
    && del[0] == 0
    && del[1] == 1
    && (forall v | 2 <= v < 256 :: del[v] == 0 || 2 <= del[v] < limit)
    && (forall v, w | 2 <= v < w < 256 :: del[v] != 0 ==> del[v] != del[w])
  }

  ghost predicate Relabelled(d: seq<Cell>, f: seq<Cell>, del: seq<int>) {
    |d| == |f| && |del| == 256 && forall j | 0 <= j < |d| :: f[j] == del[d[j]]
  }

  lemma CompactLabels(r: Ring, s: set<int>, d: seq<Cell>, f: seq<Cell>, marker: int, del: seq<int>, limit: int)
    requires r.Valid() && Labelling(r, s, d, marker) && Relabelled(d, f, del)
    requires 2 <= limit <= 256 && Compacting(del, limit)
    ensures Labelling(r, s, f, limit)
    ensures forall j | 0 <= j < |d| :: f[j] == 1 <==> d[j] == 1
  {
    hide Ring.Connected;
    forall i, j | 0 <= i < |f| && 0 <= j < |f| && f[i] == f[j] && f[i] >= 2
      ensures r.Connected(s, i, j)
    {
      assert d[i] == d[j];
    }
  }

  /** Only labels with few cells are given up. */
  ghost predicate FewDropped(d: seq<Cell>, del: seq<int>) {
    && |del| == 256
    && (forall v | 2 <= v < 256 && del[v] == 0 :: 223 * |Holding(d, v)| <= |Carrying(d)|)
  }

  lemma CompactKeepsBig(r: Ring, s: set<int>, d: seq<Cell>, f: seq<Cell>, marker: int, del: seq<int>)
    requires r.Valid() && Labelling(r, s, d, marker) && BigOnesKept(r, s, d)
    requires Relabelled(d, f, del) && FewDropped(d, del) && del[1] == 1
    ensures BigOnesKept(r, s, f)
  {
    hide Ring.Connected, Ring.Component;
    SubsetSize(Carrying(d), s);
    forall j | j in s && 0 <= j < |d| && f[j] == 0
      ensures 223 * |r.Component(s, j)| <= |s|
    {
      if d[j] != 0 {
        LabelHolds(r, s, d, marker, j);
      }
    }
  }

  lemma LabelHolds(r: Ring, s: set<int>, d: seq<Cell>, marker: int, i: int)
    requires r.Valid() && Labelling(r, s, d, marker) && i in s && d[i] >= 2
    ensures Holding(d, d[i]) == r.Component(s, i)
  {
    forall j
      ensures j in Holding(d, d[i]) <==> j in r.Component(s, i)
    {
      if j in r.Component(s, i) {
        ConnectedEnds(r, s, i, j);
      }
    }
  }

  lemma FloodKeepsBig(r: Ring, s: set<int>, d: seq<Cell>, marker: int, i: int)
    requires r.Valid() && |d| == r.datasize && r.Has(i) && 2 <= marker < 256 && BigOnesKept(r, s, d)
    ensures BigOnesKept(r, s, Flooded(r, d, i, 1, marker))
  {
    hide Ring.Connected;
    var f := Flooded(r, d, i, 1, marker);
    assert forall j | 0 <= j < |d| && f[j] == 0 :: d[j] == 0;
  }

  /** Labels run out only on a map with more components than labels. */
  lemma LabelsRunOut(r: Ring, s: set<int>, d: seq<Cell>, reps: seq<int>, i: int)
    requires r.Valid() && Labelling(r, s, d, 256) && AllKept(s, d, 256, reps)
    requires r.Has(i) && d[i] == 1
    ensures |Components(r, s)| >= 255
  {
    hide Ring.Connected, Ring.Component;
    var all := reps + [i];
    var parts := seq(|all|, k requires 0 <= k < |all| => r.Component(s, all[k]));
    forall a, b | 0 <= a < b < |parts|
      ensures parts[a] != parts[b]
    {
      ApartComponents(r, s, d, 256, all[a], all[b]);
    }
    forall k | 0 <= k < |parts|
      ensures parts[k] in Components(r, s)
    {
      assert all[k] in s;
    }
    DistinctSetsFit(parts, Components(r, s));
  }

  lemma ApartComponents(r: Ring, s: set<int>, d: seq<Cell>, marker: int, a: int, b: int)
    requires r.Valid() && Labelling(r, s, d, marker)
    requires a in s && b in s && d[a] != d[b]
    ensures r.Component(s, a) != r.Component(s, b)
  {
    ConnectedSelf(r, s, b);
    assert b in r.Component(s, b);
  }

  lemma {:induction false} DistinctSetsFit(parts: seq<set<int>>, all: set<set<int>>)
    requires forall a, b | 0 <= a < b < |parts| :: parts[a] != parts[b]
    requires forall k | 0 <= k < |parts| :: parts[k] in all
    ensures |parts| <= |all|
  {
    if parts != [] {
      assert |all - {parts[0]}| == |all| - 1;
      DistinctSetsFit(parts[1..], all - {parts[0]});
    }
  }

  ghost predicate KeptUnless(r: Ring, s: set<int>, d: seq<Cell>, marker: int, reps: seq<int>, dropped: bool)
    requires r.Valid()
  {
    if dropped then |Components(r, s)| > 254 else AllKept(s, d, marker, reps)
  }

  lemma KeptAll(r: Ring, s: set<int>, d: seq<Cell>, marker: int, reps: seq<int>, dropped: bool)
    requires r.Valid() && KeptUnless(r, s, d, marker, reps, dropped)
    ensures |Components(r, s)| <= 254 ==> forall j <- s :: 0 <= j < |d| && d[j] != 0
  {
  }

  lemma FloodsSelf(r: Ring, d: seq<Cell>, i: int, m: Cell)
    requires r.Valid() && |d| == r.datasize && r.Has(i) && d[i] == 1 && m != 1
    ensures Flooded(r, d, i, 1, m)[i] != 1
    ensures forall j | 0 <= j < |d| && d[j] != 1 :: Flooded(r, d, i, 1, m)[j] != 1
  {
    ConnectedSelf(r, Holding(d, 1), i);
  }

  lemma MarkerAtMost(r: Ring, s: set<int>, d: seq<Cell>, marker: int)
    requires r.Valid() && Labelling(r, s, d, marker)
    ensures |d| == r.datasize && 2 <= marker <= 256
  {
  }

  lemma LabellingDone(r: Ring, s: set<int>, d: seq<Cell>, marker: int)
    requires r.Valid() && Labelling(r, s, d, marker)
    requires forall j | 0 <= j < |d| :: d[j] != 1
    ensures Labelled(r, s, d)
  {
  }

  lemma LabellingStarts(r: Ring, d: seq<Cell>, value: int, f: seq<Cell>)
    requires r.Valid() && |d| == |f| == r.datasize
    requires forall j | 0 <= j < |d| :: f[j] == if d[j] == value then 1 else 0
    ensures Labelling(r, Holding(d, value), f, 2) && AllKept(Holding(d, value), f, 2, [])
    ensures BigOnesKept(r, Holding(d, value), f)
  {
    forall i, j | 0 <= i < |d| && 0 <= j < |d| && r.Connected(Holding(d, value), i, j)
      ensures f[i] == f[j]
    {
      ConnectedEnds(r, Holding(d, value), i, j);
    }
  }
}
