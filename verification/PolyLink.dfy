/** The linking of the polygons of one part of a map (mapconvert.py): the tree of
    links grows from the last polygon, each time by a shortest link to one that is
    not yet linked, and then one walk goes around all of them. */
module PolyLink {
  import opened MinWrap
  import opened FindMin
  import opened Outline
  import opened BlockMap
  import opened Bytes
  import opened Traverse
  import opened Tours
  import opened GrowTree

  const FAR: nat :=
    1_0000000000_0000000000_0000000000_0000000000_0000000000_0000000000_0000000000_0000000000_0000000000_00000000
  const FARTHER: nat := 10 * FAR

  /** No point of a is nearer than d to a point of b. */
  ghost predicate Beyond(wrap: Wrap, a: seq<Point>, b: seq<Point>, d: nat)
    requires wrap.Valid()
  {
    forall k, l | 0 <= k < |a| && 0 <= l < |b| :: Dist(wrap, a[k], b[l]) >= d
  }

  ghost predicate InReach(wrap: Wrap, a: seq<Point>, b: seq<Point>)
    requires wrap.Valid()
  {
    forall k, l | 0 <= k < |a| && 0 <= l < |b| :: Dist(wrap, a[k], b[l]) < FAR
  }

  function ReachDist(r: Reach): nat {
    if r.Far? then FAR else r.link.dist
  }

  /** A shortest link from one of the linked polygons to this one. */
  ghost predicate Nearest(wrap: Wrap, linked: set<Polynode>, poly: seq<Point>, r: Reach)
    requires wrap.Valid()
  {
    && (r.Near? ==> r.node in linked && Shortest(wrap, r.node.poly, poly, FAR, Some(r.link)))
    && ReachDist(r) <= FAR
    && forall n <- linked :: Beyond(wrap, n.poly, poly, ReachDist(r))
  }

  lemma NearestOfNone(wrap: Wrap, poly: seq<Point>)
    requires wrap.Valid()
    ensures Nearest(wrap, {}, poly, Far)
  {
  }

  lemma NearestOfMore(wrap: Wrap, linked: set<Polynode>, last: Polynode, poly: seq<Point>, r: Reach,
                      result: Option<FindMin.Link>)
    requires wrap.Valid() && Nearest(wrap, linked, poly, r)
    requires Shortest(wrap, last.poly, poly, ReachDist(r), result)
    ensures Nearest(wrap, linked + {last}, poly, if result.Some? then Near(result.value, last) else r)
  {
    hide Leads, Between;
    if result.Some? {
      forall n | n in linked ensures Beyond(wrap, n.poly, poly, result.value.dist) {
        assert Beyond(wrap, n.poly, poly, ReachDist(r));
      }
    }
  }

  /** Sides lead to neighbouring points. */
  lemma OutlinedSteps(wrap: Wrap, poly: seq<Point>)
    requires wrap.Valid() && Outlined(wrap, poly)
    ensures Steps(wrap, poly)
  {
    hide Leads, Dist;
    forall i | 0 <= i < |poly| - 1 ensures Dist(wrap, poly[i], poly[i + 1]) <= 2 {
      assert Around(i, 1, |poly|) == i + 1;
      StepIsShort(wrap, poly[i], poly[i + 1]);
    }
  }

  lemma StepIsShort(wrap: Wrap, p: Point, q: Point)
    requires wrap.Valid() && Leads(wrap, Vec(DirX(p.dir), DirY(p.dir)), At(p), At(q))
    ensures Dist(wrap, p, q) <= 2
  {
    hide Vec.Norm2, Wrap.Min, Wrap.Period, DirX, DirY;
    var u, v := Vec(DirX(p.dir), DirY(p.dir)), At(q).Minus(At(p));
    MinIsShortest(wrap, v, u.Minus(v));
    OverAndBack(u, v);
    SideIsShort(p.dir);
  }

  lemma OverAndBack(u: Vec, v: Vec)
    ensures v.Plus(u.Minus(v)) == u
  {
  }

  lemma SideIsShort(d: Dir)
    ensures Vec(DirX(d), DirY(d)).Norm2() <= 2
  {
  }

  ghost predicate Different(s: seq<Polynode>) {
    forall i, j | 0 <= i < j < |s| :: s[i] != s[j]
  }

  ghost function All(s: seq<Polynode>): set<Polynode> {
    set n | n in s
  }

  // ---------- growing greedily ----------

  /** A branch that was added to the tree, and how long the link is. */
  datatype Added = Added(at: Polynode, branch: Branch, dist: nat)

  ghost function Built(root: Polynode, added: seq<Added>): (t: Tree)
    ensures t.node == root
  {
    if added == [] then Tree(root, [])
    else
      var g := added[|added| - 1];
      Grow(Built(root, added[..|added| - 1]), g.at, g.branch)
  }

  /** The link of a branch is a shortest one from the tree to the rest. */
  ghost predicate ShortestCut(wrap: Wrap, all: set<Polynode>, t: Tree, g: Added)
    requires wrap.Valid()
  {
    var next := g.branch.child.node;
    && Joins(t, g.at, g.branch) && next in all
    && g.dist == Dist(wrap, g.at.poly[g.branch.start], next.poly[g.branch.index])
    && g.dist == Vec(g.branch.dx, g.branch.dy).Norm2()
    && Leads(wrap, Vec(g.branch.dx, g.branch.dy), At(g.at.poly[g.branch.start]), At(next.poly[g.branch.index]))
    && forall a, b | a in Nodes(t) && b in all - Nodes(t) :: Beyond(wrap, a.poly, b.poly, g.dist)
  }

  ghost predicate Greedy(wrap: Wrap, all: set<Polynode>, root: Polynode, added: seq<Added>)
    requires wrap.Valid()
  {
    forall i | 0 <= i < |added| :: ShortestCut(wrap, all, Built(root, added[..i]), added[i])
  }

  /** How many legs these polygons still add to the walk. */
  function ToCome(totlist: seq<Polynode>): nat {
    if totlist == [] then 0 else ToCome(totlist[..|totlist| - 1]) + 2 + |totlist[|totlist| - 1].poly|
  }

  function Sides(polys: seq<seq<Point>>): nat {
    if polys == [] then 0 else Sides(polys[..|polys| - 1]) + |polys[|polys| - 1]|
  }

  lemma {:induction false} ToComeWithout(totlist: seq<Polynode>, at: nat)
    requires at < |totlist|
    ensures ToCome(totlist) == ToCome(Less(totlist, at)) + 2 + |totlist[at].poly|
  {
    var n := |totlist| - 1;
    if at == n {
      assert Less(totlist, at) == totlist[..n];
    } else {
      ToComeWithout(totlist[..n], at);
      assert Less(totlist, at)[..n - 1] == Less(totlist[..n], at);
    }
  }

  lemma {:induction false} ToComeOfAll(nodes: seq<Polynode>, polys: seq<seq<Point>>)
    requires |nodes| == |polys| && forall i | 0 <= i < |polys| :: nodes[i].poly == polys[i]
    ensures ToCome(nodes) == Sides(polys) + 2 * |polys|
  {
    if nodes != [] {
      ToComeOfAll(nodes[..|nodes| - 1], polys[..|polys| - 1]);
    }
  }

  /** All that holds while links are added. */
  ghost predicate Linking(wrap: Wrap, nodes: seq<Polynode>, totlist: seq<Polynode>, root: Polynode,
                          added: seq<Added>, m: map<Polynode, Links>)
    requires wrap.Valid()
  {
    var t := Built(root, added);
    && (forall n <- nodes :: |n.poly| > 0 && Outlined(wrap, n.poly))
    && Proper(t) && Laid(wrap, t) && Holds(m, t)
    && Nodes(t) !! All(totlist) && Nodes(t) + All(totlist) == All(nodes) && Different(totlist)
    && (forall j <- totlist :: j in m && m[j] == Links([], []))
    && |added| + |totlist| + 1 == |nodes|
    && Greedy(wrap, All(nodes), root, added)
  }

  // ---------- the linking ----------

  method MakeNodes(polys: seq<seq<Point>>) returns (nodes: seq<Polynode>)
    ensures |nodes| == |polys| && Different(nodes)
    ensures forall i | 0 <= i < |polys| ::
              && fresh(nodes[i]) && nodes[i].poly == polys[i] && nodes[i].dist == Far
              && nodes[i].linkstarts == [] && nodes[i].linktargets == []
  {
    nodes := [];
    var i := 0;
    while i < |polys|
      invariant 0 <= i <= |polys| && |nodes| == i && Different(nodes)
      invariant forall k | 0 <= k < i ::
          && fresh(nodes[k]) && nodes[k].poly == polys[k] && nodes[k].dist == Far
          && nodes[k].linkstarts == [] && nodes[k].linktargets == []
    {
      var n := new Polynode(polys[i]);
      nodes := nodes + [n];
      i := i + 1;
    }
  }

  /** The polygon that was linked last may be nearer to the others than those before. */
  method UpdateReach(totlist: seq<Polynode>, last: Polynode, wrap: Wrap, root: nat -> real, ghost linked: set<Polynode>)
    requires wrap.Valid() && IsRoot(root) && Different(totlist) && Steps(wrap, last.poly)
    requires forall j <- totlist :: Steps(wrap, j.poly) && Nearest(wrap, linked, j.poly, j.dist)
    modifies totlist`dist
    ensures forall j <- totlist :: Nearest(wrap, linked + {last}, j.poly, j.dist)
  {
    hide Nearest, Steps, Shortest, IsRoot;
    var q := 0;
    while q < |totlist|
      invariant 0 <= q <= |totlist|
      invariant forall h | 0 <= h < q :: Nearest(wrap, linked + {last}, totlist[h].poly, totlist[h].dist)
      invariant forall h | q <= h < |totlist| :: Nearest(wrap, linked, totlist[h].poly, totlist[h].dist)
    {
      var j := totlist[q];
      var result := FindMin.FindMin(last.poly, j.poly, ReachDist(j.dist), wrap, root);
      NearestOfMore(wrap, linked, last, j.poly, j.dist, result);
      if result.Some? {
        j.dist := Near(result.value, last);
      }
      q := q + 1;
    }
  }

  /** The first of the nearest polygons. */
  method PickNearest(totlist: seq<Polynode>) returns (at: nat)
    requires totlist != [] && forall j <- totlist :: ReachDist(j.dist) <= FAR
    ensures at < |totlist|
    ensures forall h | 0 <= h < |totlist| :: ReachDist(totlist[at].dist) <= ReachDist(totlist[h].dist)
    ensures forall h | 0 <= h < at :: ReachDist(totlist[at].dist) < ReachDist(totlist[h].dist)
  {
    var mindist := FARTHER;
    at := 0;
    var q := 0;
    while q < |totlist|
      invariant 0 <= q <= |totlist| && at < |totlist| && at <= q
      invariant q == 0 ==> mindist == FARTHER
      invariant q > 0 ==> at < q && mindist == ReachDist(totlist[at].dist)
      invariant forall h | 0 <= h < q :: mindist <= ReachDist(totlist[h].dist)
      invariant forall h | 0 <= h < at :: mindist < ReachDist(totlist[h].dist)
    {
      if ReachDist(totlist[q].dist) < mindist {
        at := q;
        mindist := ReachDist(totlist[q].dist);
      }
      q := q + 1;
    }
  }

  /** A branch to the nearest of the polygons that are left is a shortest link from the tree. */
  lemma NearestIsShortestCut(wrap: Wrap, nodes: seq<Polynode>, totlist: seq<Polynode>, t: Tree, at: nat,
                             dist: seq<Reach>, b: Branch)
    requires wrap.Valid() && Nodes(t) !! All(totlist) && Nodes(t) + All(totlist) == All(nodes)
    requires |dist| == |totlist| && at < |totlist|
    requires forall h | 0 <= h < |totlist| :: Nearest(wrap, Nodes(t), totlist[h].poly, dist[h])
    requires forall h | 0 <= h < |totlist| :: ReachDist(dist[at]) <= ReachDist(dist[h])
    requires dist[at].Near?
    requires var link := dist[at].link; b == Branch(link.k, Tree(totlist[at], []), link.l, link.dx, link.dy)
    ensures ShortestCut(wrap, All(nodes), t, Added(dist[at].node, b, dist[at].link.dist))
  {
    hide Nodes, Leads, Dist;
    var link := dist[at].link;
    assert Nearest(wrap, Nodes(t), totlist[at].poly, dist[at]);
    forall a, c | a in Nodes(t) && c in All(nodes) - Nodes(t)
      ensures Beyond(wrap, a.poly, c.poly, link.dist)
    {
      assert c in All(totlist);
      var h :| 0 <= h < |totlist| && totlist[h] == c;
      assert Beyond(wrap, a.poly, totlist[h].poly, ReachDist(dist[h]));
    }
  }

  /** Not all points of a linked polygon and another one can be out of reach. */
  lemma NearestInReach(wrap: Wrap, linked: set<Polynode>, n: Polynode, poly: seq<Point>, r: Reach)
    requires wrap.Valid() && Nearest(wrap, linked, poly, r) && n in linked
    requires InReach(wrap, n.poly, poly) && |n.poly| > 0 && |poly| > 0
    ensures r.Near?
  {
    hide Dist;
    assert Beyond(wrap, n.poly, poly, ReachDist(r));
    assert Dist(wrap, n.poly[0], poly[0]) < FAR;
    assert Dist(wrap, n.poly[0], poly[0]) >= ReachDist(r);
  }

  lemma LinkingStarts(wrap: Wrap, nodes: seq<Polynode>, m: map<Polynode, Links>)
    requires wrap.Valid() && nodes != [] && Different(nodes)
    requires forall n <- nodes :: |n.poly| > 0 && Outlined(wrap, n.poly) && n in m && m[n] == Links([], [])
    ensures Linking(wrap, nodes, nodes[..|nodes| - 1], nodes[|nodes| - 1], [], m)
  {
    hide Outlined;
    var root, totlist := nodes[|nodes| - 1], nodes[..|nodes| - 1];
    assert nodes == totlist + [root];
    LeafNodes(Tree(root, []));
  }

  function Less(totlist: seq<Polynode>, at: nat): (s: seq<Polynode>)
    requires at < |totlist|
    ensures |s| == |totlist| - 1
    ensures forall h | 0 <= h < |s| :: s[h] == totlist[if h < at then h else h + 1]
  {
    totlist[..at] + totlist[at + 1..]
  }

  lemma AllLess(totlist: seq<Polynode>, at: nat)
    requires at < |totlist| && Different(totlist)
    ensures All(Less(totlist, at)) == All(totlist) - {totlist[at]} && Different(Less(totlist, at))
  {
    var less := Less(totlist, at);
    forall n | n in All(totlist) && n != totlist[at] ensures n in All(less) {
      var h :| 0 <= h < |totlist| && totlist[h] == n;
      assert less[if h < at then h else h - 1] == n;
    }
  }

  /** Another link is added. */
  lemma LinkingGoesOn(wrap: Wrap, nodes: seq<Polynode>, totlist: seq<Polynode>, root: Polynode, added: seq<Added>,
                      m: map<Polynode, Links>, at: nat, g: Added)
    requires wrap.Valid() && Linking(wrap, nodes, totlist, root, added, m) && at < |totlist| && g.at in m
    requires ShortestCut(wrap, All(nodes), Built(root, added), g) && g.branch.child == Tree(totlist[at], [])
    ensures var l := Links(m[g.at].starts + [g.branch.start], m[g.at].targets + [TargetOf(g.branch)]);
            Linking(wrap, nodes, Less(totlist, at), root, added + [g], m[g.at := l])
    ensures Nodes(Built(root, added + [g])) == Nodes(Built(root, added)) + {totlist[at]}
    ensures Weight(Built(root, added + [g])) + ToCome(Less(totlist, at)) == Weight(Built(root, added)) + ToCome(totlist)
  {
    hide Nodes, Outlined, Leads, Dist, Proper, Laid, Holds, Grow, Weight, ToCome;
    var t, more := Built(root, added), added + [g];
    var l := Links(m[g.at].starts + [g.branch.start], m[g.at].targets + [TargetOf(g.branch)]);
    assert more[..|added|] == added;
    var r := Built(root, more);
    assert r == Grow(t, g.at, g.branch);
    hide Built;
    InList(nodes, totlist, at);
    GrowLaid(wrap, t, g.at, g.branch);
    GrowHolds(m, t, g.at, g.branch);
    GrowNodesSet(t, g.at, g.branch);
    GrowWeight(t, g.at, g.branch);
    ToComeWithout(totlist, at);
    AllLess(totlist, at);
    StillGreedy(wrap, All(nodes), root, added, g);
    NotInRest(t, totlist, at, g.at);
    Exchange(Nodes(t), All(totlist), totlist[at]);
  }

  lemma Exchange<T>(a: set<T>, b: set<T>, x: T)
    requires x in b
    ensures (a + {x}) + (b - {x}) == a + b
  {
  }

  lemma InList(nodes: seq<Polynode>, totlist: seq<Polynode>, at: nat)
    requires at < |totlist| && All(totlist) <= All(nodes)
    ensures totlist[at] in All(totlist) && totlist[at] in nodes
  {
  }

  lemma NotInRest(t: Tree, totlist: seq<Polynode>, at: nat, n: Polynode)
    requires Nodes(t) !! All(totlist) && n in Nodes(t) && at < |totlist|
    ensures n !in totlist && n !in Less(totlist, at)
  {
    hide Nodes;
    assert forall h | 0 <= h < |totlist| :: totlist[h] in All(totlist);
  }

  lemma StillGreedy(wrap: Wrap, all: set<Polynode>, root: Polynode, added: seq<Added>, g: Added)
    requires wrap.Valid() && Greedy(wrap, all, root, added) && ShortestCut(wrap, all, Built(root, added), g)
    ensures Greedy(wrap, all, root, added + [g])
  {
    hide ShortestCut, Built;
    var more := added + [g];
    forall i | 0 <= i < |more| ensures ShortestCut(wrap, all, Built(root, more[..i]), more[i]) {
      assert more[..i] == added[..i];
      if i == |added| {
        assert added[..i] == added;
      }
    }
  }

  /** What the linking needs to know of the polygons that are left. */
  lemma LeftOver(wrap: Wrap, nodes: seq<Polynode>, totlist: seq<Polynode>, root: Polynode,
                 added: seq<Added>, m: map<Polynode, Links>)
    requires wrap.Valid() && Linking(wrap, nodes, totlist, root, added, m)
    ensures Different(totlist) && forall j <- totlist :: j in nodes && |j.poly| > 0 && Steps(wrap, j.poly)
    ensures forall n <- Nodes(Built(root, added)) :: n in nodes && |n.poly| > 0 && Steps(wrap, n.poly)
    ensures Nodes(Built(root, added)) !! All(totlist) && Nodes(Built(root, added)) + All(totlist) == All(nodes)
    ensures root in Nodes(Built(root, added))
  {
    hide Nodes, Proper, Laid, Holds, Greedy, Built, Steps, Outlined;
    RootNode(Built(root, added));
    forall n | n in nodes ensures Steps(wrap, n.poly) {
      OutlinedSteps(wrap, n.poly);
    }
    assert forall n :: n in All(nodes) <==> n in nodes;
    assert forall j <- totlist :: j in All(totlist);
  }

  /** Links the nearest of the polygons that are left. */
  method LinkNext(totlist: seq<Polynode>, last: Polynode, wrap: Wrap, rt: nat -> real, ghost nodes: seq<Polynode>,
                  ghost root: Polynode, ghost added: seq<Added>, ghost m: map<Polynode, Links>,
                  ghost known: set<Polynode>)
    returns (less: seq<Polynode>, mink: Polynode, ghost more: seq<Added>, ghost m1: map<Polynode, Links>)
    requires wrap.Valid() && IsRoot(rt) && totlist != []
    requires Linking(wrap, nodes, totlist, root, added, m) && Recorded(m, All(nodes))
    requires known + {last} == Nodes(Built(root, added))
    requires forall j <- totlist :: Nearest(wrap, known, j.poly, j.dist)
    requires forall a, b | a in nodes && b in nodes :: InReach(wrap, a.poly, b.poly)
    modifies nodes
    ensures Linking(wrap, nodes, less, root, more, m1) && Recorded(m1, All(nodes)) && |less| == |totlist| - 1
    ensures Nodes(Built(root, more)) == Nodes(Built(root, added)) + {mink}
    ensures Weight(Built(root, more)) + ToCome(less) == Weight(Built(root, added)) + ToCome(totlist)
    ensures forall j <- less :: Nearest(wrap, Nodes(Built(root, added)), j.poly, j.dist)
  {
    hide Linking, Nearest, InReach, Nodes, Built, Steps, IsRoot, ShortestCut, All, Weight, ToCome;
    ghost var t := Built(root, added);
    LeftOver(wrap, nodes, totlist, root, added, m);
    assert forall h | 0 <= h < |totlist| :: totlist[h] in nodes;
    UpdateReach(totlist, last, wrap, rt, known);
    ReachBounded(wrap, Nodes(t), totlist);
    var at := PickNearest(totlist);
    mink := totlist[at];
    NearestInReach(wrap, Nodes(t), root, mink.poly, mink.dist);
    var link, r := mink.dist.link, mink.dist.node;
    NearestNode(wrap, Nodes(t), mink.poly, mink.dist);
    ghost var b := Branch(link.k, Tree(mink, []), link.l, link.dx, link.dy);
    ghost var g := Added(r, b, link.dist);
    NearestIsShortestCut(wrap, nodes, totlist, t, at,
                         seq(|totlist|, h requires 0 <= h < |totlist| reads totlist => totlist[h].dist), b);
    LinkingGoesOn(wrap, nodes, totlist, root, added, m, at, g);
    more := added + [g];
    m1 := m[r := Links(m[r].starts + [link.k], m[r].targets + [TargetOf(b)])];
    less := totlist[..at] + totlist[at + 1..];
    r.linkstarts := r.linkstarts + [link.k];
    r.linktargets := r.linktargets + [Target(mink, link.l, link.dx, link.dy)];
  }

  lemma NearestNode(wrap: Wrap, linked: set<Polynode>, poly: seq<Point>, r: Reach)
    requires wrap.Valid() && Nearest(wrap, linked, poly, r) && r.Near?
    ensures r.node in linked && r.link.k < |r.node.poly| && r.link.l < |poly|
  {
  }

  lemma ReachBounded(wrap: Wrap, linked: set<Polynode>, totlist: seq<Polynode>)
    requires wrap.Valid() && forall j <- totlist :: Nearest(wrap, linked, j.poly, j.dist)
    ensures forall j <- totlist :: ReachDist(j.dist) <= FAR
  {
  }

  /** Links all polygons to one tree. */
  method LinkAll(polys: seq<seq<Point>>, wrap: Wrap, rt: nat -> real)
    returns (res: Polynode, ghost nodes: seq<Polynode>, ghost added: seq<Added>)
    requires wrap.Valid() && IsRoot(rt) && |polys| > 0
    requires forall p <- polys :: |p| > 0 && Outlined(wrap, p)
    requires forall p, q | p in polys && q in polys :: InReach(wrap, p, q)
    ensures |nodes| == |polys| && Different(nodes) && res == nodes[|nodes| - 1] && |res.poly| > 0
    ensures forall i | 0 <= i < |polys| :: nodes[i].poly == polys[i]
    ensures forall n <- nodes :: fresh(n)
    ensures |added| == |polys| - 1 && Greedy(wrap, All(nodes), res, added)
    ensures var t := Built(res, added);
            && Proper(t) && Laid(wrap, t) && Shows(t) && Nodes(t) == All(nodes)
            && Weight(t) == Sides(polys) + 2 * (|polys| - 1)
  {
    hide Outlined, Linking, Nearest, InReach, Nodes, Built, Proper, Laid, Greedy, Shows, Weight, ToCome, Sides;
    var made := MakeNodes(polys);
    nodes := made;
    added := [];
    var totlist: seq<Polynode> := made[..|made| - 1];
    res := made[|made| - 1];
    var last := res;
    ghost var m := map n | n in nodes :: Links([], []);
    ghost var known: set<Polynode> := {};
    MadeFit(wrap, polys, nodes);
    LinkingStarts(wrap, nodes, m);
    BuiltStarts(res);
    WeightStarts(made, polys, res);
    forall j | j in totlist ensures Nearest(wrap, known, j.poly, j.dist) {
      NearestOfNone(wrap, j.poly);
    }
    while totlist != []
      invariant Linking(wrap, nodes, totlist, res, added, m) && Recorded(m, All(nodes))
      invariant known + {last} == Nodes(Built(res, added))
      invariant Weight(Built(res, added)) + ToCome(totlist) == Sides(polys) + 2 * (|polys| - 1)
      invariant forall j <- totlist :: Nearest(wrap, known, j.poly, j.dist)
      decreases |totlist|
    {
      ghost var tree := Nodes(Built(res, added));
      totlist, last, added, m := LinkNext(totlist, last, wrap, rt, nodes, res, added, m, known);
      known := tree;
    }
    LinkingEnds(wrap, nodes, res, added, m);
    NoneToCome();
  }

  lemma NoneToCome()
    ensures ToCome([]) == 0
  {
  }

  /** Links all polygons and goes around them. */
  method PolyLink(polys: seq<seq<Point>>, wrap: Wrap, rt: nat -> real)
    returns (result: seq<Leg>, ghost nodes: seq<Polynode>, ghost added: seq<Added>)
    requires wrap.Valid() && IsRoot(rt) && |polys| > 0
    requires forall p <- polys :: |p| > 0 && Outlined(wrap, p)
    requires forall p, q | p in polys && q in polys :: InReach(wrap, p, q)
    ensures ClosedLine(wrap, result) && |result| == Sides(polys) + 2 * (|polys| - 1)
    ensures LegStart(result[0]) == At(polys[|polys| - 1][0])
    ensures forall i, s | 0 <= i < |polys| && 0 <= s < |polys[i]| :: HasSide(wrap, result, polys[i][s])
    ensures |nodes| == |polys| && Different(nodes) && forall i | 0 <= i < |polys| :: nodes[i].poly == polys[i]
    ensures |added| == |polys| - 1 && Greedy(wrap, All(nodes), nodes[|nodes| - 1], added)
    ensures var t := Built(nodes[|nodes| - 1], added);
            && Proper(t) && Laid(wrap, t) && Nodes(t) == All(nodes)
            && result == Legs(Walk(t, 0, t.node.poly[0].x, t.node.poly[0].y))
  {
    hide Outlined, InReach, Legs, Walk, Nodes, Built, Proper, Laid, Greedy, Shows, Weight, Sides, ClosedLine, HasSide;
    var res;
    res, nodes, added := LinkAll(polys, wrap, rt);
    ghost var t := Built(res, added);
    result := res.Traverse(res.poly[0].x, res.poly[0].y, 0, [], t);
    assert [] + Legs(Walk(t, 0, res.poly[0].x, res.poly[0].y)) == Legs(Walk(t, 0, res.poly[0].x, res.poly[0].y));
    WalkReturned(wrap, polys, nodes, t);
  }

  lemma WeightStarts(nodes: seq<Polynode>, polys: seq<seq<Point>>, root: Polynode)
    requires |nodes| == |polys| > 0 && forall i | 0 <= i < |polys| :: nodes[i].poly == polys[i]
    requires root == nodes[|nodes| - 1]
    ensures Weight(Built(root, [])) + ToCome(nodes[..|nodes| - 1]) == Sides(polys) + 2 * (|polys| - 1)
  {
    ToComeOfAll(nodes, polys);
    assert Weight(Tree(root, [])) == |root.poly|;
  }

  /** What the walk around the tree of all polygons returns. */
  lemma WalkReturned(wrap: Wrap, polys: seq<seq<Point>>, nodes: seq<Polynode>, t: Tree)
    requires wrap.Valid() && Proper(t) && Laid(wrap, t) && Nodes(t) == All(nodes) && |t.node.poly| > 0
    requires |nodes| == |polys| && forall i | 0 <= i < |polys| :: nodes[i].poly == polys[i]
    ensures var p := t.node.poly[0];
            var legs := Legs(Walk(t, 0, p.x, p.y));
            && ClosedLine(wrap, legs) && |legs| == Weight(t) && LegStart(legs[0]) == At(p)
            && forall i, s | 0 <= i < |polys| && 0 <= s < |polys[i]| :: HasSide(wrap, legs, polys[i][s])
  {
    hide Proper, Laid, Nodes, Walk, Legs, HasSide, Weight;
    var p := t.node.poly[0];
    LegsClosed(wrap, t, 0);
    WalkLength(t, 0, p.x, p.y);
    FirstLeg(t, p.x, p.y);
    forall i, s | 0 <= i < |polys| && 0 <= s < |polys[i]|
      ensures HasSide(wrap, Legs(Walk(t, 0, p.x, p.y)), polys[i][s])
    {
      assert nodes[i] in All(nodes);
      LegsHaveSide(wrap, t, 0, nodes[i], s);
    }
  }

  lemma FirstLeg(t: Tree, x: int, y: int)
    requires Proper(t) && |t.node.poly| > 0
    ensures var legs := Legs(Walk(t, 0, x, y));
            legs != [] && LegStart(legs[0]) == Vec(x, y)
  {
    hide Proper, Nodes, LinkWalk, Go;
    if 0 in Starts(t.branches) {
      GoBranch(t, t.branches, 0, |t.node.poly|, x, y);
      FirstOfLink(t, t.branches[FirstIndex(Starts(t.branches), 0)], x, y);
    } else {
      GoSide(t, t.branches, 0, |t.node.poly|, x, y);
    }
  }

  lemma FirstOfLink(t: Tree, b: Branch, x: int, y: int)
    requires Proper(t) && b in t.branches
    ensures var walk := LinkWalk(t, b, x, y); walk != [] && walk[0].x == x && walk[0].y == y
  {
    hide Proper, Walk;
  }

  lemma MadeFit(wrap: Wrap, polys: seq<seq<Point>>, nodes: seq<Polynode>)
    requires wrap.Valid() && |nodes| == |polys| && forall i | 0 <= i < |polys| :: nodes[i].poly == polys[i]
    requires forall p <- polys :: |p| > 0 && Outlined(wrap, p)
    requires forall p, q | p in polys && q in polys :: InReach(wrap, p, q)
    ensures forall n <- nodes :: |n.poly| > 0 && Outlined(wrap, n.poly)
    ensures forall a, b | a in nodes && b in nodes :: InReach(wrap, a.poly, b.poly)
  {
    hide Outlined, InReach;
    assert forall n <- nodes :: n.poly in polys;
  }

  lemma BuiltStarts(root: Polynode)
    ensures Nodes(Built(root, [])) == {root}
  {
    LeafNodes(Tree(root, []));
  }

  lemma LinkingEnds(wrap: Wrap, nodes: seq<Polynode>, root: Polynode, added: seq<Added>, m: map<Polynode, Links>)
    requires wrap.Valid() && Linking(wrap, nodes, [], root, added, m) && Recorded(m, All(nodes))
    ensures var t := Built(root, added);
            && Proper(t) && Laid(wrap, t) && Nodes(t) == All(nodes) && Shows(t) && t.node == root
    ensures |added| == |nodes| - 1 && Greedy(wrap, All(nodes), root, added)
    ensures |root.poly| > 0
  {
    hide Nodes, Laid, Shows, Greedy, Outlined;
    var t := Built(root, added);
    HasPoints(t);
    hide Built, Proper;
    assert Nodes(t) == All(nodes);
    RecordedShows(m, t);
  }
}
