/** Linked polygons and the walk around them (mapconvert.py): every side of every
    polygon once, and every link once in each direction. */
module Traverse {
  import opened MinWrap
  import opened FindMin
  import opened Outline
  import opened BlockMap
  import opened Sequences

  /** A polygon and the links that start at its points. */
  class Polynode {
    const poly: seq<Point>
    var linkstarts: seq<nat>
    var linktargets: seq<Target>
    var dist: Reach

    constructor (poly: seq<Point>)
      ensures this.poly == poly && linkstarts == [] && linktargets == [] && dist == Far
    {
      this.poly := poly;
      linkstarts, linktargets, dist := [], [], Far;
    }

    /** Goes around the polygon from a point on, and at each point along the links
        that start there, which are used up. */
    method Traverse(x0: int, y0: int, start: nat, reslist: seq<Leg>, ghost t: Tree) returns (res: seq<Leg>)
      requires t.node == this && Proper(t) && Shows(t) && start < |poly|
      modifies Nodes(t)
      ensures res == reslist + Legs(Walk(t, start, x0, y0))
      decreases t, 2
    {
      hide Nodes, Proper, ShowsAll, Go, Legs, Apart;
      res := reslist;
      var x, y, i := x0, y0, start;
      ghost var rest, k := t.branches, |poly|;
      ProperApart(t);
      while true
        invariant 1 <= k <= |poly| && i == Around(start, |poly| - k, |poly|)
        invariant Part(rest, t) && Apart(rest) && ShowsAll(t, rest)
        invariant res + Legs(Go(t, rest, i, k, x, y)) == reslist + Legs(Walk(t, start, x0, y0))
        decreases k
      {
        while i in linkstarts
          invariant Part(rest, t) && Apart(rest) && ShowsAll(t, rest)
          invariant res + Legs(Go(t, rest, i, k, x, y)) == reslist + Legs(Walk(t, start, x0, y0))
          decreases |rest|
        {
          ShowsStarts(t, rest);
          ghost var j := FirstIndex(Starts(rest), i);
          GoBranch(t, rest, i, k, x, y);
          ghost var done := LinkWalk(t, rest[j], x, y);
          LegsJoin(done, Go(t, Without(rest, j), i, k, x, y));
          PartWithout(t, rest, j);
          ghost var was := res;
          res := FollowLink(x, y, i, res, t, rest);
          rest := Without(rest, j);
          Regroup(was, Legs(done), Legs(Go(t, rest, i, k, x, y)));
        }
        ShowsStarts(t, rest);
        GoSide(t, rest, i, k, x, y);
        ghost var i1 := Around(i, 1, |poly|);
        var d := poly[i].dir;
        LegsJoin([Visit(x, y, Side(this, i))], Go(t, rest, i1, k - 1, x + DirX(d), y + DirY(d)));
        OneLeg(Visit(x, y, Side(this, i)));
        Regroup(res, [Leg(x, y, DirX(d), DirY(d), false)], Legs(Go(t, rest, i1, k - 1, x + DirX(d), y + DirY(d))));
        res := res + [Leg(x, y, DirX(d), DirY(d), false)];
        x := x + DirX(d);
        y := y + DirY(d);
        i := if i + 1 == |poly| then 0 else i + 1;
        k := k - 1;
        if i == start {
          break;
        }
      }
      GoEnds(t, rest, i, x, y);
    }

    /** Goes along the first link that starts at point i, around all that is linked
        there, and back; the link is used up. */
    method FollowLink(x: int, y: int, i: nat, reslist: seq<Leg>, ghost t: Tree, ghost rest: seq<Branch>)
      returns (res: seq<Leg>)
      requires t.node == this && Proper(t) && Part(rest, t) && Apart(rest) && ShowsAll(t, rest) && i in linkstarts
      requires i in Starts(rest)
      modifies Nodes(t)
      ensures var j := FirstIndex(Starts(rest), i);
              ShowsAll(t, Without(rest, j)) && res == reslist + Legs(LinkWalk(t, rest[j], x, y))
      decreases t, 1
    {
      hide Walk, Legs, LinkWalk, Proper, Nodes, Shows, Apart;
      ShowsStarts(t, rest);
      var j := FirstIndex(linkstarts, i);
      var lt := linktargets[j];
      ghost var b := rest[j];
      BranchIsProper(t, rest, j);
      res := reslist + [Leg(x, y, lt.dx, lt.dy, true)];
      res := VisitLinked(x + lt.dx, y + lt.dy, j, res, t, rest);
      res := res + [Leg(x + lt.dx, y + lt.dy, -lt.dx, -lt.dy, true)];
      PartWithout(t, rest, j);
      DropLink(j, t, rest);
      LegsOfLink(t, b, x, y);
    }

    /** Goes around all that is linked by the j-th link; nothing else is used up. */
    method VisitLinked(x: int, y: int, j: nat, reslist: seq<Leg>, ghost t: Tree, ghost rest: seq<Branch>)
      returns (res: seq<Leg>)
      requires t.node == this && Proper(t) && Part(rest, t) && Apart(rest) && ShowsAll(t, rest) && j < |rest|
      requires var b := rest[j]; Proper(b.child) && b.index < |b.child.node.poly|
      modifies Nodes(rest[j].child)
      ensures linkstarts == old(linkstarts) && linktargets == old(linktargets)
      ensures forall l | 0 <= l < |rest| :: this !in Nodes(rest[l].child) && (l != j ==> Shows(rest[l].child))
      ensures res == reslist + Legs(Walk(rest[j].child, rest[j].index, x, y))
      decreases t, 0
    {
      hide Walk, Legs, LinkWalk, Proper, Nodes, Shows, Apart;
      forall l | 0 <= l < |rest| ensures forall n <- Nodes(rest[l].child) :: allocated(n) {
        NodesAllocated(rest[l].child);
      }
      BranchIsProper(t, rest, j);
      var lt := linktargets[j];
      res := lt.node.Traverse(x, y, lt.index, reslist, rest[j].child);
      forall l | 0 <= l < |rest| ensures this !in Nodes(rest[l].child) && (l != j ==> Shows(rest[l].child)) {
        BranchIsProper(t, rest, l);
        AreApart(rest, l, j);
        assert old(Shows(rest[l].child));
      }
    }

    method DropLink(j: nat, ghost t: Tree, ghost rest: seq<Branch>)
      requires t.node == this && Part(rest, t) && j < |rest| == |linkstarts| == |linktargets|
      requires Part(Without(rest, j), t)
      requires forall l | 0 <= l < |rest| ::
                 && linkstarts[l] == rest[l].start
                 && linktargets[l] == Target(rest[l].child.node, rest[l].index, rest[l].dx, rest[l].dy)
      requires forall l | 0 <= l < |rest| :: this !in Nodes(rest[l].child) && (l != j ==> Shows(rest[l].child))
      modifies this
      ensures ShowsAll(t, Without(rest, j))
    {
      hide Nodes, Shows;
      linkstarts := linkstarts[..j] + linkstarts[j + 1..];
      linktargets := linktargets[..j] + linktargets[j + 1..];
    }
  }

  datatype Links = Links(starts: seq<nat>, targets: seq<Target>)

  datatype Target = Target(node: Polynode, index: nat, dx: int, dy: int)

  /** How near a polygon is to those already linked, and by which link to which of them. */
  datatype Reach = Far | Near(link: FindMin.Link, node: Polynode)

  /** What the walk returns: a step from (x, y), along a link or a side. */
  datatype Leg = Leg(x: int, y: int, dx: int, dy: int, link: bool)

  /** The links that start at a polygon and the polygons they lead to. */
  datatype Tree = Tree(node: Polynode, branches: seq<Branch>)

  datatype Branch = Branch(start: nat, child: Tree, index: nat, dx: int, dy: int)

  // ---------- trees of linked polygons ----------

  /** Some branches of a tree. */
  ghost predicate Part(rest: seq<Branch>, t: Tree) {
    forall j | 0 <= j < |rest| :: rest[j] in t.branches
  }

  ghost function Nodes(t: Tree): (s: set<Polynode>)
    ensures t.node in s
    ensures forall j | 0 <= j < |t.branches| :: Nodes(t.branches[j].child) <= s
    decreases t, |t.branches| + 1
  {
    {t.node} + NodesBelow(t, |t.branches|)
  }

  /** The polygons that the first k branches lead to. */
  ghost function NodesBelow(t: Tree, k: nat): (s: set<Polynode>)
    requires k <= |t.branches|
    ensures forall j | 0 <= j < k :: Nodes(t.branches[j].child) <= s
    decreases t, k
  {
    if k == 0 then {} else NodesBelow(t, k - 1) + Nodes(t.branches[k - 1].child)
  }

  lemma NodesAllocated(t: Tree)
    ensures forall n <- Nodes(t) :: allocated(n)
    decreases t, |t.branches| + 1
  {
    NodesBelowAllocated(t, |t.branches|);
  }

  lemma NodesBelowAllocated(t: Tree, k: nat)
    requires k <= |t.branches|
    ensures forall n <- NodesBelow(t, k) :: allocated(n)
    decreases t, k
  {
    if k > 0 {
      NodesBelowAllocated(t, k - 1);
      NodesAllocated(t.branches[k - 1].child);
    }
  }

  ghost predicate Apart(rest: seq<Branch>) {
    forall i, j | 0 <= i < j < |rest| :: Nodes(rest[i].child) !! Nodes(rest[j].child)
  }

  /** No polygon is in the tree twice, and all links are between points of polygons. */
  ghost predicate Proper(t: Tree)
    decreases t
  {
    && |t.node.poly| > 0
    && Apart(t.branches)
    && forall b <- t.branches ::
         && t.node !in Nodes(b.child) && Proper(b.child)
         && b.start < |t.node.poly| && b.index < |b.child.node.poly|
  }

  /** The links in the polygons are those of the tree. */
  ghost predicate Shows(t: Tree)
    reads Nodes(t)
    decreases t, 1
  {
    ShowsAll(t, t.branches)
  }

  ghost predicate ShowsAll(t: Tree, rest: seq<Branch>)
    requires Part(rest, t)
    reads Nodes(t)
    decreases t, 0
  {
    && |t.node.linkstarts| == |t.node.linktargets| == |rest|
    && forall j | 0 <= j < |rest| ::
         && t.node.linkstarts[j] == rest[j].start
         && t.node.linktargets[j] == Target(rest[j].child.node, rest[j].index, rest[j].dx, rest[j].dy)
         && Shows(rest[j].child)
  }

  // ---------- the walk ----------

  function Around(i: nat, k: nat, n: nat): (j: nat)
    requires i < n && k <= n
    ensures j < n
  {
    if i + k < n then i + k else i + k - n
  }

  /** A step of the walk, and which side or which link it is. */
  datatype Visit = Visit(x: int, y: int, mark: Mark)

  datatype Mark =
    | Side(node: Polynode, i: nat)
    | Out(node: Polynode, branch: Branch)
    | Back(node: Polynode, branch: Branch)

  predicate Marked(m: Mark) {
    m.Side? ==> m.i < |m.node.poly|
  }

  function Stride(m: Mark): Vec
    requires Marked(m)
  {
    match m
    case Side(node, i) => Vec(DirX(node.poly[i].dir), DirY(node.poly[i].dir))
    case Out(_, b) => Vec(b.dx, b.dy)
    case Back(_, b) => Vec(-b.dx, -b.dy)
  }

  ghost function Legs(walk: seq<Visit>): (legs: seq<Leg>)
    requires forall v <- walk :: Marked(v.mark)
    ensures |legs| == |walk|
    ensures forall k | 0 <= k < |walk| ::
              legs[k] == Leg(walk[k].x, walk[k].y, Stride(walk[k].mark).x, Stride(walk[k].mark).y, !walk[k].mark.Side?)
  {
    seq(|walk|, k requires 0 <= k < |walk| =>
      Leg(walk[k].x, walk[k].y, Stride(walk[k].mark).x, Stride(walk[k].mark).y, !walk[k].mark.Side?))
  }

  function Starts(rest: seq<Branch>): (s: seq<nat>)
    ensures |s| == |rest| && forall j | 0 <= j < |rest| :: s[j] == rest[j].start
  {
    seq(|rest|, j requires 0 <= j < |rest| => rest[j].start)
  }

  /** Where i is first in s, or |s|. */
  function FirstIndex(s: seq<nat>, i: nat): (j: nat)
    ensures j <= |s| && (j < |s| <==> i in s) && (j < |s| ==> s[j] == i)
    ensures forall l | 0 <= l < j :: s[l] != i
  {
    if s == [] || s[0] == i then 0 else 1 + FirstIndex(s[1..], i)
  }

  function Without(rest: seq<Branch>, j: nat): (less: seq<Branch>)
    requires j < |rest|
    ensures |less| == |rest| - 1
    ensures forall l | 0 <= l < |less| :: less[l] == rest[if l < j then l else l + 1]
  {
    rest[..j] + rest[j + 1..]
  }

  /** Along a link, around all that is linked there, and back. */
  ghost function LinkWalk(t: Tree, b: Branch, x: int, y: int): (walk: seq<Visit>)
    requires Proper(t) && b in t.branches
    ensures forall v <- walk :: Marked(v.mark)
    decreases t, 0
  {
    [Visit(x, y, Out(t.node, b))]
    + Walk(b.child, b.index, x + b.dx, y + b.dy)
    + [Visit(x + b.dx, y + b.dy, Back(t.node, b))]
  }

  /** The walk from point i on, if k sides are left to go along and some branches. */
  ghost function Go(t: Tree, rest: seq<Branch>, i: nat, k: nat, x: int, y: int): (walk: seq<Visit>)
    requires Proper(t) && Part(rest, t) && i < |t.node.poly| && k <= |t.node.poly|
    ensures forall v <- walk :: Marked(v.mark)
    decreases t, 1, |rest|, k
  {
    var j := FirstIndex(Starts(rest), i);
    if k == 0 then []
    else if j < |rest| then
      LinkWalk(t, rest[j], x, y) + Go(t, Without(rest, j), i, k, x, y)
    else
      var d := t.node.poly[i].dir;
      [Visit(x, y, Side(t.node, i))]
      + Go(t, rest, Around(i, 1, |t.node.poly|), k - 1, x + DirX(d), y + DirY(d))
  }

  ghost function Walk(t: Tree, start: nat, x: int, y: int): (walk: seq<Visit>)
    requires Proper(t) && start < |t.node.poly|
    ensures forall v <- walk :: Marked(v.mark)
    decreases t, 2
  {
    Go(t, t.branches, start, |t.node.poly|, x, y)
  }

  lemma ProperApart(t: Tree)
    requires Proper(t)
    ensures Apart(t.branches) && Part(t.branches, t)
  {
  }

  lemma ShowsStarts(t: Tree, rest: seq<Branch>)
    requires Part(rest, t) && ShowsAll(t, rest)
    ensures t.node.linkstarts == Starts(rest)
  {
  }

  lemma PartWithout(t: Tree, rest: seq<Branch>, j: nat)
    requires Part(rest, t) && Apart(rest) && j < |rest|
    ensures Part(Without(rest, j), t) && Apart(Without(rest, j))
  {
  }

  lemma GoBranch(t: Tree, rest: seq<Branch>, i: nat, k: nat, x: int, y: int)
    requires Proper(t) && Part(rest, t) && i < |t.node.poly| && 0 < k <= |t.node.poly| && i in Starts(rest)
    ensures var j := FirstIndex(Starts(rest), i);
            && Part(Without(rest, j), t)
            && Go(t, rest, i, k, x, y) == LinkWalk(t, rest[j], x, y) + Go(t, Without(rest, j), i, k, x, y)
  {
  }

  lemma GoSide(t: Tree, rest: seq<Branch>, i: nat, k: nat, x: int, y: int)
    requires Proper(t) && Part(rest, t) && i < |t.node.poly| && 0 < k <= |t.node.poly| && i !in Starts(rest)
    ensures var d := t.node.poly[i].dir;
            Go(t, rest, i, k, x, y) == [Visit(x, y, Side(t.node, i))]
              + Go(t, rest, Around(i, 1, |t.node.poly|), k - 1, x + DirX(d), y + DirY(d))
  {
  }

  lemma GoEnds(t: Tree, rest: seq<Branch>, i: nat, x: int, y: int)
    requires Proper(t) && Part(rest, t) && i < |t.node.poly|
    ensures Legs(Go(t, rest, i, 0, x, y)) == []
  {
  }

  lemma LegsJoin(a: seq<Visit>, b: seq<Visit>)
    requires (forall v <- a :: Marked(v.mark)) && forall v <- b :: Marked(v.mark)
    ensures (forall v <- a + b :: Marked(v.mark)) && Legs(a + b) == Legs(a) + Legs(b)
  {
  }

  lemma ThreeLegs(first: Visit, walk: seq<Visit>, last: Visit)
    requires Marked(first.mark) && Marked(last.mark) && forall v <- walk :: Marked(v.mark)
    ensures forall v <- [first] + walk + [last] :: Marked(v.mark)
    ensures Legs([first] + walk + [last]) == Legs([first]) + Legs(walk) + Legs([last])
    ensures Legs([first]) == [Leg(first.x, first.y, Stride(first.mark).x, Stride(first.mark).y, !first.mark.Side?)]
    ensures Legs([last]) == [Leg(last.x, last.y, Stride(last.mark).x, Stride(last.mark).y, !last.mark.Side?)]
  {
  }

  lemma LegsOfLink(t: Tree, b: Branch, x: int, y: int)
    requires Proper(t) && b in t.branches
    ensures Legs(LinkWalk(t, b, x, y)) == [Leg(x, y, b.dx, b.dy, true)]
              + Legs(Walk(b.child, b.index, x + b.dx, y + b.dy)) + [Leg(x + b.dx, y + b.dy, -b.dx, -b.dy, true)]
  {
    hide Walk;
    ThreeLegs(Visit(x, y, Out(t.node, b)), Walk(b.child, b.index, x + b.dx, y + b.dy),
              Visit(x + b.dx, y + b.dy, Back(t.node, b)));
  }

  lemma BranchIsProper(t: Tree, rest: seq<Branch>, j: nat)
    requires Proper(t) && Part(rest, t) && j < |rest|
    ensures var b := rest[j];
            && b in t.branches && Proper(b.child) && t.node !in Nodes(b.child) && Nodes(b.child) <= Nodes(t)
            && b.start < |t.node.poly| && b.index < |b.child.node.poly|
  {
    assert rest[j] in t.branches;
    var l :| 0 <= l < |t.branches| && t.branches[l] == rest[j];
    assert Nodes(t.branches[l].child) <= Nodes(t);
  }

  lemma AreApart(rest: seq<Branch>, i: nat, j: nat)
    requires Apart(rest) && i < |rest| && j < |rest|
    ensures i != j ==> Nodes(rest[i].child) !! Nodes(rest[j].child)
  {
  }

  lemma OneLeg(v: Visit)
    requires Marked(v.mark)
    ensures Legs([v]) == [Leg(v.x, v.y, Stride(v.mark).x, Stride(v.mark).y, !v.mark.Side?)]
  {
  }
}
