/** A tree of linked polygons that gets a new branch (mapconvert.py, linkstarts and
    linktargets): it stays a tree, and the polygons hold its links. */
module GrowTree {
  import opened MinWrap
  import opened FindMin
  import opened Outline
  import opened BlockMap
  import opened Traverse
  import opened Tours

  // ---------- growing the tree ----------

  /** The tree with a new branch at one of its polygons. */
  ghost function Grow(t: Tree, at: Polynode, b: Branch): (r: Tree)
    ensures r.node == t.node
    decreases t, |t.branches| + 1
  {
    Tree(t.node, GrowBelow(t, |t.branches|, at, b) + if t.node == at then [b] else [])
  }

  ghost function GrowBelow(t: Tree, k: nat, at: Polynode, b: Branch): (s: seq<Branch>)
    requires k <= |t.branches|
    ensures |s| == k
    ensures forall j | 0 <= j < k :: s[j] == t.branches[j].(child := Grow(t.branches[j].child, at, b))
    decreases t, k
  {
    if k == 0 then []
    else
      var c := t.branches[k - 1];
      GrowBelow(t, k - 1, at, b) + [c.(child := Grow(c.child, at, b))]
  }

  ghost predicate Under(t: Tree, k: nat, n: Polynode)
    requires k <= |t.branches|
  {
    exists j :: 0 <= j < k && n in Nodes(t.branches[j].child)
  }

  lemma {:induction false} InNodesBelow(t: Tree, k: nat, n: Polynode)
    requires k <= |t.branches|
    ensures n in NodesBelow(t, k) <==> Under(t, k, n)
  {
    hide Nodes;
    if k > 0 {
      InNodesBelow(t, k - 1, n);
      hide NodesBelow;
      BelowFirst(t, k, n);
      if n in Nodes(t.branches[k - 1].child) {
        assert Under(t, k, n);
      }
    }
  }

  lemma BelowFirst(t: Tree, k: nat, n: Polynode)
    requires 0 < k <= |t.branches|
    ensures n in NodesBelow(t, k) <==> n in NodesBelow(t, k - 1) || n in Nodes(t.branches[k - 1].child)
  {
    hide Nodes;
  }

  lemma InNodes(t: Tree, n: Polynode)
    ensures n in Nodes(t) <==> n == t.node || Under(t, |t.branches|, n)
  {
    InNodesBelow(t, |t.branches|, n);
  }

  /** A polygon is in the grown tree if it was in it before or is in the new branch. */
  lemma {:induction false} GrowNodes(t: Tree, at: Polynode, b: Branch, n: Polynode)
    ensures n in Nodes(Grow(t, at, b)) <==> n in Nodes(t) || (at in Nodes(t) && n in Nodes(b.child))
    decreases t
  {
    hide Nodes, NodesBelow;
    var r := Grow(t, at, b);
    InNodes(t, n);
    InNodes(t, at);
    InNodes(r, n);
    forall j | 0 <= j < |t.branches|
      ensures n in Nodes(r.branches[j].child) <==>
              n in Nodes(t.branches[j].child) || (at in Nodes(t.branches[j].child) && n in Nodes(b.child))
    {
      GrowNodes(t.branches[j].child, at, b, n);
    }
    GrownBranches(t, at, b);
  }

  lemma GrownBranches(t: Tree, at: Polynode, b: Branch)
    ensures var r := Grow(t, at, b);
            && |r.branches| == |t.branches| + (if t.node == at then 1 else 0)
            && (forall j | 0 <= j < |t.branches| ::
                  r.branches[j] == t.branches[j].(child := Grow(t.branches[j].child, at, b)))
            && (t.node == at ==> r.branches[|t.branches|] == b)
  {
  }

  /** A new branch that leads to one new polygon, from a polygon of the tree. */
  ghost predicate Joins(t: Tree, at: Polynode, b: Branch) {
    && at in Nodes(t) && b.child.branches == [] && b.child.node !in Nodes(t)
    && b.start < |at.poly| && b.index < |b.child.node.poly|
  }

  lemma GrowNodesSet(t: Tree, at: Polynode, b: Branch)
    requires Joins(t, at, b)
    ensures Nodes(Grow(t, at, b)) == Nodes(t) + {b.child.node}
  {
    hide Nodes, Grow;
    LeafNodes(b.child);
    var r := Grow(t, at, b);
    forall n | n in Nodes(r) ensures n in Nodes(t) + {b.child.node} {
      GrowNodes(t, at, b, n);
    }
    forall n | n in Nodes(t) + {b.child.node} ensures n in Nodes(r) {
      GrowNodes(t, at, b, n);
    }
  }

  lemma GrowElsewhere(t: Tree, at: Polynode, b: Branch)
    requires at !in Nodes(t)
    ensures Grow(t, at, b) == t
    decreases t
  {
    hide Nodes, NodesBelow;
    GrownBranches(t, at, b);
    forall j | 0 <= j < |t.branches| ensures Grow(t, at, b).branches[j] == t.branches[j] {
      ChildNodes(t, j);
      GrowElsewhere(t.branches[j].child, at, b);
    }
  }

  lemma ChildNodes(t: Tree, j: nat)
    requires j < |t.branches|
    ensures Nodes(t.branches[j].child) <= Nodes(t) && t.node in Nodes(t)
  {
  }

  lemma LeafNodes(t: Tree)
    requires t.branches == []
    ensures Nodes(t) == {t.node}
  {
  }

  lemma {:induction false} GrowProper(t: Tree, at: Polynode, b: Branch)
    requires Proper(t) && Joins(t, at, b)
    ensures Proper(Grow(t, at, b))
    decreases t
  {
    hide Nodes, NodesBelow, Proper;
    var r := Grow(t, at, b);
    GrownBranches(t, at, b);
    LeafNodes(b.child);
    forall j | 0 <= j < |r.branches|
      ensures r.node !in Nodes(r.branches[j].child) && Proper(r.branches[j].child)
      ensures r.branches[j].start < |r.node.poly| && r.branches[j].index < |r.branches[j].child.node.poly|
    {
      GrownBranchProper(t, at, b, j);
    }
    forall i, j | 0 <= i < j < |r.branches|
      ensures Nodes(r.branches[i].child) !! Nodes(r.branches[j].child)
    {
      GrownApart(t, at, b, i, j);
    }
    HasPoints(t);
    ProperIf(r);
  }

  lemma ProperIf(r: Tree)
    requires |r.node.poly| > 0
    requires forall j | 0 <= j < |r.branches| ::
               && r.node !in Nodes(r.branches[j].child) && Proper(r.branches[j].child)
               && r.branches[j].start < |r.node.poly| && r.branches[j].index < |r.branches[j].child.node.poly|
    requires forall i, j | 0 <= i < j < |r.branches| :: Nodes(r.branches[i].child) !! Nodes(r.branches[j].child)
    ensures Proper(r)
  {
  }

  lemma {:induction false} GrownBranchProper(t: Tree, at: Polynode, b: Branch, j: nat)
    requires Proper(t) && Joins(t, at, b) && j < |Grow(t, at, b).branches|
    ensures var c := Grow(t, at, b).branches[j];
            && t.node !in Nodes(c.child) && Proper(c.child)
            && c.start < |t.node.poly| && c.index < |c.child.node.poly|
    decreases t, 0
  {
    hide Nodes, NodesBelow, Proper;
    LeafNodes(b.child);
    GrownBranches(t, at, b);
    if j < |t.branches| {
      var child := t.branches[j].child;
      ChildNodes(t, j);
      ProperBranch(t, j);
      GrowNodes(child, at, b, t.node);
      if at in Nodes(child) {
        GrowProper(child, at, b);
      } else {
        GrowElsewhere(child, at, b);
      }
    } else {
      LeafProper(b.child);
    }
  }

  lemma LeafProper(t: Tree)
    requires t.branches == [] && |t.node.poly| > 0
    ensures Proper(t)
  {
  }

  lemma GrownApart(t: Tree, at: Polynode, b: Branch, i: nat, j: nat)
    requires Proper(t) && Joins(t, at, b) && i < j < |Grow(t, at, b).branches|
    ensures Nodes(Grow(t, at, b).branches[i].child) !! Nodes(Grow(t, at, b).branches[j].child)
  {
    hide Nodes, NodesBelow, Proper;
    LeafNodes(b.child);
    GrownBranches(t, at, b);
    var r := Grow(t, at, b);
    hide Grow;
    ChildNodes(t, i);
    forall n | n in Nodes(r.branches[i].child) ensures n !in Nodes(r.branches[j].child) {
      GrowNodes(t.branches[i].child, at, b, n);
      ProperBranch(t, i);
      if j < |t.branches| {
        ChildNodes(t, j);
        ProperBranch(t, j);
        GrowNodes(t.branches[j].child, at, b, n);
        BranchesApart(t, i, j);
      }
    }
  }

  lemma {:induction false} GrowLaid(wrap: Wrap, t: Tree, at: Polynode, b: Branch)
    requires wrap.Valid() && Proper(t) && Laid(wrap, t) && Joins(t, at, b)
    requires Outlined(wrap, b.child.node.poly)
    requires Leads(wrap, Vec(b.dx, b.dy), At(at.poly[b.start]), At(b.child.node.poly[b.index]))
    ensures Proper(Grow(t, at, b)) && Laid(wrap, Grow(t, at, b))
    decreases t
  {
    hide Nodes, NodesBelow, Proper, Outlined, Leads;
    var r := Grow(t, at, b);
    GrowProper(t, at, b);
    GrownBranches(t, at, b);
    forall j | 0 <= j < |r.branches|
      ensures var c := r.branches[j];
              && Proper(c.child) && c.start < |r.node.poly| && c.index < |c.child.node.poly| && Laid(wrap, c.child)
              && Leads(wrap, Vec(c.dx, c.dy), At(r.node.poly[c.start]), At(c.child.node.poly[c.index]))
    {
      ProperBranch(r, j);
      if j < |t.branches| {
        var child := t.branches[j].child;
        ChildNodes(t, j);
        ProperBranch(t, j);
        if at in Nodes(child) {
          GrowLaid(wrap, child, at, b);
        } else {
          GrowElsewhere(child, at, b);
        }
      }
    }
  }

  /** The walk gets longer by the new polygon and the way there and back. */
  lemma {:induction false} GrowWeight(t: Tree, at: Polynode, b: Branch)
    requires Proper(t) && Joins(t, at, b)
    ensures Weight(Grow(t, at, b)) == Weight(t) + 2 + |b.child.node.poly|
    decreases t, |t.branches| + 1
  {
    var r, n := Grow(t, at, b), |t.branches|;
    GrownBranches(t, at, b);
    hide Grow, Proper;
    GrowWeightBelow(t, at, b, n);
    InNodes(t, at);
    InNodesBelow(t, n, at);
    hide Nodes, NodesBelow;
    if t.node == at {
      assert Weight(b.child) == |b.child.node.poly|;
      if Under(t, n, at) {
        var j :| 0 <= j < n && at in Nodes(t.branches[j].child);
        ProperBranch(t, j);
      }
    }
  }

  lemma {:induction false} GrowWeightBelow(t: Tree, at: Polynode, b: Branch, k: nat)
    requires Proper(t) && Joins(t, at, b) && k <= |t.branches|
    ensures |Grow(t, at, b).branches| >= |t.branches|
    ensures WeightBelow(Grow(t, at, b), k)
         == WeightBelow(t, k) + if at in NodesBelow(t, k) then 2 + |b.child.node.poly| else 0
    decreases t, k
  {
    GrownBranches(t, at, b);
    hide Grow, Proper, Nodes, Weight;
    if k > 0 {
      var child := t.branches[k - 1].child;
      GrowWeightBelow(t, at, b, k - 1);
      ProperBranch(t, k - 1);
      ChildNodes(t, k - 1);
      BelowFirst(t, k, at);
      InNodesBelow(t, k - 1, at);
      if at in Nodes(child) {
        GrowWeight(child, at, b);
        if j :| 0 <= j < k - 1 && at in Nodes(t.branches[j].child) {
          BranchesApart(t, j, k - 1);
          assert false;
        }
      } else {
        GrowElsewhere(child, at, b);
      }
    }
  }

  // ---------- the links that the polygons hold ----------

  /** The polygons hold the links of the tree, if each holds those it is mapped to. */
  ghost predicate Holds(m: map<Polynode, Links>, t: Tree)
    decreases t
  {
    && t.node in m && |m[t.node].starts| == |m[t.node].targets| == |t.branches|
    && forall j | 0 <= j < |t.branches| ::
         && m[t.node].starts[j] == t.branches[j].start
         && m[t.node].targets[j] == TargetOf(t.branches[j])
         && Holds(m, t.branches[j].child)
  }

  function TargetOf(b: Branch): Target {
    Target(b.child.node, b.index, b.dx, b.dy)
  }

  ghost predicate Recorded(m: map<Polynode, Links>, nodes: set<Polynode>)
    reads nodes
  {
    forall n <- nodes :: n in m && m[n] == Links(n.linkstarts, n.linktargets)
  }

  lemma {:induction false} HoldsElsewhere(m: map<Polynode, Links>, t: Tree, at: Polynode, l: Links)
    requires Holds(m, t) && at !in Nodes(t)
    ensures Holds(m[at := l], t)
    decreases t
  {
    hide Nodes, NodesBelow;
    RootNode(t);
    forall j | 0 <= j < |t.branches| ensures Holds(m[at := l], t.branches[j].child) {
      ChildNodes(t, j);
      HoldsElsewhere(m, t.branches[j].child, at, l);
    }
  }

  lemma RootNode(t: Tree)
    ensures t.node in Nodes(t)
  {
  }

  lemma {:induction false} GrowHolds(m: map<Polynode, Links>, t: Tree, at: Polynode, b: Branch)
    requires Proper(t) && Holds(m, t) && Joins(t, at, b) && at in m
    requires b.child.node in m && m[b.child.node] == Links([], [])
    ensures Holds(m[at := Links(m[at].starts + [b.start], m[at].targets + [TargetOf(b)])], Grow(t, at, b))
    decreases t
  {
    hide Nodes, NodesBelow, Proper;
    var l := Links(m[at].starts + [b.start], m[at].targets + [TargetOf(b)]);
    var r, m1 := Grow(t, at, b), m[at := l];
    GrownBranches(t, at, b);
    RootNode(t);
    forall j | 0 <= j < |r.branches|
      ensures m1[r.node].starts[j] == r.branches[j].start && m1[r.node].targets[j] == TargetOf(r.branches[j])
      ensures Holds(m1, r.branches[j].child)
    {
      if j < |t.branches| {
        var child := t.branches[j].child;
        ChildNodes(t, j);
        ProperBranch(t, j);
        if at in Nodes(child) {
          GrowHolds(m, child, at, b);
        } else {
          GrowElsewhere(child, at, b);
          HoldsElsewhere(m, child, at, l);
        }
      }
    }
  }

  lemma {:induction false} RecordedShows(m: map<Polynode, Links>, t: Tree)
    requires Holds(m, t) && Recorded(m, Nodes(t))
    ensures Shows(t)
    decreases t
  {
    RootNode(t);
    forall j | 0 <= j < |t.branches| ensures Shows(t.branches[j].child) {
      ChildNodes(t, j);
      RecordedShows(m, t.branches[j].child);
    }
  }
}
