/** What the walk around linked polygons is: one closed tour, in which each step is
    where it belongs, and which has every side once and every link once each way. */
module Tours {
  import opened MinWrap
  import opened FindMin
  import opened Outline
  import opened BlockMap
  import opened Traverse

  // ---------- the tour ----------

  ghost predicate Same(wrap: Wrap, p: Vec, q: Vec)
    requires wrap.Valid()
  {
    wrap.Period(p.Minus(q))
  }

  lemma SameTrans(wrap: Wrap, p: Vec, q: Vec, r: Vec)
    requires wrap.Valid() && Same(wrap, p, q) && Same(wrap, q, r)
    ensures Same(wrap, p, r)
  {
    hide Wrap.Period;
    PeriodsAdd(wrap, p.Minus(q), q.Minus(r));
    assert p.Minus(r) == p.Minus(q).Plus(q.Minus(r));
  }

  lemma SameSelf(wrap: Wrap, p: Vec)
    requires wrap.Valid()
    ensures Same(wrap, p, p)
  {
    NoPeriod(wrap);
    assert p.Minus(p) == Vec(0, 0);
  }

  lemma SameBack(wrap: Wrap, p: Vec, q: Vec)
    requires wrap.Valid() && Same(wrap, p, q)
    ensures Same(wrap, q, p)
  {
    hide Wrap.Period;
    PeriodBack(wrap, p.Minus(q));
    assert p.Minus(q).Neg() == q.Minus(p);
  }

  /** A step that leads from p to q, taken from where p is. */
  lemma SameStep(wrap: Wrap, at: Vec, u: Vec, p: Vec, q: Vec)
    requires wrap.Valid() && Same(wrap, at, p) && Leads(wrap, u, p, q)
    ensures Same(wrap, at.Plus(u), q)
  {
    hide Wrap.Period;
    PeriodsAdd(wrap, at.Minus(p), u.Minus(q.Minus(p)));
    assert at.Plus(u).Minus(q) == at.Minus(p).Plus(u.Minus(q.Minus(p)));
  }

  /** Each side leads to the next point of the polygon, the last one to the first. */
  ghost predicate Outlined(wrap: Wrap, poly: seq<Point>)
    requires wrap.Valid()
  {
    forall i | 0 <= i < |poly| ::
      Leads(wrap, Vec(DirX(poly[i].dir), DirY(poly[i].dir)), At(poly[i]), At(poly[Around(i, 1, |poly|)]))
  }

  ghost predicate Laid(wrap: Wrap, t: Tree)
    requires wrap.Valid() && Proper(t)
    decreases t
  {
    && Outlined(wrap, t.node.poly)
    && forall b <- t.branches ::
         && Leads(wrap, Vec(b.dx, b.dy), At(t.node.poly[b.start]), At(b.child.node.poly[b.index]))
         && Laid(wrap, b.child)
  }

  /** The polygons that the tracing of outlines gives are of this kind: on the map
      that wraps around always, without wrapping if they close up exactly, and along
      a vector if they end some number of times that vector from where they start. */
  lemma TracedOutlined(g: Grid, poly: seq<Point>, x: int, y: int, path: seq<Edge>)
    requires g.Valid() && Loop(g, path) && Draws(poly, x, y, path)
    ensures Outlined(Torus(g.width, g.height), poly)
    ensures Displacement(path) == (0, 0) ==> Outlined(NoWrap, poly)
    ensures forall wx, wy | (wx != 0 || wy != 0) && OnLine(Vec(Displacement(path).0, Displacement(path).1), wx, wy) ::
              Outlined(Along(wx, wy), poly)
  {
    hide Wrap.Period, Loop, Displacement, Grid.Valid, OnLine, Outlined;
    GridSize(g);
    LoopCloses(g, path);
    var sum := Vec(Displacement(path).0, Displacement(path).1);
    SumIsPeriod(Torus(g.width, g.height), sum);
    OutlinedIf(Torus(g.width, g.height), poly, x, y, path);
    NoPeriod(NoWrap);
    if Displacement(path) == (0, 0) {
      OutlinedIf(NoWrap, poly, x, y, path);
    }
    forall wx, wy | (wx != 0 || wy != 0) && OnLine(sum, wx, wy)
      ensures Outlined(Along(wx, wy), poly)
    {
      LineIsPeriod(wx, wy, sum);
      OutlinedIf(Along(wx, wy), poly, x, y, path);
    }
  }

  lemma LineIsPeriod(wx: int, wy: int, sum: Vec)
    requires (wx != 0 || wy != 0) && OnLine(sum, wx, wy)
    ensures Along(wx, wy).Valid() && Along(wx, wy).Period(sum)
  {
  }

  /** What is drawn along a path is an outline in every wrapping that the whole path is a period of. */
  lemma OutlinedIf(wrap: Wrap, poly: seq<Point>, x: int, y: int, path: seq<Edge>)
    requires wrap.Valid() && Draws(poly, x, y, path)
    requires wrap.Period(Vec(Displacement(path).0, Displacement(path).1))
    ensures Outlined(wrap, poly)
  {
    hide Wrap.Period, Displacement;
    NoPeriod(wrap);
    forall i | 0 <= i < |poly|
      ensures Leads(wrap, Vec(DirX(poly[i].dir), DirY(poly[i].dir)), At(poly[i]), At(poly[Around(i, 1, |poly|)]))
    {
      NextPoint(poly, x, y, path, i);
    }
  }

  lemma GridSize(g: Grid)
    requires g.Valid()
    ensures g.width > 0 && g.height > 0
  {
  }

  lemma SumIsPeriod(torus: Wrap, sum: Vec)
    requires torus.Torus? && torus.Valid() && sum.x % torus.w == 0 && sum.y % torus.h == 0
    ensures torus.Period(sum)
  {
  }

  lemma NextPoint(poly: seq<Point>, x: int, y: int, path: seq<Edge>, i: nat)
    requires Draws(poly, x, y, path) && i < |poly|
    ensures var u, p, q := Vec(DirX(poly[i].dir), DirY(poly[i].dir)), At(poly[i]), At(poly[Around(i, 1, |poly|)]);
            u.Minus(q.Minus(p)) == if i + 1 < |poly| then Vec(0, 0) else Vec(Displacement(path).0, Displacement(path).1)
  {
    assert path[..i + 1][..i] == path[..i];
    assert path[..|path|] == path;
    assert Displacement(path[..0]) == (0, 0);
  }

  predicate Fits(m: Mark) {
    match m
    case Side(node, i) => i < |node.poly|
    case Out(node, b) => b.start < |node.poly| && b.index < |b.child.node.poly|
    case Back(node, b) => b.start < |node.poly| && b.index < |b.child.node.poly|
  }

  /** The point that a step starts from. */
  function Place(m: Mark): Vec
    requires Fits(m)
  {
    match m
    case Side(node, i) => At(node.poly[i])
    case Out(node, b) => At(node.poly[b.start])
    case Back(node, b) => At(b.child.node.poly[b.index])
  }

  function Start(v: Visit): Vec {
    Vec(v.x, v.y)
  }

  function End(v: Visit): Vec
    requires Marked(v.mark)
  {
    Start(v).Plus(Stride(v.mark))
  }

  /** A step is taken from the point of the polygon it belongs to. */
  ghost predicate Placed(wrap: Wrap, v: Visit)
    requires wrap.Valid()
  {
    Fits(v.mark) && Same(wrap, Start(v), Place(v.mark))
  }

  /** One step begins where the other one ends. */
  ghost predicate Follows(wrap: Wrap, v: Visit, w: Visit)
    requires wrap.Valid()
  {
    Fits(v.mark) && Same(wrap, End(v), Start(w))
  }

  ghost predicate Begins(wrap: Wrap, walk: seq<Visit>, p: Vec)
    requires wrap.Valid()
  {
    walk != [] ==> Same(wrap, p, Start(walk[0]))
  }

  ghost predicate Ends(wrap: Wrap, walk: seq<Visit>, p: Vec, q: Vec)
    requires wrap.Valid()
  {
    if walk == [] then Same(wrap, p, q)
    else Fits(walk[|walk| - 1].mark) && Same(wrap, End(walk[|walk| - 1]), q)
  }

  /** From place p to place q, every step begins where the one before it ends, and
      at the point of the polygon it belongs to. */
  ghost predicate Tour(wrap: Wrap, walk: seq<Visit>, p: Vec, q: Vec)
    requires wrap.Valid()
  {
    && (forall k | 0 <= k < |walk| :: Placed(wrap, walk[k]))
    && (forall k | 0 <= k < |walk| - 1 :: Follows(wrap, walk[k], walk[k + 1]))
    && Begins(wrap, walk, p) && Ends(wrap, walk, p, q)
  }

  lemma TourJoins(wrap: Wrap, a: seq<Visit>, b: seq<Visit>, p: Vec, q: Vec, r: Vec)
    requires wrap.Valid() && Tour(wrap, a, p, q) && Tour(wrap, b, q, r)
    ensures Tour(wrap, a + b, p, r)
  {
    BothEnds(wrap, a, b, p, q, r);
    hide Placed, Follows, Begins, Ends;
    var c := a + b;
    forall k | 0 <= k < |c| ensures Placed(wrap, c[k]) {
      assert c[k] == if k < |a| then a[k] else b[k - |a|];
    }
    forall k | 0 <= k < |c| - 1 ensures Follows(wrap, c[k], c[k + 1]) {
      if k < |a| - 1 {
        assert Follows(wrap, a[k], a[k + 1]);
      } else if k >= |a| {
        assert Follows(wrap, b[k - |a|], b[k - |a| + 1]);
      }
    }
  }

  lemma BothEnds(wrap: Wrap, a: seq<Visit>, b: seq<Visit>, p: Vec, q: Vec, r: Vec)
    requires wrap.Valid() && Begins(wrap, a, p) && Ends(wrap, a, p, q) && Begins(wrap, b, q) && Ends(wrap, b, q, r)
    ensures Begins(wrap, a + b, p) && Ends(wrap, a + b, p, r)
    ensures a != [] && b != [] ==> Follows(wrap, a[|a| - 1], b[0])
  {
    hide Same, Start, End, Place;
    if a == [] {
      assert a + b == b;
      if b == [] {
        SameTrans(wrap, p, q, r);
      } else {
        SameTrans(wrap, p, q, Start(b[0]));
      }
    } else if b == [] {
      assert a + b == a;
      SameTrans(wrap, End(a[|a| - 1]), q, r);
    } else {
      SameTrans(wrap, End(a[|a| - 1]), q, Start(b[0]));
    }
  }

  lemma OneStep(wrap: Wrap, v: Visit, p: Vec, q: Vec)
    requires wrap.Valid() && Fits(v.mark) && Place(v.mark) == p && Same(wrap, Start(v), p) && Same(wrap, End(v), q)
    ensures Tour(wrap, [v], p, q)
  {
    hide Same, Fits, Place, Start, End;
    SameBack(wrap, Start(v), p);
  }

  lemma {:induction false} LinkTours(wrap: Wrap, t: Tree, b: Branch, x: int, y: int)
    requires wrap.Valid() && Proper(t) && Laid(wrap, t) && b in t.branches
    requires b.start < |t.node.poly| && Same(wrap, Vec(x, y), At(t.node.poly[b.start]))
    ensures Tour(wrap, LinkWalk(t, b, x, y), At(t.node.poly[b.start]), At(t.node.poly[b.start]))
    decreases t, 0
  {
    hide Tour, Same, Leads, Outlined, Go, Nodes;
    var here, there := At(t.node.poly[b.start]), At(b.child.node.poly[b.index]);
    var there1 := Vec(x + b.dx, y + b.dy);
    SameStep(wrap, Vec(x, y), Vec(b.dx, b.dy), here, there);
    assert there1 == Vec(x, y).Plus(Vec(b.dx, b.dy));
    var out, back := Visit(x, y, Out(t.node, b)), Visit(there1.x, there1.y, Back(t.node, b));
    OneStep(wrap, out, here, there);
    GoTours(wrap, b.child, b.child.branches, b.index, |b.child.node.poly|, there1.x, there1.y);
    var walk := Walk(b.child, b.index, there1.x, there1.y);
    assert End(back) == Vec(x, y);
    OneStep(wrap, back, there, here);
    TourJoins(wrap, [out], walk, here, there, there);
    TourJoins(wrap, [out] + walk, [back], here, there, here);
  }

  lemma {:induction false} GoTours(wrap: Wrap, t: Tree, rest: seq<Branch>, i: nat, k: nat, x: int, y: int)
    requires wrap.Valid() && Proper(t) && Laid(wrap, t) && Part(rest, t)
    requires i < |t.node.poly| && k <= |t.node.poly| && Same(wrap, Vec(x, y), At(t.node.poly[i]))
    ensures Tour(wrap, Go(t, rest, i, k, x, y), At(t.node.poly[i]), At(t.node.poly[Around(i, k, |t.node.poly|)]))
    decreases t, 1, |rest|, k
  {
    hide Tour, Same, Leads, LinkWalk, Go, Nodes, Proper, Laid, Outlined;
    var n, here := |t.node.poly|, At(t.node.poly[i]);
    var end := At(t.node.poly[Around(i, k, n)]);
    if k == 0 {
      NoSteps(wrap, t, rest, i, x, y);
    } else if i in Starts(rest) {
      var j := FirstIndex(Starts(rest), i);
      assert rest[j] in t.branches;
      GoBranch(t, rest, i, k, x, y);
      LinkTours(wrap, t, rest[j], x, y);
      GoTours(wrap, t, Without(rest, j), i, k, x, y);
      TourJoins(wrap, LinkWalk(t, rest[j], x, y), Go(t, Without(rest, j), i, k, x, y), here, here, end);
    } else {
      var d := t.node.poly[i].dir;
      var i1 := Around(i, 1, n);
      GoSide(t, rest, i, k, x, y);
      var v := Visit(x, y, Side(t.node, i));
      SideLeads(wrap, t, i);
      SameStep(wrap, Vec(x, y), Vec(DirX(d), DirY(d)), here, At(t.node.poly[i1]));
      assert End(v) == Vec(x, y).Plus(Vec(DirX(d), DirY(d))) == Vec(x + DirX(d), y + DirY(d));
      OneStep(wrap, v, here, At(t.node.poly[i1]));
      GoTours(wrap, t, rest, i1, k - 1, x + DirX(d), y + DirY(d));
      assert Around(i1, k - 1, n) == Around(i, k, n);
      TourJoins(wrap, [v], Go(t, rest, i1, k - 1, x + DirX(d), y + DirY(d)), here, At(t.node.poly[i1]), end);
    }
  }

  lemma SideLeads(wrap: Wrap, t: Tree, i: nat)
    requires wrap.Valid() && Proper(t) && Laid(wrap, t) && i < |t.node.poly|
    ensures var d := t.node.poly[i].dir;
            Leads(wrap, Vec(DirX(d), DirY(d)), At(t.node.poly[i]), At(t.node.poly[Around(i, 1, |t.node.poly|)]))
  {
    hide Leads;
  }

  lemma NoSteps(wrap: Wrap, t: Tree, rest: seq<Branch>, i: nat, x: int, y: int)
    requires wrap.Valid() && Proper(t) && Part(rest, t) && i < |t.node.poly|
    ensures Tour(wrap, Go(t, rest, i, 0, x, y), At(t.node.poly[i]), At(t.node.poly[i]))
  {
    SameSelf(wrap, At(t.node.poly[i]));
  }

  /** The walk around linked polygons is a closed tour, wherever it starts. */
  lemma WalkIsTour(wrap: Wrap, t: Tree, start: nat)
    requires wrap.Valid() && Proper(t) && Laid(wrap, t) && start < |t.node.poly|
    ensures var p := t.node.poly[start];
            Tour(wrap, Walk(t, start, p.x, p.y), At(p), At(p))
  {
    hide Tour, Same, Go;
    var p := t.node.poly[start];
    SameSelf(wrap, At(p));
    GoTours(wrap, t, t.branches, start, |t.node.poly|, p.x, p.y);
  }

  /** For polygons that close without going around the map, the legs that are
      returned form one closed line. */
  lemma ClosedWalk(t: Tree, start: nat)
    requires Proper(t) && Laid(NoWrap, t) && start < |t.node.poly|
    ensures var p := t.node.poly[start];
            var legs := Legs(Walk(t, start, p.x, p.y));
            && |legs| > 0 && legs[0].x == p.x && legs[0].y == p.y
            && forall k | 0 <= k < |legs| ::
                 var next := legs[if k + 1 < |legs| then k + 1 else 0];
                 legs[k].x + legs[k].dx == next.x && legs[k].y + legs[k].dy == next.y
  {
    hide Walk, Go, Proper, Laid, Placed, Follows, Begins, Ends, Legs;
    var p := t.node.poly[start];
    WalkIsTour(NoWrap, t, start);
    var walk := Walk(t, start, p.x, p.y);
    WalkNotEmpty(t, start, p.x, p.y);
    ExactEnds(walk, At(p));
    forall k | 0 <= k < |walk| - 1 ensures End(walk[k]) == Start(walk[k + 1]) {
      ExactStep(walk[k], walk[k + 1]);
    }
  }

  lemma ExactStep(v: Visit, w: Visit)
    requires Follows(NoWrap, v, w)
    ensures Marked(v.mark) && End(v) == Start(w)
  {
  }

  lemma ExactEnds(walk: seq<Visit>, p: Vec)
    requires walk != [] && Begins(NoWrap, walk, p) && Ends(NoWrap, walk, p, p)
    ensures Start(walk[0]) == p && Marked(walk[|walk| - 1].mark) && End(walk[|walk| - 1]) == p
  {
  }

  lemma WalkNotEmpty(t: Tree, start: nat, x: int, y: int)
    requires Proper(t) && start < |t.node.poly|
    ensures Walk(t, start, x, y) != []
  {
    WalkGoesOn(t, t.branches, start, |t.node.poly|, x, y);
  }

  lemma {:induction false} WalkGoesOn(t: Tree, rest: seq<Branch>, i: nat, k: nat, x: int, y: int)
    requires Proper(t) && Part(rest, t) && i < |t.node.poly| && 0 < k <= |t.node.poly|
    ensures Go(t, rest, i, k, x, y) != []
  {
    if i in Starts(rest) {
      GoBranch(t, rest, i, k, x, y);
    } else {
      GoSide(t, rest, i, k, x, y);
    }
  }

  // ---------- each side and each link once ----------

  ghost function Marks(walk: seq<Visit>): multiset<Mark> {
    multiset(seq(|walk|, k requires 0 <= k < |walk| => walk[k].mark))
  }

  lemma MarksJoin(a: seq<Visit>, b: seq<Visit>)
    ensures Marks(a + b) == Marks(a) + Marks(b)
  {
    var s, u := seq(|a|, k requires 0 <= k < |a| => a[k].mark), seq(|b|, k requires 0 <= k < |b| => b[k].mark);
    var c := a + b;
    assert seq(|c|, k requires 0 <= k < |c| => c[k].mark) == s + u;
  }

  lemma OneMark(v: Visit)
    ensures Marks([v]) == multiset{v.mark}
  {
    assert seq(1, k requires 0 <= k < 1 => [v][k].mark) == [v.mark];
  }

  /** Point s is among the k points from point i on, around a polygon of n points. */
  predicate InWindow(i: nat, k: nat, n: nat, s: nat) {
    s < n && if s >= i then s - i < k else s - i + n < k
  }

  ghost function Sides(node: Polynode, i: nat, k: nat): multiset<Mark>
    requires i < |node.poly| && k <= |node.poly|
    decreases k
  {
    if k == 0 then multiset{} else multiset{Side(node, i)} + Sides(node, Around(i, 1, |node.poly|), k - 1)
  }

  /** All there is to do for a tree: the sides of its polygon, and for each branch
      the link both ways and all there is to do there. */
  ghost function All(t: Tree): multiset<Mark>
    requires Proper(t)
    decreases t, 2
  {
    Sides(t.node, 0, |t.node.poly|) + Below(t, t.branches, 0, |t.node.poly|)
  }

  /** The same for the branches that start at the k points from i on. */
  ghost function Below(t: Tree, rest: seq<Branch>, i: nat, k: nat): multiset<Mark>
    requires Proper(t) && Part(rest, t)
    decreases t, 1, |rest|
  {
    if rest == [] then multiset{}
    else
      var b := rest[|rest| - 1];
      assert b in t.branches;
      Below(t, rest[..|rest| - 1], i, k) + if InWindow(i, k, |t.node.poly|, b.start) then Of(t, b) else multiset{}
  }

  ghost function Of(t: Tree, b: Branch): multiset<Mark>
    requires Proper(t) && b in t.branches
    decreases t, 0
  {
    multiset{Out(t.node, b), Back(t.node, b)} + All(b.child)
  }

  lemma {:induction false} BelowSame(t: Tree, rest: seq<Branch>, i: nat, k: nat, j: nat, l: nat)
    requires Proper(t) && Part(rest, t)
    requires forall b <- rest :: InWindow(i, k, |t.node.poly|, b.start) == InWindow(j, l, |t.node.poly|, b.start)
    ensures Below(t, rest, i, k) == Below(t, rest, j, l)
    decreases |rest|
  {
    if rest != [] {
      BelowSame(t, rest[..|rest| - 1], i, k, j, l);
    }
  }

  lemma {:induction false} BelowNone(t: Tree, rest: seq<Branch>, i: nat)
    requires Proper(t) && Part(rest, t) && i < |t.node.poly|
    ensures Below(t, rest, i, 0) == multiset{}
    decreases |rest|
  {
    if rest != [] {
      BelowNone(t, rest[..|rest| - 1], i);
    }
  }

  lemma {:induction false} BelowWithout(t: Tree, rest: seq<Branch>, j: nat, i: nat, k: nat)
    requires Proper(t) && Part(rest, t) && j < |rest| && InWindow(i, k, |t.node.poly|, rest[j].start)
    ensures Part(Without(rest, j), t) && rest[j] in t.branches
    ensures Below(t, rest, i, k) == Of(t, rest[j]) + Below(t, Without(rest, j), i, k)
    decreases |rest|
  {
    hide Of, Proper, Below;
    var n := |rest| - 1;
    var init := rest[..n];
    var less := Without(rest, j);
    assert rest[n] in t.branches && rest[j] in t.branches;
    BelowLast(t, rest, i, k);
    if j == n {
      assert less == init;
    } else {
      BelowWithout(t, init, j, i, k);
      assert less[..n - 1] == Without(init, j) && less[n - 1] == rest[n];
      BelowLast(t, less, i, k);
      var last := if InWindow(i, k, |t.node.poly|, rest[n].start) then Of(t, rest[n]) else multiset{};
      Associate(Of(t, rest[j]), Below(t, Without(init, j), i, k), last);
    }
  }

  lemma BelowLast(t: Tree, rest: seq<Branch>, i: nat, k: nat)
    requires Proper(t) && Part(rest, t) && rest != []
    ensures var b := rest[|rest| - 1];
            && b in t.branches
            && Below(t, rest, i, k) == Below(t, rest[..|rest| - 1], i, k)
                                       + if InWindow(i, k, |t.node.poly|, b.start) then Of(t, b) else multiset{}
  {
    assert rest[|rest| - 1] in t.branches;
  }

  lemma {:induction false} LinkMarks(t: Tree, b: Branch, x: int, y: int)
    requires Proper(t) && b in t.branches
    ensures Marks(LinkWalk(t, b, x, y)) == Of(t, b)
    decreases t, 0
  {
    hide Marks, Go, Nodes, Below, Sides;
    var walk := Walk(b.child, b.index, x + b.dx, y + b.dy);
    var out, back := Visit(x, y, Out(t.node, b)), Visit(x + b.dx, y + b.dy, Back(t.node, b));
    MarksJoin([out], walk);
    MarksJoin([out] + walk, [back]);
    OneMark(out);
    OneMark(back);
    WalkMarks(b.child, b.index, x + b.dx, y + b.dy);
  }

  /** The walk has exactly all there is to do, each as often as it has to be done. */
  lemma {:induction false} WalkMarks(t: Tree, start: nat, x: int, y: int)
    requires Proper(t) && start < |t.node.poly|
    ensures Marks(Walk(t, start, x, y)) == All(t)
    decreases t, 2
  {
    hide Marks, Go, Nodes, Below, Sides;
    var n := |t.node.poly|;
    GoMarks(t, t.branches, start, n, x, y);
    BelowSame(t, t.branches, start, n, 0, n);
    SidesRotate(t.node, start);
  }

  lemma {:induction false} GoMarks(t: Tree, rest: seq<Branch>, i: nat, k: nat, x: int, y: int)
    requires Proper(t) && Part(rest, t) && i < |t.node.poly| && k <= |t.node.poly|
    ensures Marks(Go(t, rest, i, k, x, y)) == Sides(t.node, i, k) + Below(t, rest, i, k)
    decreases t, 1, |rest|, k
  {
    hide Marks, Nodes, LinkWalk, Proper, Below, All, Of, Go, Sides;
    var n := |t.node.poly|;
    if k == 0 {
      BelowNone(t, rest, i);
      NoMarks(t, rest, i, x, y);
    } else if i in Starts(rest) {
      var j := FirstIndex(Starts(rest), i);
      GoBranch(t, rest, i, k, x, y);
      BelowWithout(t, rest, j, i, k);
      LinkMarks(t, rest[j], x, y);
      GoMarks(t, Without(rest, j), i, k, x, y);
      MarksJoin(LinkWalk(t, rest[j], x, y), Go(t, Without(rest, j), i, k, x, y));
      Associate(Of(t, rest[j]), Sides(t.node, i, k), Below(t, Without(rest, j), i, k));
    } else {
      var d := t.node.poly[i].dir;
      var i1 := Around(i, 1, n);
      GoSide(t, rest, i, k, x, y);
      FirstSide(t.node, i, k);
      BelowNext(t, rest, i, k);
      GoMarks(t, rest, i1, k - 1, x + DirX(d), y + DirY(d));
      OneMark(Visit(x, y, Side(t.node, i)));
      MarksJoin([Visit(x, y, Side(t.node, i))], Go(t, rest, i1, k - 1, x + DirX(d), y + DirY(d)));
      Associate(multiset{Side(t.node, i)}, Sides(t.node, i1, k - 1), Below(t, rest, i1, k - 1));
    }
  }

  lemma BelowNext(t: Tree, rest: seq<Branch>, i: nat, k: nat)
    requires Proper(t) && Part(rest, t) && i < |t.node.poly| && 0 < k <= |t.node.poly| && i !in Starts(rest)
    ensures Below(t, rest, i, k) == Below(t, rest, Around(i, 1, |t.node.poly|), k - 1)
  {
    hide Below, Proper;
    var n := |t.node.poly|;
    var i1 := Around(i, 1, n);
    forall b | b in rest ensures InWindow(i, k, n, b.start) == InWindow(i1, k - 1, n, b.start) {
      var j :| 0 <= j < |rest| && rest[j] == b;
      assert Starts(rest)[j] == b.start;
    }
    BelowSame(t, rest, i, k, i1, k - 1);
  }

  lemma NoMarks(t: Tree, rest: seq<Branch>, i: nat, x: int, y: int)
    requires Proper(t) && Part(rest, t) && i < |t.node.poly|
    ensures Marks(Go(t, rest, i, 0, x, y)) == multiset{} && Sides(t.node, i, 0) == multiset{}
  {
  }

  lemma {:induction false} SidesCount(node: Polynode, i: nat, k: nat, m: Mark)
    requires i < |node.poly| && k <= |node.poly|
    ensures Sides(node, i, k)[m] == if m.Side? && m.node == node && InWindow(i, k, |node.poly|, m.i) then 1 else 0
    decreases k
  {
    if k > 0 {
      SidesCount(node, Around(i, 1, |node.poly|), k - 1, m);
    }
  }

  lemma {:induction false} SidesSplit(node: Polynode, i: nat, k: nat, l: nat)
    requires i < |node.poly| && k + l <= |node.poly|
    ensures Sides(node, i, k + l) == Sides(node, i, k) + Sides(node, Around(i, k, |node.poly|), l)
    decreases k
  {
    hide Sides;
    var n := |node.poly|;
    if k == 0 {
      NoSides(node, i);
      assert Around(i, k, n) == i && k + l == l;
    } else {
      var i1 := Around(i, 1, n);
      FirstSide(node, i, k + l);
      FirstSide(node, i, k);
      SidesSplit(node, i1, k - 1, l);
      assert Around(i1, k - 1, n) == Around(i, k, n);
      Associate(multiset{Side(node, i)}, Sides(node, i1, k - 1), Sides(node, Around(i, k, n), l));
    }
  }

  lemma NoSides(node: Polynode, i: nat)
    requires i < |node.poly|
    ensures Sides(node, i, 0) == multiset{}
  {
  }

  lemma FirstSide(node: Polynode, i: nat, k: nat)
    requires i < |node.poly| && 0 < k <= |node.poly|
    ensures Sides(node, i, k) == multiset{Side(node, i)} + Sides(node, Around(i, 1, |node.poly|), k - 1)
  {
  }

  lemma Associate<T>(a: multiset<T>, b: multiset<T>, c: multiset<T>)
    ensures a + (b + c) == a + b + c && a + b + c == b + (a + c)
  {
  }

  lemma SidesRotate(node: Polynode, i: nat)
    requires i < |node.poly|
    ensures Sides(node, i, |node.poly|) == Sides(node, 0, |node.poly|)
  {
    SidesSplit(node, 0, i, |node.poly| - i);
    SidesSplit(node, i, |node.poly| - i, i);
  }

  /** A side of one of the polygons, or one way along one of the links. */
  ghost predicate InTree(m: Mark, t: Tree)
    decreases t
  {
    || (m.node == t.node && if m.Side? then m.i < |t.node.poly| else m.branch in t.branches)
    || exists j :: 0 <= j < |t.branches| && InTree(m, t.branches[j].child)
  }

  lemma {:induction false} OwnerInTree(m: Mark, t: Tree)
    requires InTree(m, t)
    ensures m.node in Nodes(t)
    decreases t
  {
    if m.node != t.node {
      var j :| 0 <= j < |t.branches| && InTree(m, t.branches[j].child);
      OwnerInTree(m, t.branches[j].child);
    }
  }

  /** Every polygon of the tree has all its sides in it. */
  lemma {:induction false} SidesInTree(t: Tree, node: Polynode, i: nat)
    ensures node in Nodes(t) && i < |node.poly| ==> InTree(Side(node, i), t)
    decreases t, |t.branches| + 1
  {
    SidesBelowInTree(t, |t.branches|, node, i);
  }

  lemma {:induction false} SidesBelowInTree(t: Tree, k: nat, node: Polynode, i: nat)
    requires k <= |t.branches|
    ensures node in NodesBelow(t, k) && i < |node.poly| ==> InTree(Side(node, i), t)
    decreases t, k
  {
    if k > 0 {
      SidesBelowInTree(t, k - 1, node, i);
      SidesInTree(t.branches[k - 1].child, node, i);
    }
  }

  ghost predicate InFirst(m: Mark, t: Tree, k: nat)
    requires k <= |t.branches|
  {
    || (m.node == t.node && !m.Side? && exists j :: 0 <= j < k && t.branches[j] == m.branch)
    || exists j :: 0 <= j < k && InTree(m, t.branches[j].child)
  }

  /** Each of them is to be done exactly once. */
  lemma {:induction false} AllCount(t: Tree, m: Mark)
    requires Proper(t)
    ensures All(t)[m] == if InTree(m, t) then 1 else 0
    decreases t, 2
  {
    HasPoints(t);
    hide Below, Nodes, Proper;
    var n := |t.branches|;
    assert t.branches[..n] == t.branches;
    BelowCount(t, n, m);
    SidesCount(t.node, 0, |t.node.poly|, m);
    if m.Side? && m.node == t.node && InFirst(m, t, n) {
      var j :| 0 <= j < n && InTree(m, t.branches[j].child);
      OwnerInTree(m, t.branches[j].child);
      ProperBranch(t, j);
      assert false;
    }
  }

  lemma HasPoints(t: Tree)
    requires Proper(t)
    ensures |t.node.poly| > 0
  {
  }

  lemma BranchesApart(t: Tree, j: nat, k: nat)
    requires Proper(t) && j < k < |t.branches|
    ensures Nodes(t.branches[j].child) !! Nodes(t.branches[k].child) && t.branches[j] != t.branches[k]
  {
  }

  lemma ProperBranch(t: Tree, j: nat)
    requires Proper(t) && j < |t.branches|
    ensures var b := t.branches[j];
            && b in t.branches && Proper(b.child) && t.node !in Nodes(b.child)
            && b.start < |t.node.poly| && b.index < |b.child.node.poly|
  {
  }

  lemma {:induction false} BelowCount(t: Tree, k: nat, m: Mark)
    requires Proper(t) && k <= |t.branches|
    ensures Below(t, t.branches[..k], 0, |t.node.poly|)[m] == if InFirst(m, t, k) then 1 else 0
    decreases t, 1, k
  {
    hide Below, InFirst, InTree, Proper, Nodes, Of;
    if k == 0 {
      NoneBelow(t, m);
    } else {
      var b := t.branches[k - 1];
      ProperBranch(t, k - 1);
      BelowLast(t, t.branches[..k], 0, |t.node.poly|);
      assert t.branches[..k][..k - 1] == t.branches[..k - 1];
      BelowCount(t, k - 1, m);
      OfCount(t, b, m);
      FirstAndLast(m, t, k - 1);
    }
  }

  lemma NoneBelow(t: Tree, m: Mark)
    requires Proper(t)
    ensures Below(t, t.branches[..0], 0, |t.node.poly|) == multiset{} && !InFirst(m, t, 0)
  {
  }

  lemma {:induction false} OfCount(t: Tree, b: Branch, m: Mark)
    requires Proper(t) && b in t.branches
    ensures Of(t, b)[m] == (if m == Out(t.node, b) || m == Back(t.node, b) then 1 else 0)
                         + (if InTree(m, b.child) then 1 else 0)
    decreases t, 0
  {
    hide All, InTree;
    AllCount(b.child, m);
  }

  /** What is in the next branch is not in those before it. */
  lemma FirstAndLast(m: Mark, t: Tree, k: nat)
    requires Proper(t) && k < |t.branches|
    ensures var b := t.branches[k];
            var link, below := m == Out(t.node, b) || m == Back(t.node, b), InTree(m, b.child);
            && (InFirst(m, t, k + 1) <==> InFirst(m, t, k) || link || below)
            && !(link && below) && !(InFirst(m, t, k) && (link || below))
  {
    hide Nodes;
    var b := t.branches[k];
    ProperBranch(t, k);
    if InTree(m, b.child) {
      OwnerInTree(m, b.child);
    }
    if j :| 0 <= j < k && InTree(m, t.branches[j].child) {
      OwnerInTree(m, t.branches[j].child);
      BranchesApart(t, j, k);
      ProperBranch(t, j);
    }
    if m.node == t.node && !m.Side? {
      if j :| 0 <= j < k && t.branches[j] == m.branch {
        BranchesApart(t, j, k);
      }
    }
  }

  /** The walk goes along every side once, along every link once in each direction,
      and along nothing else. */
  lemma EachOnce(t: Tree, start: nat, x: int, y: int, m: Mark)
    requires Proper(t) && start < |t.node.poly|
    ensures Marks(Walk(t, start, x, y))[m] == if InTree(m, t) then 1 else 0
  {
    WalkMarks(t, start, x, y);
    AllCount(t, m);
  }

  // ---------- how long the walk is ----------

  /** The sides of all polygons of the tree, and two legs for each link. */
  function Weight(t: Tree): nat
    decreases t, |t.branches| + 1
  {
    |t.node.poly| + WeightBelow(t, |t.branches|)
  }

  function WeightBelow(t: Tree, k: nat): nat
    requires k <= |t.branches|
    decreases t, k
  {
    if k == 0 then 0 else WeightBelow(t, k - 1) + 2 + Weight(t.branches[k - 1].child)
  }

  lemma {:induction false} SidesSize(node: Polynode, i: nat, k: nat)
    requires i < |node.poly| && k <= |node.poly|
    ensures |Sides(node, i, k)| == k
    decreases k
  {
    if k > 0 {
      SidesSize(node, Around(i, 1, |node.poly|), k - 1);
    }
  }

  lemma {:induction false} AllSize(t: Tree)
    requires Proper(t)
    ensures |All(t)| == Weight(t)
    decreases t, |t.branches| + 2
  {
    HasPoints(t);
    hide Below, Proper, Sides;
    assert t.branches[..|t.branches|] == t.branches;
    SidesSize(t.node, 0, |t.node.poly|);
    BelowSize(t, |t.branches|);
  }

  lemma {:induction false} BelowSize(t: Tree, k: nat)
    requires Proper(t) && k <= |t.branches|
    ensures |Below(t, t.branches[..k], 0, |t.node.poly|)| == WeightBelow(t, k)
    decreases t, k + 1
  {
    hide Proper, All, Weight, Of, Below;
    if k == 0 {
      NothingBelow(t);
    } else {
      var b := t.branches[k - 1];
      ProperBranch(t, k - 1);
      BelowLast(t, t.branches[..k], 0, |t.node.poly|);
      assert t.branches[..k][..k - 1] == t.branches[..k - 1];
      BelowSize(t, k - 1);
      OfSize(t, b);
      CardOfSum(Below(t, t.branches[..k - 1], 0, |t.node.poly|), Of(t, b));
    }
  }

  lemma {:induction false} OfSize(t: Tree, b: Branch)
    requires Proper(t) && b in t.branches
    ensures |Of(t, b)| == 2 + Weight(b.child)
    decreases t, 0
  {
    hide All, Weight;
    AllSize(b.child);
    CardOfSum(multiset{Out(t.node, b), Back(t.node, b)}, All(b.child));
  }

  lemma NothingBelow(t: Tree)
    requires Proper(t)
    ensures Below(t, t.branches[..0], 0, |t.node.poly|) == multiset{}
  {
  }

  lemma CardOfSum<T>(a: multiset<T>, b: multiset<T>)
    ensures |a + b| == |a| + |b|
  {
  }

  /** The walk has as many legs as there are sides and ways along links. */
  lemma WalkLength(t: Tree, start: nat, x: int, y: int)
    requires Proper(t) && start < |t.node.poly|
    ensures |Walk(t, start, x, y)| == Weight(t)
  {
    hide Walk, All, Weight, Proper;
    WalkMarks(t, start, x, y);
    AllSize(t);
  }

  // ---------- what is returned ----------

  function LegStart(l: Leg): Vec {
    Vec(l.x, l.y)
  }

  function LegEnd(l: Leg): Vec {
    Vec(l.x + l.dx, l.y + l.dy)
  }

  /** Each leg begins where the one before it ends, the first where the last one ends. */
  ghost predicate ClosedLine(wrap: Wrap, legs: seq<Leg>)
    requires wrap.Valid()
  {
    && |legs| > 0
    && forall k | 0 <= k < |legs| :: Same(wrap, LegEnd(legs[k]), LegStart(legs[if k + 1 < |legs| then k + 1 else 0]))
  }

  /** One of the legs is this side of a polygon. */
  ghost predicate HasSide(wrap: Wrap, legs: seq<Leg>, p: Point)
    requires wrap.Valid()
  {
    exists k :: 0 <= k < |legs| && IsSide(wrap, legs[k], p)
  }

  ghost predicate IsSide(wrap: Wrap, l: Leg, p: Point)
    requires wrap.Valid()
  {
    !l.link && l.dx == DirX(p.dir) && l.dy == DirY(p.dir) && Same(wrap, LegStart(l), At(p))
  }

  lemma LegsClosed(wrap: Wrap, t: Tree, start: nat)
    requires wrap.Valid() && Proper(t) && Laid(wrap, t) && start < |t.node.poly|
    ensures var p := t.node.poly[start];
            ClosedLine(wrap, Legs(Walk(t, start, p.x, p.y)))
  {
    hide Walk, Go, Proper, Laid, Placed, Same, Legs;
    var p := t.node.poly[start];
    WalkIsTour(wrap, t, start);
    var walk := Walk(t, start, p.x, p.y);
    WalkNotEmpty(t, start, p.x, p.y);
    var legs := Legs(walk);
    SameTrans(wrap, End(walk[|walk| - 1]), At(p), Start(walk[0]));
    forall k | 0 <= k < |legs|
      ensures Same(wrap, LegEnd(legs[k]), LegStart(legs[if k + 1 < |legs| then k + 1 else 0]))
    {
      assert LegEnd(legs[k]) == End(walk[k]);
      if k + 1 < |legs| {
        assert Follows(wrap, walk[k], walk[k + 1]);
      }
    }
  }

  lemma LegsHaveSide(wrap: Wrap, t: Tree, start: nat, node: Polynode, i: nat)
    requires wrap.Valid() && Proper(t) && Laid(wrap, t) && start < |t.node.poly|
    requires node in Nodes(t) && i < |node.poly|
    ensures var p := t.node.poly[start];
            HasSide(wrap, Legs(Walk(t, start, p.x, p.y)), node.poly[i])
  {
    hide Walk, Go, Proper, Laid, Same, Legs, Nodes, InTree, Follows, Begins, Ends;
    var p := t.node.poly[start];
    var walk := Walk(t, start, p.x, p.y);
    SidesInTree(t, node, i);
    EachOnce(t, start, p.x, p.y, Side(node, i));
    var k := MarkAt(walk, Side(node, i));
    WalkIsTour(wrap, t, start);
    assert Placed(wrap, walk[k]);
    assert IsSide(wrap, Legs(walk)[k], node.poly[i]);
  }

  lemma MarkAt(walk: seq<Visit>, m: Mark) returns (k: nat)
    requires Marks(walk)[m] > 0
    ensures k < |walk| && walk[k].mark == m
  {
    var s := seq(|walk|, k requires 0 <= k < |walk| => walk[k].mark);
    assert m in multiset(s);
    assert m in s;
    k :| 0 <= k < |s| && s[k] == m;
  }
}
