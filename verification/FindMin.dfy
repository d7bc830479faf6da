/** The search for the shortest link between two polygons (mapconvert.py): it
    skips points that are too far away to matter, and still finds exactly what
    looking at all pairs of points finds. */
module FindMin {
  import opened MinWrap
  import opened Outline
  import opened BlockMap
  import opened Bytes

  /** A link from point k of one polygon by (dx, dy) to point l of another. */
  datatype Link = Link(dist: nat, k: nat, l: nat, dx: int, dy: int)

  function At(p: Point): Vec {
    Vec(p.x, p.y)
  }

  function Between(wrap: Wrap, a: Point, b: Point): Vec
    requires wrap.Valid()
  {
    wrap.Min(Vec(b.x - a.x, b.y - a.y))
  }

  function Dist(wrap: Wrap, a: Point, b: Point): nat
    requires wrap.Valid()
  {
    Between(wrap, a, b).Norm2()
  }

  /** Neighbouring points are at most a diagonal apart. */
  ghost predicate Steps(wrap: Wrap, part: seq<Point>)
    requires wrap.Valid()
  {
    forall i | 0 <= i < |part| - 1 :: Dist(wrap, part[i], part[i + 1]) <= 2
  }

  ghost predicate IsRoot(root: nat -> real) {
    forall n: nat :: root(n) >= 0.0 && root(n) * root(n) == n as real
  }

  // ---------- the result of a full search ----------

  /** Pair (k, l) comes before pair (m, n) in a search through all pairs. */
  predicate Before(k: int, l: int, m: int, n: int) {
    k < m || (k == m && l < n)
  }

  /** What is found among the pairs before (m, n): nothing if none of them is nearer
      than the bound, else the first of the nearest ones. */
  ghost predicate Found(wrap: Wrap, a: seq<Point>, b: seq<Point>, bound: nat, m: nat, n: nat, r: Option<Link>)
    requires wrap.Valid()
  {
    match r
    case None =>
      forall k, l | 0 <= k < |a| && 0 <= l < |b| && Before(k, l, m, n) :: Dist(wrap, a[k], b[l]) >= bound
    case Some(link) =>
      && link.k < |a| && link.l < |b| && Before(link.k, link.l, m, n)
      && link.dist == Dist(wrap, a[link.k], b[link.l]) < bound
      && Vec(link.dx, link.dy) == Between(wrap, a[link.k], b[link.l])
      && forall k, l | 0 <= k < |a| && 0 <= l < |b| && Before(k, l, m, n) ::
           Dist(wrap, a[k], b[l]) >= link.dist + if Before(k, l, link.k, link.l) then 1 else 0
  }

  function Least(bound: nat, r: Option<Link>): nat {
    if r.None? then bound else r.value.dist
  }

  lemma FoundStarts(wrap: Wrap, a: seq<Point>, b: seq<Point>, bound: nat)
    requires wrap.Valid()
    ensures Found(wrap, a, b, bound, 0, 0, None)
  {
  }

  lemma FoundNextRow(wrap: Wrap, a: seq<Point>, b: seq<Point>, bound: nat, m: nat, n: nat, r: Option<Link>)
    requires wrap.Valid() && n >= |b| && Found(wrap, a, b, bound, m, n, r)
    ensures Found(wrap, a, b, bound, m + 1, 0, r)
  {
  }

  /** Going on past pairs that are not nearer. */
  lemma FoundSkips(wrap: Wrap, a: seq<Point>, b: seq<Point>, bound: nat, m: nat, n: nat, s: nat, r: Option<Link>)
    requires wrap.Valid() && Found(wrap, a, b, bound, m, n, r) && m < |a| && n <= s
    requires forall l | n <= l < s && l < |b| :: Dist(wrap, a[m], b[l]) >= Least(bound, r)
    ensures Found(wrap, a, b, bound, m, s, r)
  {
    forall k, l | 0 <= k < |a| && 0 <= l < |b| && Before(k, l, m, s)
      ensures Dist(wrap, a[k], b[l]) >= Least(bound, r)
      ensures r.Some? && Before(k, l, r.value.k, r.value.l) ==> Dist(wrap, a[k], b[l]) > Least(bound, r)
    {
      if !Before(k, l, m, n) {
        assert k == m && n <= l < s;
      }
    }
  }

  lemma FoundNearer(wrap: Wrap, a: seq<Point>, b: seq<Point>, bound: nat, m: nat, n: nat, r: Option<Link>)
    requires wrap.Valid() && Found(wrap, a, b, bound, m, n, r) && m < |a| && n < |b|
    requires Dist(wrap, a[m], b[n]) < Least(bound, r)
    ensures var v := Between(wrap, a[m], b[n]);
            Found(wrap, a, b, bound, m, n + 1, Some(Link(v.Norm2(), m, n, v.x, v.y)))
  {
    var v := Between(wrap, a[m], b[n]);
    forall k, l | 0 <= k < |a| && 0 <= l < |b| && Before(k, l, m, n + 1)
      ensures Dist(wrap, a[k], b[l]) >= v.Norm2() + if Before(k, l, m, n) then 1 else 0
    {
      if !Before(k, l, m, n) {
        assert k == m && l == n;
      }
    }
  }

  // ---------- why skipping is right ----------

  /** Where n steps along the polygon lead, each taken the shortest way. */
  ghost function Drift(wrap: Wrap, b: seq<Point>, l: nat, n: nat): Vec
    requires wrap.Valid() && l + n < |b|
  {
    if n == 0 then Vec(0, 0) else Drift(wrap, b, l, n - 1).Plus(Between(wrap, b[l + n - 1], b[l + n]))
  }

  predicate Within(u: Vec, n: int) {
    -n <= u.x <= n && -n <= u.y <= n
  }

  /** A vector that leads from place p to place q, or to the same place as q. */
  ghost predicate Leads(wrap: Wrap, u: Vec, p: Vec, q: Vec)
    requires wrap.Valid()
  {
    wrap.Period(u.Minus(q.Minus(p)))
  }

  lemma LeadsOn(wrap: Wrap, u: Vec, v: Vec, p: Vec, q: Vec, r: Vec)
    requires wrap.Valid() && Leads(wrap, u, p, q) && Leads(wrap, v, q, r)
    ensures Leads(wrap, u.Plus(v), p, r)
  {
    hide Wrap.Period;
    PeriodsAdd(wrap, u.Minus(q.Minus(p)), v.Minus(r.Minus(q)));
    OnAgain(u, v, p, q, r);
  }

  lemma OnAgain(u: Vec, v: Vec, p: Vec, q: Vec, r: Vec)
    ensures u.Minus(q.Minus(p)).Plus(v.Minus(r.Minus(q))) == u.Plus(v).Minus(r.Minus(p))
  {
  }

  lemma LeadsBack(wrap: Wrap, u: Vec, p: Vec, q: Vec)
    requires wrap.Valid() && Leads(wrap, u, p, q)
    ensures Leads(wrap, u.Neg(), q, p)
  {
    hide Wrap.Period;
    PeriodBack(wrap, u.Minus(q.Minus(p)));
    BackAgain(u, p, q);
  }

  lemma BackAgain(u: Vec, p: Vec, q: Vec)
    ensures u.Minus(q.Minus(p)).Neg() == u.Neg().Minus(p.Minus(q))
  {
  }

  lemma BetweenLeads(wrap: Wrap, p: Point, q: Point)
    requires wrap.Valid()
    ensures Leads(wrap, Between(wrap, p, q), At(p), At(q))
  {
    hide Wrap.Period, Wrap.Min;
    MinIsSamePlace(wrap, At(q).Minus(At(p)));
  }

  lemma {:induction false} DriftBounded(wrap: Wrap, b: seq<Point>, l: nat, n: nat)
    requires wrap.Valid() && Steps(wrap, b) && l + n < |b|
    ensures Within(Drift(wrap, b, l, n), n) && Leads(wrap, Drift(wrap, b, l, n), At(b[l]), At(b[l + n]))
  {
    hide Vec.Norm2, Wrap.Min, Wrap.Period, Leads, Between;
    if n == 0 {
      StaysPut(wrap, At(b[l]));
    } else {
      DriftBounded(wrap, b, l, n - 1);
      var s := Between(wrap, b[l + n - 1], b[l + n]);
      var m := l + n - 1;
      assert Dist(wrap, b[m], b[m + 1]) <= 2;
      ShortStep(s);
      BetweenLeads(wrap, b[l + n - 1], b[l + n]);
      LeadsOn(wrap, Drift(wrap, b, l, n - 1), s, At(b[l]), At(b[l + n - 1]), At(b[l + n]));
    }
  }

  lemma StaysPut(wrap: Wrap, p: Vec)
    requires wrap.Valid()
    ensures Leads(wrap, Vec(0, 0), p, p)
  {
    NoPeriod(wrap);
    assert Vec(0, 0).Minus(p.Minus(p)) == Vec(0, 0);
  }

  lemma ShortStep(s: Vec)
    requires s.Norm2() <= 2
    ensures Within(s, 1)
  {
    SquareIsNat(s.x);
    SquareIsNat(s.y);
    SquareAtLeast(s.x);
    SquareAtLeast(s.y);
  }

  lemma SquareAtLeast(x: int)
    ensures x >= 2 || x <= -2 ==> x * x >= 4
  {
  }

  /** A point n steps on is at most that much nearer. */
  lemma NotMuchNearer(wrap: Wrap, p: Point, b: seq<Point>, l: nat, n: nat, root: nat -> real)
    requires wrap.Valid() && Steps(wrap, b) && l + n < |b| && IsRoot(root)
    ensures root(Dist(wrap, p, b[l])) <= root(Dist(wrap, p, b[l + n])) + 1.4143 * n as real
  {
    hide Vec.Norm2, Wrap.Min, Wrap.Period, Steps, IsRoot, Leads;
    DriftBounded(wrap, b, l, n);
    var u := Drift(wrap, b, l, n);
    hide Drift;
    var back := u.Neg();
    LeadsBack(wrap, u, At(b[l]), At(b[l + n]));
    MinTriangle(wrap, p, b[l + n], b[l], back);
    Triangle(Dist(wrap, p, b[l]), Between(wrap, p, b[l + n]), back, n, root);
  }

  lemma MinTriangle(wrap: Wrap, p: Point, q: Point, r: Point, u: Vec)
    requires wrap.Valid() && Leads(wrap, u, At(q), At(r))
    ensures Dist(wrap, p, r) <= Between(wrap, p, q).Plus(u).Norm2()
  {
    hide Wrap.Min, Wrap.Period, Vec.Norm2;
    var v, w := At(q).Minus(At(p)), At(r).Minus(At(p));
    assert v.Plus(u).Minus(w) == u.Minus(At(r).Minus(At(q)));
    MinContracts(wrap, v, u, w);
  }

  lemma Triangle(d: nat, m: Vec, u: Vec, n: nat, root: nat -> real)
    requires IsRoot(root) && d <= m.Plus(u).Norm2() && Within(u, n)
    ensures root(d) <= root(m.Norm2()) + 1.4143 * n as real
  {
    hide Vec.Norm2;
    var len, dot := m.Norm2(), m.x * u.x + m.y * u.y;
    Expand(m, u);
    BoundedNorm(u, n);
    CauchySchwarz(m, u);
    Monotone(len, u.Norm2(), 2 * (n * n));
    TriangleReal(d, len, dot, n * n, n, root(len), root(d));
  }

  lemma TriangleReal(d: nat, len: nat, dot: int, nn: nat, n: nat, a: real, x: real)
    requires nn == n * n && dot * dot <= len * (2 * nn) && d <= len + 2 * dot + 2 * nn
    requires a >= 0.0 && a * a == len as real && x * x == d as real
    ensures x <= a + 1.4143 * n as real
  {
    var c := 1.4143 * n as real;
    RealOfProduct(n, n);
    Diagonal(n as real);
    DotBound(dot, len, nn, a, c);
    SumBound(d as real, x, len as real, a, dot as real, c);
  }

  lemma Expand(m: Vec, u: Vec)
    ensures m.Plus(u).Norm2() == m.Norm2() + 2 * (m.x * u.x + m.y * u.y) + u.Norm2()
  {
    SumSquared(m.x, u.x);
    SumSquared(m.y, u.y);
  }

  lemma SumSquared(x: int, y: int)
    ensures (x + y) * (x + y) == x * x + 2 * (x * y) + y * y
  {
  }

  lemma BoundedNorm(u: Vec, n: nat)
    requires Within(u, n)
    ensures u.Norm2() <= 2 * (n * n)
  {
    SquaresGrow(u.x, n);
    SquaresGrow(u.y, n);
  }

  lemma CauchySchwarz(m: Vec, u: Vec)
    ensures (m.x * u.x + m.y * u.y) * (m.x * u.x + m.y * u.y) <= m.Norm2() * u.Norm2()
  {
    var p, q, r, t := m.x * u.x, m.y * u.y, m.x * u.y, m.y * u.x;
    SquareIsNat(r - t);
    DifferenceSquared(r, t);
    SumSquared(p, q);
    ProductOfSquares(m.x, u.x, m.y, u.y);
    Crosswise(m.x, u.y, m.y, u.x);
  }

  lemma DifferenceSquared(x: int, y: int)
    ensures (x - y) * (x - y) == x * x - 2 * (x * y) + y * y
  {
  }

  lemma Crosswise(a: int, b: int, c: int, d: int)
    ensures (a * b) * (c * d) == (a * d) * (c * b)
  {
  }

  lemma ProductOfSquares(a: int, b: int, c: int, d: int)
    ensures (a * a + c * c) * (b * b + d * d)
         == (a * b) * (a * b) + (c * d) * (c * d) + (a * d) * (a * d) + (c * b) * (c * b)
  {
    SquareOfProduct(a, b);
    SquareOfProduct(c, d);
    SquareOfProduct(a, d);
    SquareOfProduct(c, b);
    Products(a * a, c * c, b * b, d * d);
  }

  lemma Products(e: int, g: int, f: int, h: int)
    ensures (e + g) * (f + h) == e * f + e * h + g * f + g * h
  {
  }

  lemma SquareOfProduct(a: int, b: int)
    ensures (a * b) * (a * b) == (a * a) * (b * b)
  {
  }

  lemma RealOfProduct(x: int, y: int)
    ensures (x * y) as real == x as real * y as real
  {
  }

  lemma Diagonal(n: real)
    ensures (1.4143 * n) * (1.4143 * n) >= 2.0 * (n * n)
  {
    var s := n * n;
    assert s >= 0.0;
    assert (1.4143 * n) * (1.4143 * n) == 2.00024449 * s;
  }

  lemma LargerSquare(x: real, y: real)
    requires 0.0 <= x < y
    ensures x * x < y * y
  {
    assert (y - x) * y > 0.0;
    assert (y - x) * x >= 0.0;
  }

  lemma LessBySquares(x: real, y: real)
    requires y >= 0.0 && x * x <= y * y
    ensures x <= y
  {
    if x > y {
      LargerSquare(y, x);
    }
  }

  lemma DotBound(dot: int, len: nat, nn: nat, a: real, c: real)
    requires a >= 0.0 && c >= 0.0 && a * a == len as real && c * c >= 2.0 * nn as real
    requires dot * dot <= len * (2 * nn)
    ensures dot as real <= a * c
  {
    RealOfProduct(dot, dot);
    RealOfProduct(len, 2 * nn);
    RealMonotone(len as real, (2 * nn) as real, c * c);
    ProductSquared(a, c);
    LessBySquares(dot as real, a * c);
  }

  lemma RealMonotone(x: real, y: real, z: real)
    requires x >= 0.0 && y <= z
    ensures x * y <= x * z
  {
  }

  lemma ProductSquared(a: real, c: real)
    requires a >= 0.0 && c >= 0.0
    ensures (a * c) * (a * c) == (a * a) * (c * c) && a * c >= 0.0
  {
    var s := c * c;
    assert (a * c) * (a * c) == (a * a) * s;
  }

  lemma SumBound(d: real, x: real, len: real, a: real, dot: real, c: real)
    requires x * x == d && a * a == len && a >= 0.0 && c >= 0.0 && dot <= a * c
    requires d <= len + 2.0 * dot + c * c
    ensures x <= a + c
  {
    assert (a + c) * (a + c) == a * a + 2.0 * (a * c) + c * c;
    LessBySquares(x, a + c);
  }

  // ---------- the search ----------

  /** How many points to go on from one that is d away, if m is the least distance so far. */
  function Skip(root: nat -> real, d: nat, m: nat): int {
    ((root(d) - root(m)) / 1.4143).Floor
  }

  lemma SkipIsFar(wrap: Wrap, p: Point, b: seq<Point>, l: nat, m: nat, root: nat -> real)
    requires wrap.Valid() && Steps(wrap, b) && IsRoot(root) && l < |b|
    requires var far := (root(m) + 4.0) * (root(m) + 4.0); Dist(wrap, p, b[l]) as real >= far
    ensures Skip(root, Dist(wrap, p, b[l]), m) >= 1
    ensures forall i | l <= i < l + Skip(root, Dist(wrap, p, b[l]), m) && i < |b| :: Dist(wrap, p, b[i]) >= m
  {
    var d := Dist(wrap, p, b[l]);
    LessBySquares(root(m) + 4.0, root(d));
    var s := Skip(root, d, m);
    assert s as real * 1.4143 <= root(d) - root(m);
    forall i | l <= i < l + s && i < |b|
      ensures Dist(wrap, p, b[i]) >= m
    {
      NotMuchNearer(wrap, p, b, l, i - l, root);
      var n := i - l;
      assert n as real <= s as real;
      if Dist(wrap, p, b[i]) < m {
        RootLess(root, Dist(wrap, p, b[i]), m);
      }
    }
  }

  lemma RootLess(root: nat -> real, x: nat, y: nat)
    requires IsRoot(root) && x < y
    ensures root(x) < root(y)
  {
    LessBySquares(root(x), root(y));
  }

  method Search(a: seq<Point>, b: seq<Point>, bound: nat, wrap: Wrap, root: nat -> real) returns (result: Option<Link>)
    requires wrap.Valid() && Steps(wrap, b) && IsRoot(root)
    ensures Found(wrap, a, b, bound, |a|, 0, result)
  {
    hide IsRoot, Found, Steps, Wrap.Min, Vec.Norm2;
    result := None;
    var mindist := bound;
    var mind := root(mindist);
    var far := (mind + 4.0) * (mind + 4.0);
    FoundStarts(wrap, a, b, bound);
    var k := 0;
    while k < |a|
      invariant 0 <= k <= |a| && mindist == Least(bound, result)
      invariant mind == root(mindist) && far == (mind + 4.0) * (mind + 4.0)
      invariant Found(wrap, a, b, bound, k, 0, result)
    {
      var l := 0;
      while l < |b|
        invariant 0 <= l && mindist == Least(bound, result)
        invariant mind == root(mindist) && far == (mind + 4.0) * (mind + 4.0)
        invariant Found(wrap, a, b, bound, k, l, result)
      {
        var v := Between(wrap, a[k], b[l]);
        var d := v.Norm2();
        if d < mindist {
          FoundNearer(wrap, a, b, bound, k, l, result);
          mindist := d;
          mind := root(mindist);
          far := (mind + 4.0) * (mind + 4.0);
          result := Some(Link(mindist, k, l, v.x, v.y));
          l := l + 1;
        } else if d as real < far {
          FoundSkips(wrap, a, b, bound, k, l, l + 1, result);
          l := l + 1;
        } else {
          SkipIsFar(wrap, a[k], b, l, mindist, root);
          FoundSkips(wrap, a, b, bound, k, l, l + Skip(root, d, mindist), result);
          l := l + Skip(root, d, mindist);
        }
      }
      FoundNextRow(wrap, a, b, bound, k, l, result);
      k := k + 1;
    }
  }

  /** A shortest link between the two, if one is shorter than the bound. */
  ghost predicate Shortest(wrap: Wrap, part1: seq<Point>, part2: seq<Point>, bound: nat, r: Option<Link>)
    requires wrap.Valid()
  {
    match r
    case None => forall k, l | 0 <= k < |part1| && 0 <= l < |part2| :: Dist(wrap, part1[k], part2[l]) >= bound
    case Some(link) =>
      && link.k < |part1| && link.l < |part2|
      && link.dist == Dist(wrap, part1[link.k], part2[link.l]) == Vec(link.dx, link.dy).Norm2() < bound
      && Leads(wrap, Vec(link.dx, link.dy), At(part1[link.k]), At(part2[link.l]))
      && forall k, l | 0 <= k < |part1| && 0 <= l < |part2| :: Dist(wrap, part1[k], part2[l]) >= link.dist
  }

  function Swapped(link: Link): Link {
    Link(link.dist, link.l, link.k, -link.dx, -link.dy)
  }

  lemma FoundIsShortest(wrap: Wrap, a: seq<Point>, b: seq<Point>, bound: nat, r: Option<Link>)
    requires wrap.Valid() && Found(wrap, a, b, bound, |a|, 0, r)
    ensures Shortest(wrap, a, b, bound, r)
    ensures Shortest(wrap, b, a, bound, if r.None? then None else Some(Swapped(r.value)))
  {
    hide Wrap.Period, Wrap.Min, Leads, Between, Vec.Norm2;
    forall k, l | 0 <= k < |a| && 0 <= l < |b|
      ensures Before(k, l, |a|, 0) && Dist(wrap, a[k], b[l]) == Dist(wrap, b[l], a[k])
    {
      DistBothWays(wrap, a[k], b[l]);
    }
    if r.Some? {
      var link := r.value;
      LinkLeads(wrap, a[link.k], b[link.l]);
    }
  }

  lemma DistBothWays(wrap: Wrap, p: Point, q: Point)
    requires wrap.Valid()
    ensures Dist(wrap, p, q) == Dist(wrap, q, p)
  {
    hide Wrap.Min, Vec.Norm2;
    MinBothWays(wrap, Vec(q.x - p.x, q.y - p.y));
    assert Vec(q.x - p.x, q.y - p.y).Neg() == Vec(p.x - q.x, p.y - q.y);
  }

  lemma LinkLeads(wrap: Wrap, p: Point, q: Point)
    requires wrap.Valid()
    ensures var v := Between(wrap, p, q);
            Leads(wrap, v, At(p), At(q)) && Leads(wrap, v.Neg(), At(q), At(p)) && v.Neg().Norm2() == v.Norm2()
  {
    hide Wrap.Period, Wrap.Min, Leads, Between;
    var v := Between(wrap, p, q);
    BetweenLeads(wrap, p, q);
    LeadsBack(wrap, v, At(p), At(q));
    NormBothWays(v);
  }

  /** The shorter polygon is gone through in the outer loop. The result is that of
      the search through all pairs: the first nearest pair in that order. */
  method FindMin(part1: seq<Point>, part2: seq<Point>, mindist: nat, wrap: Wrap, root: nat -> real)
    returns (result: Option<Link>)
    requires wrap.Valid() && Steps(wrap, part1) && Steps(wrap, part2) && IsRoot(root)
    ensures Shortest(wrap, part1, part2, mindist, result)
    ensures |part1| <= |part2| ==> Found(wrap, part1, part2, mindist, |part1|, 0, result)
    ensures |part1| > |part2| ==>
              Found(wrap, part2, part1, mindist, |part2|, 0, if result.None? then None else Some(Swapped(result.value)))
  {
    hide Found, Shortest;
    if |part1| > |part2| {
      result := Search(part2, part1, mindist, wrap, root);
      FoundIsShortest(wrap, part2, part1, mindist, result);
      if result.None? {
        return;
      }
      result := Some(Swapped(result.value));
    } else {
      result := Search(part1, part2, mindist, wrap, root);
      FoundIsShortest(wrap, part1, part2, mindist, result);
    }
  }
}
