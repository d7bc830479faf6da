/** Distances on a map that wraps around: the three forms of minwrap that the
    linking of polygons uses (mapconvert.py). Each picks the shortest of all
    vectors that differ by a period of the wrapping. */
module MinWrap {
  import opened Arithmetic

  datatype Vec = Vec(x: int, y: int) {
    function Plus(v: Vec): Vec {
      Vec(x + v.x, y + v.y)
    }

    function Minus(v: Vec): Vec {
      Vec(x - v.x, y - v.y)
    }

    function Neg(): Vec {
      Vec(-x, -y)
    }

    function Norm2(): nat {
      SquareIsNat(x);
      SquareIsNat(y);
      x * x + y * y
    }
  }

  lemma SquareIsNat(x: int)
    ensures x * x >= 0
  {
  }

  /** No wrapping, wrapping in both directions, or wrapping along one vector. */
  datatype Wrap = NoWrap | Torus(w: nat, h: nat) | Along(wx: int, wy: int) {

    predicate Valid() {
      match this
      case NoWrap => true
      case Torus(w, h) => w > 0 && h > 0
      case Along(wx, wy) => wx != 0 || wy != 0
    }

    /** A vector that leads to the same place of the map. */
    ghost predicate Period(p: Vec)
      requires Valid()
    {
      match this
      case NoWrap => p == Vec(0, 0)
      case Torus(w, h) => OnGrid(p, w, h)
      case Along(wx, wy) => OnLine(p, wx, wy)
    }

    function Min(v: Vec): Vec
      requires Valid()
    {
      match this
      case NoWrap => v
      case Torus(w, h) => Vec((v.x + w / 2) % w - w / 2, (v.y + h / 2) % h - h / 2)
      case Along(wx, wy) =>
        LengthIsPositive(wx, wy);
        var d := Round(wx * v.x + wy * v.y, wx * wx + wy * wy);
        Vec(v.x - d * wx, v.y - d * wy)
    }
  }

  predicate OnGrid(p: Vec, w: nat, h: nat)
    requires w > 0 && h > 0
  {
    p.x % w == 0 && p.y % h == 0
  }

  ghost predicate OnLine(p: Vec, wx: int, wy: int) {
    exists k :: Times(k, wx, wy) == p
  }

  function Times(k: int, wx: int, wy: int): Vec {
    Vec(k * wx, k * wy)
  }

  lemma LengthIsPositive(wx: int, wy: int)
    requires wx != 0 || wy != 0
    ensures wx * wx + wy * wy > 0
  {
    assert wx * wx >= 0 && wy * wy >= 0;
    assert wx != 0 ==> wx * wx > 0;
    assert wy != 0 ==> wy * wy > 0;
  }

  /** The quotient, rounded to the nearest integer, halves away from zero. */
  function Round(n: int, d: int): (r: int)
    requires d > 0
    ensures -d <= 2 * (n - r * d) <= d
  {
    if n >= 0 then RoundUp(n, d) else -RoundUp(-n, d)
  }

  function RoundUp(n: int, d: int): (r: int)
    requires d > 0 && n >= 0
    ensures -d <= 2 * (n - r * d) <= d
  {
    var r := (2 * n + d) / (2 * d);
    assert 0 <= 2 * n + d - r * (2 * d) < 2 * d;
    r
  }

  // ---------- periods ----------

  lemma NoPeriod(wrap: Wrap)
    requires wrap.Valid()
    ensures wrap.Period(Vec(0, 0))
  {
    match wrap
    case NoWrap =>
    case Torus(w, h) =>
    case Along(wx, wy) => assert Times(0, wx, wy) == Vec(0, 0);
  }

  lemma PeriodsAdd(wrap: Wrap, p: Vec, q: Vec)
    requires wrap.Valid() && wrap.Period(p) && wrap.Period(q)
    ensures wrap.Period(p.Plus(q)) && wrap.Period(p.Minus(q))
  {
    hide OnGrid, OnLine, Vec.Plus, Vec.Minus;
    match wrap
    case NoWrap => NothingAdds(p);
    case Torus(w, h) => GridAdds(w, h, p, q);
    case Along(wx, wy) => LineAdds(wx, wy, p, q);
  }

  lemma NothingAdds(p: Vec)
    requires p == Vec(0, 0)
    ensures p.Plus(p) == p && p.Minus(p) == p
  {
  }

  lemma GridAdds(w: nat, h: nat, p: Vec, q: Vec)
    requires w > 0 && h > 0 && OnGrid(p, w, h) && OnGrid(q, w, h)
    ensures OnGrid(p.Plus(q), w, h) && OnGrid(p.Minus(q), w, h)
  {
    MultiplesAdd(p.x, q.x, w);
    MultiplesAdd(p.y, q.y, h);
  }

  lemma LineAdds(wx: int, wy: int, p: Vec, q: Vec)
    requires OnLine(p, wx, wy) && OnLine(q, wx, wy)
    ensures OnLine(p.Plus(q), wx, wy) && OnLine(p.Minus(q), wx, wy)
  {
    hide Times, Vec.Plus, Vec.Minus;
    var k :| Times(k, wx, wy) == p;
    var l :| Times(l, wx, wy) == q;
    TimesAdd(k, l, wx, wy);
  }

  lemma PeriodBack(wrap: Wrap, p: Vec)
    requires wrap.Valid() && wrap.Period(p)
    ensures wrap.Period(p.Neg())
  {
    hide Wrap.Period;
    NoPeriod(wrap);
    PeriodsAdd(wrap, Vec(0, 0), p);
    NegIsMinus(p);
  }

  lemma NegIsMinus(p: Vec)
    ensures p.Neg() == Vec(0, 0).Minus(p)
  {
  }

  lemma TimesAdd(k: int, l: int, wx: int, wy: int)
    ensures Times(k + l, wx, wy) == Times(k, wx, wy).Plus(Times(l, wx, wy))
    ensures Times(k - l, wx, wy) == Times(k, wx, wy).Minus(Times(l, wx, wy))
  {
    assert (k + l) * wx == k * wx + l * wx && (k + l) * wy == k * wy + l * wy;
    assert (k - l) * wx == k * wx - l * wx && (k - l) * wy == k * wy - l * wy;
  }

  // ---------- the shortest vector ----------

  lemma MinIsSamePlace(wrap: Wrap, v: Vec)
    requires wrap.Valid()
    ensures wrap.Period(wrap.Min(v).Minus(v))
  {
    match wrap
    case NoWrap =>
    case Torus(w, h) =>
      CentredMod(v.x, w);
      CentredMod(v.y, h);
    case Along(wx, wy) =>
      LengthIsPositive(wx, wy);
      var d := Round(wx * v.x + wy * v.y, wx * wx + wy * wy);
      TimesAdd(0, d, wx, wy);
      assert wrap.Min(v) == v.Minus(Times(d, wx, wy));
      assert Times(0 - d, wx, wy) == wrap.Min(v).Minus(v);
  }

  lemma CentredMod(x: int, w: int)
    requires w > 0
    ensures ((x + w / 2) % w - w / 2 - x) % w == 0
  {
    var q := (x + w / 2) / w;
    assert (x + w / 2) % w - w / 2 - x == (-q) * w;
    MultipleOf(-q, w);
  }

  /** Of all vectors to the same place, the one picked is a shortest one. */
  lemma MinIsShortest(wrap: Wrap, v: Vec, p: Vec)
    requires wrap.Valid() && wrap.Period(p)
    ensures wrap.Min(v).Norm2() <= v.Plus(p).Norm2()
  {
    match wrap
    case NoWrap =>
    case Torus(w, h) =>
      CentredShortest(v.x, p.x, w);
      CentredShortest(v.y, p.y, h);
    case Along(wx, wy) =>
      LengthIsPositive(wx, wy);
      var k :| Times(k, wx, wy) == p;
      var d := Round(wx * v.x + wy * v.y, wx * wx + wy * wy);
      assert wrap.Min(v) == v.Minus(Times(d, wx, wy));
      AlongShortest(v, wx, wy, d, k);
  }

  lemma AlongShortest(v: Vec, wx: int, wy: int, d: int, k: int)
    requires var l := wx * wx + wy * wy; -l <= 2 * (wx * v.x + wy * v.y - d * l) <= l
    ensures v.Minus(Times(d, wx, wy)).Norm2() <= v.Plus(Times(k, wx, wy)).Norm2()
  {
    var m := v.Minus(Times(d, wx, wy));
    Projection(v, wx, wy, d);
    LongerAlong(m, wx, wy, k + d);
    TimesAdd(k, d, wx, wy);
    assert v.Plus(Times(k, wx, wy)) == m.Plus(Times(k + d, wx, wy));
  }

  lemma Projection(v: Vec, wx: int, wy: int, d: int)
    ensures var m := v.Minus(Times(d, wx, wy));
            m.x * wx + m.y * wy == wx * v.x + wy * v.y - d * (wx * wx + wy * wy)
  {
    Distribute(d, wx * wx, wy * wy);
    ScaledDifference(v.x, d, wx);
    ScaledDifference(v.y, d, wy);
  }

  lemma ScaledDifference(a: int, d: int, b: int)
    ensures (a - d * b) * b == b * a - d * (b * b)
  {
    var c := d * b;
    assert c * b == d * (b * b);
  }

  lemma CentredShortest(x: int, p: int, w: int)
    requires w > 0 && p % w == 0
    ensures var r := (x + w / 2) % w - w / 2; r * r <= (x + p) * (x + p)
  {
    var r := (x + w / 2) % w - w / 2;
    CentredMod(x, w);
    MultiplesAdd(p, r - x, w);
    var k := (x + p - r) / w;
    assert x + p == r + k * w;
    FarAway(r, k, w);
  }

  lemma FarAway(r: int, k: int, w: int)
    requires w > 0 && -(w / 2) <= r < w - w / 2
    ensures r * r <= (r + k * w) * (r + k * w)
  {
    AtLeastOne(k, w);
    SquaresGrow(r, r + k * w);
  }

  lemma SquaresGrow(r: int, s: int)
    requires s == r || -s <= r <= s || s <= r <= -s
    ensures r * r <= s * s
  {
    var a, b := if r < 0 then -r else r, if s < 0 then -s else s;
    SquareOfNegative(r);
    SquareOfNegative(s);
    Monotone(a, a, b);
    Monotone(b, a, b);
  }

  lemma LongerAlong(m: Vec, wx: int, wy: int, k: int)
    requires -(wx * wx + wy * wy) <= 2 * (m.x * wx + m.y * wy) <= wx * wx + wy * wy
    ensures m.Norm2() <= m.Plus(Times(k, wx, wy)).Norm2()
  {
    var l, s := wx * wx + wy * wy, m.x * wx + m.y * wy;
    SquareOfSum(m.x, k, wx);
    SquareOfSum(m.y, k, wy);
    Distribute(2 * k, m.x * wx, m.y * wy);
    Distribute(k * k, wx * wx, wy * wy);
    assert m.Plus(Times(k, wx, wy)).Norm2() == m.Norm2() + 2 * k * s + k * k * l;
    Dominates(k, s, l);
  }

  lemma SquareOfSum(a: int, k: int, b: int)
    ensures (a + k * b) * (a + k * b) == a * a + 2 * k * (a * b) + k * k * (b * b)
  {
    var c := k * b;
    assert (a + c) * (a + c) == a * a + 2 * a * c + c * c;
    assert 2 * a * c == 2 * k * (a * b);
    assert c * c == k * k * (b * b);
  }

  lemma Distribute(k: int, a: int, b: int)
    ensures k * (a + b) == k * a + k * b
  {
  }

  lemma Dominates(k: int, s: int, l: int)
    requires -l <= 2 * s <= l
    ensures 2 * k * s + k * k * l >= 0
  {
    var n := if k >= 0 then k else -k;
    SquareOfNegative(k);
    assert k * k == n * n;
    Bounded(k, s, n, l);
    if n >= 1 {
      Growing(n, l);
    }
    assert 2 * k * s == 2 * (k * s);
  }

  lemma Bounded(k: int, s: int, n: int, l: int)
    requires n == (if k >= 0 then k else -k) && -l <= 2 * s <= l
    ensures 2 * (k * s) >= -(n * l)
  {
    if k >= 0 {
      Monotone(n, -l, 2 * s);
    } else {
      Monotone(n, 2 * s, l);
    }
  }

  lemma Monotone(n: int, a: int, b: int)
    requires n >= 0 && a <= b
    ensures n * a <= n * b
  {
  }

  lemma Growing(n: int, l: int)
    requires n >= 1 && l >= 0
    ensures n * n * l >= n * l
  {
    Monotone(n, 1, n);
    Monotone(l, n, n * n);
  }

  /** Going on by u from a shortest vector is no shorter than the shortest one there. */
  lemma MinContracts(wrap: Wrap, v: Vec, u: Vec, w: Vec)
    requires wrap.Valid() && wrap.Period(v.Plus(u).Minus(w))
    ensures wrap.Min(w).Norm2() <= wrap.Min(v).Plus(u).Norm2()
  {
    hide Wrap.Period, Wrap.Min, Vec.Norm2, Vec.Plus, Vec.Minus;
    var m := wrap.Min(v);
    MinIsSamePlace(wrap, v);
    PeriodsAdd(wrap, m.Minus(v), v.Plus(u).Minus(w));
    ThreePoints(m, v, u, w);
    MinIsShortest(wrap, w, m.Plus(u).Minus(w));
  }

  lemma ThreePoints(m: Vec, v: Vec, u: Vec, w: Vec)
    ensures m.Minus(v).Plus(v.Plus(u).Minus(w)) == m.Plus(u).Minus(w)
    ensures w.Plus(m.Plus(u).Minus(w)) == m.Plus(u)
  {
  }

  /** The way back is as long as the way there. */
  lemma MinBothWays(wrap: Wrap, v: Vec)
    requires wrap.Valid()
    ensures wrap.Min(v.Neg()).Norm2() == wrap.Min(v).Norm2()
  {
    hide Wrap.Min, Vec.Norm2;
    MinNoLonger(wrap, v);
    MinNoLonger(wrap, v.Neg());
    assert v.Neg().Neg() == v;
  }

  lemma MinNoLonger(wrap: Wrap, v: Vec)
    requires wrap.Valid()
    ensures wrap.Min(v.Neg()).Norm2() <= wrap.Min(v).Norm2()
  {
    hide Wrap.Period, Wrap.Min, Vec.Norm2, Vec.Minus, Vec.Neg, Vec.Plus;
    var m := wrap.Min(v);
    MinIsSamePlace(wrap, v);
    PeriodBack(wrap, m.Minus(v));
    MinIsShortest(wrap, v.Neg(), m.Minus(v).Neg());
    NegOfDifference(m, v);
    NormBothWays(m);
  }

  lemma NegOfDifference(m: Vec, v: Vec)
    ensures v.Neg().Plus(m.Minus(v).Neg()) == m.Neg()
    ensures m.Minus(v).Neg() == m.Neg().Minus(v.Neg())
  {
  }

  lemma NormBothWays(m: Vec)
    ensures m.Neg().Norm2() == m.Norm2()
  {
    SquareOfNegative(m.x);
    SquareOfNegative(m.y);
  }

  lemma SquareOfNegative(x: int)
    ensures (-x) * (-x) == x * x
  {
  }
}
