/** Local gravity (src/server/gravity.c): each source adds to the cells around it. The
    loops count wrapped columns and rows along and turn signs as they pass the source;
    what they leave in a cell is the sum of a direct formula over all sources and all
    places that wrap around to that cell. */
module Gravity {
  import opened Arithmetic

  const GRAV_RANGE := 10

  datatype Vector = Vector(x: real, y: real) {
    function Plus(v: Vector): Vector {
      Vector(x + v.x, y + v.y)
    }
  }

  datatype Kind = Pos | Neg | Cwise | Acwise | Up | Down | Right | Left

  /** A source, in block coordinates. */
  datatype Grav = Grav(x: int, y: int, kind: Kind, force: real)

  const ZERO := Vector(0.0, 0.0)

  function Square(x: int): nat {
    x * x
  }

  function Times(a: real, b: real): real {
    a * b
  }

  function Abs(x: int): nat {
    if x < 0 then -x else x
  }

  /** What a source adds to a place that is (dx, dy) away from it. The function pow is
      that of raising to the power of -3/2. */
  function Pull(pow: nat -> real, g: Grav, dx: int, dy: int): Vector {
    var s := if dx == 0 && dy == 0 then 0.0 else pow(Square(dx) + Square(dy));
    match g.kind
    case Cwise | Acwise => Vector(-Times(g.force, Times(dy as real, s)), Times(g.force, Times(dx as real, s)))
    case Up | Down => Vector(0.0, if dx == 0 && dy == 0 then g.force else Times(g.force, Times(Abs(dx) as real, s)))
    case Right | Left => Vector(if dx == 0 && dy == 0 then g.force else Times(g.force, Times(Abs(dy) as real, s)), 0.0)
    case Pos | Neg => Vector(Times(g.force, Times(dx as real, s)), Times(g.force, Times(dy as real, s)))
  }

  /** An upward or downward source leaves out exactly the places straight above and below
      it, and one to the left or right those straight beside it: the strength goes with
      the distance across the direction of the pull. */
  lemma BlindSpots(pow: nat -> real, g: Grav, dx: int, dy: int)
    requires g.force != 0.0 && forall n :: n > 0 ==> pow(n) > 0.0
    ensures g.kind.Up? || g.kind.Down? ==> (Pull(pow, g, dx, dy) == ZERO <==> dx == 0 && dy != 0)
    ensures g.kind.Right? || g.kind.Left? ==> (Pull(pow, g, dx, dy) == ZERO <==> dy == 0 && dx != 0)
  {
    if dx != 0 || dy != 0 {
      SumPositive(dx, dy);
      var s := pow(Square(dx) + Square(dy));
      NoneVanishes(g.force, Abs(dx) as real, s);
      NoneVanishes(g.force, Abs(dy) as real, s);
    }
  }

  lemma SumPositive(dx: int, dy: int)
    requires dx != 0 || dy != 0
    ensures Square(dx) + Square(dy) > 0
  {
    assert dx != 0 ==> dx * dx > 0;
    assert dy != 0 ==> dy * dy > 0;
  }

  lemma NoneVanishes(f: real, a: real, s: real)
    requires f != 0.0 && s > 0.0 && a >= 0.0
    ensures Times(f, Times(a, s)) == 0.0 <==> a == 0.0
  {
    if a > 0.0 {
      assert a * s > 0.0;
      Nonzero(f, a * s);
    }
  }

  lemma Nonzero(f: real, b: real)
    requires f != 0.0 && b > 0.0
    ensures f * b != 0.0
  {
  }

  /** Which places, along one axis of a map of n blocks, a source at place p reaches. */
  function First(p: int, n: int, wrap: bool): int {
    var least := if wrap then (if GRAV_RANGE < n then -GRAV_RANGE else -n) else 0;
    if p - GRAV_RANGE < least then least else p - GRAV_RANGE
  }

  function Last(p: int, n: int, wrap: bool): int {
    var most := n - 1 + if wrap then (if GRAV_RANGE < n then GRAV_RANGE else n) else 0;
    if p + GRAV_RANGE > most then most else p + GRAV_RANGE
  }

  /** A source reaches up to ten blocks either way, on a map that wraps around also over its
      ends, but not further over an end than the map is long. */
  lemma ReachIs(p: int, n: int, wrap: bool, x: int)
    requires 0 <= p < n
    ensures First(p, n, wrap) <= x <= Last(p, n, wrap) <==>
            && -10 <= x - p <= 10
            && (0 <= x < n || (wrap && -n <= x < 2 * n))
  {
  }

  /** Attracting and repelling sources act along the line to the source, and turning ones across it. */
  lemma PullLines(pow: nat -> real, g: Grav, dx: int, dy: int)
    ensures var v := Pull(pow, g, dx, dy);
            && (g.kind.Pos? || g.kind.Neg? ==> v.x * dy as real == v.y * dx as real)
            && (g.kind.Cwise? || g.kind.Acwise? ==> v.x * dx as real + v.y * dy as real == 0.0)
  {
    var s := if dx == 0 && dy == 0 then 0.0 else pow(Square(dx) + Square(dy));
    Crosswise(g.force, dx as real, dy as real, s);
  }

  lemma Crosswise(f: real, x: real, y: real, s: real)
    ensures Times(f, Times(x, s)) * y == Times(f, Times(y, s)) * x
    ensures -Times(f, Times(y, s)) * x + Times(f, Times(x, s)) * y == 0.0
  {
    var p := x * s;
    var q := y * s;
    assert p * y == q * x;
    assert (f * p) * y == f * (p * y) && (f * q) * x == f * (q * x);
  }

  /** Which way each kind acts with a positive force on a place below and to the left of it. */
  lemma PullDirections(pow: nat -> real, g: Grav, dx: int, dy: int)
    ensures dx > 0 && dy > 0 && g.force > 0.0 && (forall n: nat :: pow(n) > 0.0) ==>
              var v := Pull(pow, g, dx, dy);
              && (g.kind.Pos? || g.kind.Neg? ==> v.x > 0.0 && v.y > 0.0)
              && (g.kind.Cwise? || g.kind.Acwise? ==> v.x < 0.0 && v.y > 0.0)
              && (g.kind.Up? || g.kind.Down? ==> v.x == 0.0 && v.y > 0.0)
              && (g.kind.Right? || g.kind.Left? ==> v.x > 0.0 && v.y == 0.0)
  {
    if dx > 0 && dy > 0 && g.force > 0.0 && (forall n: nat :: pow(n) > 0.0) {
      AllPositive(g.force, dx as real, pow(Square(dx) + Square(dy)));
      AllPositive(g.force, dy as real, pow(Square(dx) + Square(dy)));
      hide Times;
    }
  }

  lemma AllPositive(f: real, a: real, s: real)
    requires f > 0.0 && a > 0.0 && s > 0.0
    ensures Times(f, Times(a, s)) > 0.0
  {
    assert a * s > 0.0;
  }

  datatype Plane = Plane(w: nat, h: nat, wrap: bool) {
    predicate Valid() {
      w > 0 && h > 0
    }

    predicate Has(g: Grav) {
      0 <= g.x < w && 0 <= g.y < h
    }

    /** The sum over the places above y, in column x, that wrap around to row cy. */
    function InColumn(pow: nat -> real, g: Grav, x: int, cy: int, y: int): Vector
      requires Valid()
      decreases y - First(g.y, h, wrap)
    {
      if y <= First(g.y, h, wrap) then ZERO
      else
        InColumn(pow, g, x, cy, y - 1).Plus(if (y - 1) % h == cy then Pull(pow, g, g.x - x, g.y - (y - 1)) else ZERO)
    }

    /** The sum over the columns left of x that wrap around to column cx. */
    function InColumns(pow: nat -> real, g: Grav, cx: int, cy: int, x: int): Vector
      requires Valid()
      decreases x - First(g.x, w, wrap)
    {
      if x <= First(g.x, w, wrap) then ZERO
      else
        InColumns(pow, g, cx, cy, x - 1)
        .Plus(if (x - 1) % w == cx then InColumn(pow, g, x - 1, cy, Last(g.y, h, wrap) + 1) else ZERO)
    }

    function OfSource(pow: nat -> real, g: Grav, cx: int, cy: int): Vector
      requires Valid()
    {
      InColumns(pow, g, cx, cy, Last(g.x, w, wrap) + 1)
    }

    function OfSources(pow: nat -> real, gravs: seq<Grav>, cx: int, cy: int): Vector
      requires Valid()
    {
      if gravs == [] then ZERO
      else OfSources(pow, gravs[..|gravs| - 1], cx, cy).Plus(OfSource(pow, gravs[|gravs| - 1], cx, cy))
    }
  }

  lemma Assoc(a: Vector, b: Vector, c: Vector)
    ensures a.Plus(b).Plus(c) == a.Plus(b.Plus(c)) && a.Plus(ZERO) == a
  {
  }

  function Entry(x: int, y: int, strength: real): Vector {
    Vector(Times(x as real, strength), Times(y as real, strength))
  }

  ghost predicate TableOf(tab: array2<Vector>, pow: nat -> real)
    reads tab
  {
    && tab.Length0 == GRAV_RANGE + 1 && tab.Length1 == GRAV_RANGE + 1
    && forall x, y | 0 <= x <= GRAV_RANGE && 0 <= y <= GRAV_RANGE ::
         tab[x, y] == if x == 0 && y == 0 then ZERO
                      else Entry(x, y, pow(Square(x) + Square(y)))
  }

  method ComputeGravTab(tab: array2<Vector>, pow: nat -> real)
    requires tab.Length0 == GRAV_RANGE + 1 && tab.Length1 == GRAV_RANGE + 1
    modifies tab
    ensures TableOf(tab, pow)
  {
    hide Square, Entry;
    tab[0, 0] := ZERO;
    for x := 0 to GRAV_RANGE + 1
      invariant x > 0 ==> tab[0, 0] == ZERO
      invariant tab[0, 0] == ZERO
      invariant forall i, j | 0 <= i < x && 0 <= j <= GRAV_RANGE && (i != 0 || j != 0) ::
          tab[i, j] == Entry(i, j, pow(Square(i) + Square(j)))
    {
      for y := (if x == 0 then 1 else 0) to GRAV_RANGE + 1
        invariant tab[0, 0] == ZERO
        invariant forall i, j | 0 <= i < x && 0 <= j <= GRAV_RANGE && (i != 0 || j != 0) ::
            tab[i, j] == Entry(i, j, pow(Square(i) + Square(j)))
        invariant forall j | 0 <= j < y && (x != 0 || j != 0) ::
            tab[x, j] == Entry(x, j, pow(Square(x) + Square(j)))
      {
        var strength := pow(Square(x) + Square(y));
        tab[x, y] := Entry(x, y, strength);
      }
    }
  }

  lemma SquareOfAbs(x: int)
    ensures Square(Abs(x)) == Square(x)
  {
  }

  function Signed(force: real, d: int): real {
    if d < 0 then -force else force
  }

  lemma SignedEntry(force: real, d: int, s: real)
    ensures Times(Signed(force, d), Times(Abs(d) as real, s)) == Times(force, Times(d as real, s))
  {
    if d < 0 {
      assert Abs(d) as real == -(d as real);
      TurnsSign(force, d as real, s);
    }
  }

  lemma TurnsSign(f: real, a: real, s: real)
    ensures Times(-f, Times(-a, s)) == Times(f, Times(a, s))
  {
    var p := a * s;
    assert (-a) * s == -p;
    assert (-f) * (-p) == f * p;
  }

  /** One step of the inner loop, away from the source, with an entry of the table. */
  function Step(g: Grav, fx: real, fy: real, v: Vector, was: Vector): Vector {
    match g.kind
    case Cwise | Acwise => Vector(was.x - Times(fy, v.y), was.y + Times(fx, v.x))
    case Up | Down => Vector(was.x, was.y + Times(g.force, v.x))
    case Right | Left => Vector(was.x + Times(g.force, v.y), was.y)
    case Pos | Neg => Vector(was.x + Times(fx, v.x), was.y + Times(fy, v.y))
  }

  lemma StepPulls(pow: nat -> real, g: Grav, dx: int, dy: int, was: Vector)
    requires dx != 0 || dy != 0
    ensures Step(g, Signed(g.force, dx), Signed(g.force, dy),
                 Entry(Abs(dx), Abs(dy), pow(Square(dx) + Square(dy))), was)
            == was.Plus(Pull(pow, g, dx, dy))
  {
    hide Signed, Abs, Square, Times;
    var s := pow(Square(dx) + Square(dy));
    SignedEntry(g.force, dx, s);
    SignedEntry(g.force, dy, s);
  }

  class World {
    const plane: Plane
    const gravity: array2<Vector>

    ghost predicate Valid() {
      plane.Valid() && gravity.Length0 == plane.w && gravity.Length1 == plane.h
    }

    constructor (plane: Plane, gravity: array2<Vector>)
      requires plane.Valid() && gravity.Length0 == plane.w && gravity.Length1 == plane.h
      ensures Valid() && this.plane == plane && this.gravity == gravity
    {
      this.plane := plane;
      this.gravity := gravity;
    }

    method AddOne(g: Grav, tab: array2<Vector>, pow: nat -> real, mx: nat, my: nat, dx: int, dy: int, fx: real,
                  ax: nat, fy0: real)
      returns (fy: real)
      requires Valid() && TableOf(tab, pow) && tab != gravity && mx < plane.w && my < plane.h
      requires ax == Abs(dx) <= GRAV_RANGE && fx == Signed(g.force, dx)
      requires Abs(dy) <= GRAV_RANGE && fy0 == Signed(g.force, dy + 1)
      modifies gravity
      ensures fy == Signed(g.force, dy)
      ensures forall i, j | 0 <= i < plane.w && 0 <= j < plane.h ::
                gravity[i, j] == if i == mx && j == my then old(gravity[i, j]).Plus(Pull(pow, g, dx, dy))
                                 else old(gravity[i, j])
    {
      hide Square, Signed, Times, Entry;
      fy := fy0;
      SignsNext(g.force, dy);
      var cell := gravity[mx, my];
      if dx != 0 || dy != 0 {
        var ay;
        if dy < 0 {
          fy := -g.force;
          ay := -dy;
        } else {
          ay := dy;
        }
        var v := tab[ax, ay];
        SquareOfAbs(dx);
        SquareOfAbs(dy);
        StepPulls(pow, g, dx, dy, cell);
        gravity[mx, my] := Step(g, fx, fy, v, cell);
      } else {
        PullAtSource(pow, g);
        match g.kind
        case Up | Down => gravity[mx, my] := Vector(cell.x, cell.y + g.force);
        case Right | Left => gravity[mx, my] := Vector(cell.x + g.force, cell.y);
        case _ =>
      }
    }

    /** Adds to column mx what the source pulls at the places of column xi. */
    method AddColumn(g: Grav, tab: array2<Vector>, pow: nat -> real, xi: int, mx: nat, dx: int, fx: real, ax: nat)
      requires Valid() && plane.Has(g) && TableOf(tab, pow) && tab != gravity && mx < plane.w
      requires dx == g.x - xi && ax == Abs(dx) <= GRAV_RANGE && fx == Signed(g.force, dx)
      modifies gravity
      ensures forall i, j | 0 <= i < plane.w && 0 <= j < plane.h ::
                gravity[i, j] == if i != mx then old(gravity[i, j])
                                 else old(gravity[i, j])
                                      .Plus(plane.InColumn(pow, g, xi, j, Last(g.y, plane.h, plane.wrap) + 1))
    {
      hide Pull, Signed, Vector.Plus;
      var first, last := First(g.y, plane.h, plane.wrap), Last(g.y, plane.h, plane.wrap);
      Reaches(g.y, plane.h, plane.wrap);
      var my := if first < 0 then first + plane.h else first;
      WrapsInto(first, plane.h);
      var dy := g.y - first;
      var fy := g.force;
      SignsNext(g.force, dy);
      var yi := first;
      NothingYet(pow, g, plane, xi);
      while yi <= last
        invariant first <= yi <= last + 1 && dy == g.y - yi && my == yi % plane.h && fy == Signed(g.force, dy + 1)
        invariant forall i, j | 0 <= i < plane.w && 0 <= j < plane.h ::
            gravity[i, j] == if i != mx then old(gravity[i, j])
                             else old(gravity[i, j]).Plus(plane.InColumn(pow, g, xi, j, yi))
      {
        fy := AddOne(g, tab, pow, mx, my, dx, dy, fx, ax, fy);
        forall j | 0 <= j < plane.h
          ensures old(gravity[mx, j]).Plus(plane.InColumn(pow, g, xi, j, yi + 1))
               == old(gravity[mx, j]).Plus(plane.InColumn(pow, g, xi, j, yi))
                  .Plus(if j == my then Pull(pow, g, dx, dy) else ZERO)
        {
          Assoc(old(gravity[mx, j]), plane.InColumn(pow, g, xi, j, yi), if j == my then Pull(pow, g, dx, dy) else ZERO);
        }
        PlusNothing();
        NextWraps(yi, plane.h);
        my := my + 1;
        if my >= plane.h {
          my := 0;
        }
        yi := yi + 1;
        dy := dy - 1;
      }
    }

    /** Adds what a source pulls. */
    method AddSource(g: Grav, tab: array2<Vector>, pow: nat -> real)
      requires Valid() && plane.Has(g) && TableOf(tab, pow) && tab != gravity
      modifies gravity
      ensures forall i, j | 0 <= i < plane.w && 0 <= j < plane.h ::
                gravity[i, j] == old(gravity[i, j]).Plus(plane.OfSource(pow, g, i, j))
    {
      hide Pull, Signed, Vector.Plus, Plane.InColumn, First, Last;
      var first, last := First(g.x, plane.w, plane.wrap), Last(g.x, plane.w, plane.wrap);
      Reaches(g.x, plane.w, plane.wrap);
      var mx := if first < 0 then first + plane.w else first;
      WrapsInto(first, plane.w);
      var dx := g.x - first;
      var fx := g.force;
      SignsNext(g.force, dx);
      var xi := first;
      NoColumnYet(pow, g, plane);
      while xi <= last
        invariant first <= xi <= last + 1 && dx == g.x - xi && mx == xi % plane.w && fx == Signed(g.force, dx + 1)
        invariant forall i, j | 0 <= i < plane.w && 0 <= j < plane.h ::
            gravity[i, j] == old(gravity[i, j]).Plus(plane.InColumns(pow, g, i, j, xi))
      {
        var ax;
        SignsNext(g.force, dx);
        if dx < 0 {
          fx := -g.force;
          ax := -dx;
        } else {
          ax := dx;
        }
        AddColumn(g, tab, pow, xi, mx, dx, fx, ax);
        forall i, j | 0 <= i < plane.w && 0 <= j < plane.h
          ensures old(gravity[i, j]).Plus(plane.InColumns(pow, g, i, j, xi + 1))
               == if i == mx then old(gravity[i, j]).Plus(plane.InColumns(pow, g, i, j, xi))
                                  .Plus(plane.InColumn(pow, g, xi, j, Last(g.y, plane.h, plane.wrap) + 1))
                  else old(gravity[i, j]).Plus(plane.InColumns(pow, g, i, j, xi))
        {
          NextColumn(pow, g, plane, i, j, xi, old(gravity[i, j]));
        }
        NextWraps(xi, plane.w);
        mx := mx + 1;
        if mx >= plane.w {
          mx := 0;
        }
        xi := xi + 1;
        dx := dx - 1;
      }
    }

    /** Adds what all sources pull. */
    method ComputeLocalGravity(gravs: seq<Grav>, pow: nat -> real)
      requires Valid() && forall g <- gravs :: plane.Has(g)
      modifies gravity
      ensures forall i, j | 0 <= i < plane.w && 0 <= j < plane.h ::
                gravity[i, j] == old(gravity[i, j]).Plus(plane.OfSources(pow, gravs, i, j))
    {
      hide Vector.Plus, Plane.OfSource, TableOf;
      var tab := new Vector[GRAV_RANGE + 1, GRAV_RANGE + 1];
      ComputeGravTab(tab, pow);
      PlusNothing();
      var k := 0;
      while k < |gravs|
        invariant 0 <= k <= |gravs| && TableOf(tab, pow)
        invariant forall i, j | 0 <= i < plane.w && 0 <= j < plane.h ::
            gravity[i, j] == old(gravity[i, j]).Plus(plane.OfSources(pow, gravs[..k], i, j))
      {
        AddSource(gravs[k], tab, pow);
        assert gravs[..k + 1][..k] == gravs[..k];
        forall i, j | 0 <= i < plane.w && 0 <= j < plane.h
          ensures old(gravity[i, j]).Plus(plane.OfSources(pow, gravs[..k + 1], i, j))
               == old(gravity[i, j]).Plus(plane.OfSources(pow, gravs[..k], i, j))
                  .Plus(plane.OfSource(pow, gravs[k], i, j))
        {
          Assoc(old(gravity[i, j]), plane.OfSources(pow, gravs[..k], i, j), plane.OfSource(pow, gravs[k], i, j));
        }
        k := k + 1;
      }
      assert gravs[..k] == gravs;
    }
  }

  lemma NoColumnYet(pow: nat -> real, g: Grav, plane: Plane)
    requires plane.Valid()
    ensures forall i, j :: plane.InColumns(pow, g, i, j, First(g.x, plane.w, plane.wrap)) == ZERO
    ensures forall v: Vector :: v.Plus(ZERO) == v
  {
  }

  lemma NextColumn(pow: nat -> real, g: Grav, plane: Plane, i: int, j: int, x: int, was: Vector)
    requires plane.Valid() && x >= First(g.x, plane.w, plane.wrap)
    ensures was.Plus(plane.InColumns(pow, g, i, j, x + 1))
         == if i == x % plane.w then was.Plus(plane.InColumns(pow, g, i, j, x))
                                     .Plus(plane.InColumn(pow, g, x, j, Last(g.y, plane.h, plane.wrap) + 1))
            else was.Plus(plane.InColumns(pow, g, i, j, x))
  {
    hide Plane.InColumn, Vector.Plus, First, Last, Pull;
    Assoc(was, plane.InColumns(pow, g, i, j, x), plane.InColumn(pow, g, x, j, Last(g.y, plane.h, plane.wrap) + 1));
    PlusNothing();
  }

  lemma PullAtSource(pow: nat -> real, g: Grav)
    ensures Pull(pow, g, 0, 0) == match g.kind
                                  case Up | Down => Vector(0.0, g.force)
                                  case Right | Left => Vector(g.force, 0.0)
                                  case _ => ZERO
  {
  }

  lemma PlusNothing()
    ensures forall v: Vector :: v.Plus(ZERO) == v
  {
  }

  lemma NothingYet(pow: nat -> real, g: Grav, plane: Plane, x: int)
    requires plane.Valid()
    ensures forall j :: plane.InColumn(pow, g, x, j, First(g.y, plane.h, plane.wrap)) == ZERO
    ensures forall v: Vector :: v.Plus(ZERO) == v
  {
  }

  /** A source reaches as far as the table, and not more than once around the map. */
  lemma Reaches(p: int, n: int, wrap: bool)
    requires 0 <= p < n
    ensures -n <= First(p, n, wrap) <= p <= Last(p, n, wrap) < 2 * n
    ensures p - First(p, n, wrap) <= GRAV_RANGE && Last(p, n, wrap) - p <= GRAV_RANGE
  {
  }

  lemma WrapsInto(x: int, n: int)
    requires -n <= x < n
    ensures x % n == if x < 0 then x + n else x
  {
  }

  lemma SignsNext(force: real, d: int)
    ensures d < 0 ==> Signed(force, d) == -force
    ensures d >= 0 ==> Signed(force, d) == force && Signed(force, d + 1) == force
  {
  }
}
