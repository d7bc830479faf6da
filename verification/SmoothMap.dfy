/** Smooth_map of contrib/wildmap.c: edges and corners are rounded until nothing is
    left to round. */
module SmoothMap {
  import opened RingGraph
  import opened ConnectMap

  datatype Block = Space | Solid | DownRight | DownLeft | UpLeft | UpRight

  /** The nine cells that the sliding pointers look at; w4 is the middle one. */
  datatype Nine = Nine(w0: Block, w1: Block, w2: Block, w3: Block, w4: Block, w5: Block, w6: Block, w7: Block,
                       w8: Block)
  {
    /** What the middle cell becomes. */
    function Smoothed(): Block {
      if w4 != Space && w4 != Solid then w4
      else if w0.Solid? && w1.Solid? && w3.Solid? && w5.Space? && w7.Space? && w8.Space? then DownRight
      else if w1.Solid? && w2.Solid? && w3.Space? && w5.Solid? && w6.Space? && w7.Space? then DownLeft
      else if w0.Space? && w1.Space? && w3.Space? && w5.Solid? && w7.Solid? && w8.Solid? then UpLeft
      else if w1.Space? && w2.Space? && w3.Solid? && w5.Space? && w6.Solid? && w7.Solid? then UpRight
      else if w4.Space? then Space
      else if w5.Space? && w8.Space? && w7.Space? && w6.Space? && w3.Space? then
        if !w2.Solid? && !w0.Solid? then Space else Solid
      else if w7.Space? && w6.Space? && w3.Space? && w0.Space? && w1.Space? then
        if !w8.Solid? && !w2.Solid? then Space else Solid
      else if w3.Space? && w0.Space? && w1.Space? && w2.Space? && w5.Space? then
        if !w6.Solid? && !w8.Solid? then Space else Solid
      else if w1.Space? && w2.Space? && w5.Space? && w8.Space? && w7.Space? then
        if !w0.Solid? && !w6.Solid? then Space else Solid
      else Solid
    }
  }

  /** The left column of the nine is one cell too far to the left for the first cell
      of a pass. */
  function LeftOf(r: Ring, i: int, k: int): (j: int)
    requires Roomy(r) && r.Has(i) && 0 <= k < 3 * r.linewidth
    ensures r.Has(j)
  {
    if i == 0 then Back(r, i, k + 1) else Back(r, i, k)
  }

  function NineAt(r: Ring, d: seq<Block>, i: int): Nine
    requires Roomy(r) && r.Has(i) && |d| == r.datasize
  {
    var lw := r.linewidth;
    Nine(d[i], d[Back(r, i, 1)], d[Back(r, i, 2)],
         d[Back(r, i, lw)], d[Back(r, i, lw + 1)], d[LeftOf(r, i, lw + 2)],
         d[Back(r, i, 2 * lw)], d[Back(r, i, 2 * lw + 1)], d[LeftOf(r, i, 2 * lw + 2)])
  }

  /** Open cells do not become solid, and rounded ones stay. */
  ghost predicate Rounds(d: seq<Block>, f: seq<Block>) {
    && |d| == |f|
    && (forall j | 0 <= j < |d| && f[j].Solid? :: d[j].Solid?)
    && (forall j | 0 <= j < |d| && d[j] != Space && d[j] != Solid :: f[j] == d[j])
  }

  ghost function Square(d: seq<Block>): set<int> {
    set j | 0 <= j < |d| && (d[j] == Space || d[j] == Solid)
  }

  ghost function Hard(d: seq<Block>): set<int> {
    set j | 0 <= j < |d| && d[j] == Solid
  }

  /** What changes has fewer square cells, or as many and fewer solid ones. */
  ghost predicate Smaller(f: seq<Block>, d: seq<Block>) {
    |Square(f)| < |Square(d)| || (|Square(f)| == |Square(d)| && |Hard(f)| < |Hard(d)|)
  }

  lemma RoundsSmaller(d: seq<Block>, f: seq<Block>)
    requires Rounds(d, f) && d != f
    ensures Smaller(f, d)
  {
    var a, b := Square(f), Square(d);
    assert b == a + (b - a);
    var s, t := Hard(f), Hard(d);
    assert t == s + (t - s);
    var j :| 0 <= j < |d| && d[j] != f[j];
    if f[j] != Space {
      assert j in b - a;
    } else {
      assert j in t - s;
    }
  }

  lemma RoundsOn(d: seq<Block>, e: seq<Block>, f: seq<Block>)
    requires Rounds(d, e) && Rounds(e, f)
    ensures Rounds(d, f) && (d == f <==> d == e && e == f)
  {
    if d == f {
      assert forall j | 0 <= j < |d| :: e[j] == d[j];
    }
  }

  lemma RoundsOne(r: Ring, d: seq<Block>, i: int)
    requires Roomy(r) && r.Has(i) && |d| == r.datasize
    ensures Rounds(d, d[Back(r, i, r.linewidth + 1) := NineAt(r, d, i).Smoothed()])
  {
    hide Back, LeftOf;
  }

  /** Nothing is left to round at the cells before upto. */
  ghost predicate Smooth(r: Ring, d: seq<Block>, upto: int) {
    && Roomy(r) && |d| == r.datasize
    && forall i | 0 <= i < upto && r.Has(i) :: NineAt(r, d, i).Smoothed() == d[Back(r, i, r.linewidth + 1)]
  }

  datatype Cursor = Cursor(p0: int, p1: int, p2: int, p3: int, p4: int, p5: int, p6: int, p7: int, p8: int)

  predicate Placed(r: Ring, p: Cursor) {
    && Roomy(r) && r.Has(p.p0)
    && p.p1 == Back(r, p.p0, 1) && p.p2 == Back(r, p.p0, 2)
    && p.p3 == Back(r, p.p0, r.linewidth) && p.p4 == Back(r, p.p0, r.linewidth + 1)
    && p.p5 == LeftOf(r, p.p0, r.linewidth + 2)
    && p.p6 == Back(r, p.p0, 2 * r.linewidth) && p.p7 == Back(r, p.p0, 2 * r.linewidth + 1)
    && p.p8 == LeftOf(r, p.p0, 2 * r.linewidth + 2)
  }

  lemma PlacedSlides(r: Ring, p: Cursor)
    requires Placed(r, p) && r.Has(p.p0 + 1)
    ensures Placed(r, Cursor(p.p0 + 1, p.p0, p.p1, Slide(r, p.p3), p.p3, p.p4, Slide(r, p.p6), p.p6, p.p7))
  {
    hide Back;
    BackZero(r, p.p0);
    BackSlides(r, p.p0, 0);
    BackSlides(r, p.p0, 1);
    BackSlides(r, p.p0, r.linewidth);
    BackSlides(r, p.p0, r.linewidth + 1);
    BackSlides(r, p.p0, 2 * r.linewidth);
    BackSlides(r, p.p0, 2 * r.linewidth + 1);
  }

  /** One look at nine cells. */
  method SmoothAt(r: Ring, data: array<Block>, p: Cursor) returns (n: int)
    requires data.Length == r.datasize && Placed(r, p)
    modifies data
    ensures data[..] == old(data[..])[p.p4 := NineAt(r, old(data[..]), p.p0).Smoothed()]
    ensures n == if data[..] == old(data[..]) then 0 else 1
  {
    hide Back, LeftOf;
    var w := Nine(data[p.p0], data[p.p1], data[p.p2], data[p.p3], data[p.p4], data[p.p5],
                  data[p.p6], data[p.p7], data[p.p8]);
    n := 0;
    var now := w.w4;
    if w.w4 == Space || w.w4 == Solid {
      if w.w0.Solid? && w.w1.Solid? && w.w3.Solid? && w.w5.Space? && w.w7.Space? && w.w8.Space? {
        now := DownRight;
        n := n + 1;
      } else if w.w1.Solid? && w.w2.Solid? && w.w3.Space? && w.w5.Solid? && w.w6.Space? && w.w7.Space? {
        now := DownLeft;
        n := n + 1;
      } else if w.w0.Space? && w.w1.Space? && w.w3.Space? && w.w5.Solid? && w.w7.Solid? && w.w8.Solid? {
        now := UpLeft;
        n := n + 1;
      } else if w.w1.Space? && w.w2.Space? && w.w3.Solid? && w.w5.Space? && w.w6.Solid? && w.w7.Solid? {
        now := UpRight;
        n := n + 1;
      } else if w.w4.Solid? {
        if w.w5.Space? && w.w8.Space? && w.w7.Space? && w.w6.Space? && w.w3.Space? {
          if !w.w2.Solid? && !w.w0.Solid? {
            now := Space;
            n := n + 1;
          }
        } else if w.w7.Space? && w.w6.Space? && w.w3.Space? && w.w0.Space? && w.w1.Space? {
          if !w.w8.Solid? && !w.w2.Solid? {
            now := Space;
            n := n + 1;
          }
        } else if w.w3.Space? && w.w0.Space? && w.w1.Space? && w.w2.Space? && w.w5.Space? {
          if !w.w6.Solid? && !w.w8.Solid? {
            now := Space;
            n := n + 1;
          }
        } else if w.w1.Space? && w.w2.Space? && w.w5.Space? && w.w8.Space? && w.w7.Space? {
          if !w.w0.Solid? && !w.w6.Solid? {
            now := Space;
            n := n + 1;
          }
        }
      }
    }
    ghost var d := data[..];
    assert w == NineAt(r, d, p.p0) && now == w.Smoothed();
    data[p.p4] := now;
    assert data[..] == d[p.p4 := now];
    assert n == 0 <==> now == d[p.p4];
    assert data[p.p4] == now;
  }

  /** One pass over the map. */
  method SmoothPass(r: Ring, data: array<Block>) returns (n: int)
    requires Roomy(r) && data.Length == r.datasize
    modifies data
    ensures n >= 0 && Rounds(old(data[..]), data[..])
    ensures n == 0 <==> data[..] == old(data[..])
    ensures n == 0 ==> Smooth(r, data[..], r.datasize)
  {
    hide Rounds, NineAt, Nine.Smoothed, Back, LeftOf, Smooth, Placed;
    NoneYet(r, data[..]);
    n := 0;
    var p0, p1, p2 := 0, r.datasize - 1, r.datasize - 2;
    var p3 := r.datasize - r.linewidth;
    var p4 := p3 - 1;
    var p5 := p4 - 2;
    var p6 := p3 - r.linewidth;
    var p7 := p6 - 1;
    var p8 := p7 - 2;
    PlacedAtStart(r);
    RoundsSelf(data[..]);
    while p0 < r.datasize
      invariant 0 <= p0 <= r.datasize && n >= 0
      invariant p0 < r.datasize ==> Placed(r, Cursor(p0, p1, p2, p3, p4, p5, p6, p7, p8))
      invariant Rounds(old(data[..]), data[..]) && (n == 0 <==> data[..] == old(data[..]))
      invariant n == 0 ==> Smooth(r, data[..], p0)
    {
      ghost var d := data[..];
      var p := Cursor(p0, p1, p2, p3, p4, p5, p6, p7, p8);
      RoundsAt(r, d, p);
      var m := SmoothAt(r, data, p);
      RoundsOn(old(data[..]), d, data[..]);
      if data[..] == d && n == 0 {
        SmoothNext(r, d, p);
      }
      n := n + m;
      if p0 + 1 < r.datasize {
        PlacedSlides(r, p);
      }
      p2 := p1;
      p1 := p0;
      p0 := p0 + 1;
      p5 := p4;
      p4 := p3;
      p3 := p3 + 1;
      if p3 >= r.datasize {
        p3 := 0;
      }
      p8 := p7;
      p7 := p6;
      p6 := p6 + 1;
      if p6 >= r.datasize {
        p6 := 0;
      }
    }
  }

  lemma RoundsAt(r: Ring, d: seq<Block>, p: Cursor)
    requires Placed(r, p) && |d| == r.datasize
    ensures r.Has(p.p4) && Rounds(d, d[p.p4 := NineAt(r, d, p.p0).Smoothed()])
  {
    RoundsOne(r, d, p.p0);
  }

  lemma SmoothNext(r: Ring, d: seq<Block>, p: Cursor)
    requires Placed(r, p) && Smooth(r, d, p.p0) && d == d[p.p4 := NineAt(r, d, p.p0).Smoothed()]
    ensures Smooth(r, d, p.p0 + 1)
  {
    hide NineAt, Nine.Smoothed, Back, LeftOf;
    assert d[p.p4] == NineAt(r, d, p.p0).Smoothed();
  }

  lemma NoneYet(r: Ring, d: seq<Block>)
    requires Roomy(r) && |d| == r.datasize
    ensures Smooth(r, d, 0)
  {
  }

  lemma RoundsSelf(d: seq<Block>)
    ensures Rounds(d, d)
  {
  }

  lemma PlacedAtStart(r: Ring)
    requires Roomy(r)
    ensures var p3 := r.datasize - r.linewidth;
            var p6 := p3 - r.linewidth;
            Placed(r, Cursor(0, r.datasize - 1, r.datasize - 2, p3, p3 - 1, p3 - 3, p6, p6 - 1, p6 - 3))
  {
  }

  // ---------------------------------------------- what a smoothed map is like

  /** Cells a, b and c are wall and cells x, y and z are open. */
  ghost predicate Facing(r: Ring, d: seq<Block>, a: int, b: int, c: int, x: int, y: int, z: int)
    requires |d| == r.datasize && r.Has(a) && r.Has(b) && r.Has(c) && r.Has(x) && r.Has(y) && r.Has(z)
  {
    d[a].Solid? && d[b].Solid? && d[c].Solid? && d[x].Space? && d[y].Space? && d[z].Space?
  }

  /** A square cell lies in the corner between two walls, open on the other sides. */
  ghost predicate Sharp(r: Ring, d: seq<Block>, k: int)
    requires r.Valid() && |d| == r.datasize && r.Has(k)
  {
    var left, right, up, down := r.Left(k), r.Right(k), r.Up(k), r.Down(k);
    && (d[k].Space? || d[k].Solid?)
    && (|| Facing(r, d, r.Right(down), down, right, left, up, r.Left(up))
        || Facing(r, d, down, r.Left(down), left, right, r.Right(up), up)
        || Facing(r, d, left, up, r.Left(up), r.Right(down), down, right)
        || Facing(r, d, right, r.Right(up), up, down, r.Left(down), left))
  }

  /** A solid cell has no wall around it, except perhaps on one of its four sides. */
  ghost predicate JutsOut(r: Ring, d: seq<Block>, k: int)
    requires r.Valid() && |d| == r.datasize && r.Has(k)
  {
    var left, right, up, down := d[r.Left(k)].Space?, d[r.Right(k)].Space?, d[r.Up(k)].Space?, d[r.Down(k)].Space?;
    && d[k].Solid?
    && d[r.Left(r.Up(k))].Space? && d[r.Right(r.Up(k))].Space?
    && d[r.Left(r.Down(k))].Space? && d[r.Right(r.Down(k))].Space?
    && ((left && right && up) || (left && right && down) || (left && up && down) || (right && up && down))
  }

  /** The cells of the window are the neighbours of its middle one. */
  lemma MiddleOf(r: Ring, i: int)
    requires Roomy(r) && r.Has(i) && i > 0
    ensures var lw := r.linewidth;
            var k := Back(r, i, lw + 1);
            && r.Right(k) == Back(r, i, lw) && r.Left(k) == LeftOf(r, i, lw + 2)
            && r.Down(k) == Back(r, i, 1) && r.Up(k) == Back(r, i, 2 * lw + 1)
            && r.Right(r.Down(k)) == i && r.Left(r.Down(k)) == Back(r, i, 2)
            && r.Right(r.Up(k)) == Back(r, i, 2 * lw) && r.Left(r.Up(k)) == LeftOf(r, i, 2 * lw + 2)
  {
  }

  lemma Rounded(r: Ring, d: seq<Block>, i: int)
    requires Roomy(r) && |d| == r.datasize && r.Has(i) && i > 0
    requires NineAt(r, d, i).Smoothed() == d[Back(r, i, r.linewidth + 1)]
    ensures var k := Back(r, i, r.linewidth + 1); !Sharp(r, d, k) && !JutsOut(r, d, k)
  {
    MiddleOf(r, i);
    hide Back, LeftOf, Ring.Left, Ring.Right, Ring.Up, Ring.Down;
  }

  /** Every cell but one is the middle of a window that is placed right. */
  lemma MiddleFrom(r: Ring, k: int) returns (i: int)
    requires Roomy(r) && r.Has(k)
    ensures r.Has(i) && Back(r, i, r.linewidth + 1) == k
    ensures i == 0 <==> k == r.datasize - r.linewidth - 1
  {
    i := if k + r.linewidth + 1 < r.datasize then k + r.linewidth + 1 else k + r.linewidth + 1 - r.datasize;
  }

  lemma NothingSharp(r: Ring, d: seq<Block>, k: int)
    requires Smooth(r, d, r.datasize) && r.Has(k) && k != r.datasize - r.linewidth - 1
    ensures !Sharp(r, d, k) && !JutsOut(r, d, k)
  {
    hide NineAt, Nine.Smoothed, Back, Sharp, JutsOut;
    var i := MiddleFrom(r, k);
    Rounded(r, d, i);
  }

  /** Rounds edges and corners until there is nothing to round. */
  method SmoothMap(r: Ring, cells: array<RingGraph.Cell>, data: array<Block>)
    requires Roomy(r) && data.Length == r.datasize == cells.Length
    modifies data
    ensures Smooth(r, data[..], r.datasize)
    ensures forall j | 0 <= j < data.Length && data[j] == Solid :: cells[j] != 0
    ensures forall k | r.Has(k) && k != r.datasize - r.linewidth - 1 ::
              !Sharp(r, data[..], k) && !JutsOut(r, data[..], k)
  {
    hide Smooth, Sharp, JutsOut;
    var todo := r.datasize;
    while todo > 0
      invariant 0 <= todo <= r.datasize
      invariant forall j | todo <= j < r.datasize :: data[j] == if cells[j] != 0 then Solid else Space
    {
      todo := todo - 1;
      data[todo] := if cells[todo] != 0 then Solid else Space;
    }
    ghost var d0 := data[..];
    RoundsSelf(d0);
    var n := 1;
    while n > 0
      invariant n >= 0 && Rounds(d0, data[..]) && (n == 0 ==> Smooth(r, data[..], r.datasize))
      decreases |Square(data[..])|, |Hard(data[..])|, n
    {
      ghost var d := data[..];
      n := SmoothPass(r, data);
      RoundsOn(d0, d, data[..]);
      if n > 0 {
        RoundsSmaller(d, data[..]);
      }
    }
    forall k | r.Has(k) && k != r.datasize - r.linewidth - 1
      ensures !Sharp(r, data[..], k) && !JutsOut(r, data[..], k)
    {
      NothingSharp(r, data[..], k);
    }
  }
}
