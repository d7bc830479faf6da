/** Connect_map of contrib/wildmap.c: filling small gaps until none is left. */
module ConnectMap {
  import opened RingGraph
  import opened FloodSpec

  /** Which of the eleven cells that the sliding pointers look at are solid. */
  datatype Window = Window(w0: bool, w1: bool, w2: bool, w3: bool, w4: bool, w5: bool,
                           w6: bool, w7: bool, w8: bool, w9: bool, wa: bool)
  {
    /** A gap of one or two cells, or two solid or two open cells that touch at a corner only. */
    predicate Gap() {
      || (w0 && !w1 && (w2 || w3))
      || (w0 && !w4 && (w7 || wa))
      || (w0 && w5 && !w1 && !w4)
      || (!w0 && !w5 && w1 && w4)
    }

    /** The open middle cell of a group of nine that has to be filled. */
    predicate Middle() {
      && !w5
      && (|| ((w0 || (w1 && w4)) && w9)
          || (w6 && w8 && w0)
          || (w2 && (w7 || (w4 && w8)))
          || (w7 && w1 && w6)
          || (!w0 && !w1 && w2 && !w4 && w6 && w7 && w8 && w9)
          || (w0 && !w1 && !w2 && w4 && !w6 && w7 && w8 && w9)
          || (w0 && w1 && w2 && w4 && !w6 && w7 && !w8 && !w9)
          || (w0 && w1 && w2 && !w4 && w6 && !w7 && !w8 && w9)
          || (w0 && !w1 && !w2 && !w4 && !w6 && !w7 && w8 && !w9)
          || (!w0 && !w1 && w2 && !w4 && !w6 && !w7 && w8 && !w9)
          || (w0 && !w1 && !w2 && !w4 && w6 && !w7 && !w8 && !w9)
          || (!w0 && !w1 && !w2 && !w4 && w6 && w7 && !w8 && !w9)
          || (!w0 && w1 && !w2 && !w4 && !w6 && !w7 && !w8 && w9)
          || (!w0 && w1 && !w2 && !w4 && !w6 && w7 && !w8 && !w9)
          || (!w0 && !w1 && !w2 && w4 && !w6 && !w7 && !w8 && w9)
          || (!w0 && !w1 && w2 && w4 && !w6 && !w7 && !w8 && !w9))
    }

    predicate Fires() {
      Gap() || Middle()
    }
  }

  /** Rows long enough, and enough of them, for the eleven pointers to differ. */
  predicate Roomy(r: Ring) {
    r.Valid() && r.linewidth >= 4 && r.datasize > 3 * r.linewidth
  }

  /** The cell k places before cell i in ring order. */
  function Back(r: Ring, i: int, k: int): (j: int)
    requires Roomy(r) && r.Has(i) && 0 <= k <= 3 * r.linewidth
    ensures r.Has(j)
  {
    if i >= k then i - k else i - k + r.datasize
  }

  function WindowAt(r: Ring, d: seq<Cell>, i: int): Window
    requires Roomy(r) && r.Has(i) && |d| == r.datasize
  {
    var lw := r.linewidth;
    Window(d[i] != 0, d[Back(r, i, 1)] != 0, d[Back(r, i, 2)] != 0, d[Back(r, i, 3)] != 0,
           d[Back(r, i, lw)] != 0, d[Back(r, i, lw + 1)] != 0, d[Back(r, i, lw + 2)] != 0,
           d[Back(r, i, 2 * lw)] != 0, d[Back(r, i, 2 * lw + 1)] != 0, d[Back(r, i, 2 * lw + 2)] != 0,
           d[Back(r, i, 3 * lw)] != 0)
  }

  ghost function Solids(d: seq<Cell>): set<int> {
    set j | 0 <= j < |d| && d[j] != 0
  }

  /** The window's cells in terms of the set of solid cells. */
  ghost function WindowIn(r: Ring, s: set<int>, i: int): Window
    requires Roomy(r) && r.Has(i)
  {
    var lw := r.linewidth;
    Window(i in s, Back(r, i, 1) in s, Back(r, i, 2) in s, Back(r, i, 3) in s,
           Back(r, i, lw) in s, Back(r, i, lw + 1) in s, Back(r, i, lw + 2) in s,
           Back(r, i, 2 * lw) in s, Back(r, i, 2 * lw + 1) in s, Back(r, i, 2 * lw + 2) in s,
           Back(r, i, 3 * lw) in s)
  }

  /** The open cells between two solid ones that are at most two cells apart. */
  ghost function GapBetween(s: set<int>, p: int, near: int, mid: int, far: int): set<int> {
    if p !in s || near in s then {}
    else if mid in s then {near}
    else if far in s then {near, mid}
    else {}
  }

  ghost function RowGap(r: Ring, s: set<int>, i: int): set<int>
    requires Roomy(r) && r.Has(i)
  {
    GapBetween(s, i, Back(r, i, 1), Back(r, i, 2), Back(r, i, 3))
  }

  ghost function ColumnGap(r: Ring, s: set<int>, i: int): set<int>
    requires Roomy(r) && r.Has(i)
  {
    GapBetween(s, i, Back(r, i, r.linewidth), Back(r, i, 2 * r.linewidth), Back(r, i, 3 * r.linewidth))
  }

  /** The two open cells of four around a corner, if they touch there only and the solid ones too. */
  ghost function Touching(r: Ring, s: set<int>, i: int): set<int>
    requires Roomy(r) && r.Has(i)
  {
    var b, c, e := Back(r, i, 1), Back(r, i, r.linewidth), Back(r, i, r.linewidth + 1);
    if i in s && e in s && b !in s && c !in s then {b, c}
    else if i !in s && e !in s && b in s && c in s then {i, e}
    else {}
  }

  /** The cells that are filled to close gaps: where there are any in the row or the
      column, touching corners are left alone. */
  ghost function GapCells(r: Ring, s: set<int>, i: int): set<int>
    requires Roomy(r) && r.Has(i)
  {
    var gaps := RowGap(r, s, i) + ColumnGap(r, s, i);
    if gaps != {} then gaps else Touching(r, s, i)
  }

  ghost function MiddleCell(r: Ring, s: set<int>, i: int): set<int>
    requires Roomy(r) && r.Has(i)
  {
    if WindowIn(r, s, i).Middle() then {Back(r, i, r.linewidth + 1)} else {}
  }

  /** The solid cells after one look through the window at cell i. */
  ghost function Look(r: Ring, s: set<int>, i: int): set<int>
    requires Roomy(r) && r.Has(i)
  {
    var closed := s + GapCells(r, s, i);
    closed + MiddleCell(r, closed, i)
  }

  /** The solid cells after looks at the first i cells. */
  ghost function Looks(r: Ring, s: set<int>, i: nat): set<int>
    requires Roomy(r) && i <= r.datasize
  {
    if i == 0 then s else Look(r, Looks(r, s, i - 1), i - 1)
  }

  /** The solid cells after some passes. */
  ghost function Passes(r: Ring, s: set<int>, n: nat): set<int>
    requires Roomy(r)
  {
    if n == 0 then s else Looks(r, Passes(r, s, n - 1), r.datasize)
  }

  /** Solid cells keep their values; filled cells take values that were there before. */
  ghost predicate Fills(d: seq<Cell>, f: seq<Cell>) {
    && |d| == |f|
    && (forall j | 0 <= j < |d| && d[j] != 0 :: f[j] == d[j])
    && (forall j | 0 <= j < |d| && f[j] != 0 :: f[j] in d)
  }

  lemma FillShrinks(d: seq<Cell>, f: seq<Cell>)
    requires Fills(d, f)
    ensures |Holding(f, 0)| <= |Holding(d, 0)|
    ensures f != d ==> |Holding(f, 0)| < |Holding(d, 0)|
  {
    var a, b := Holding(f, 0), Holding(d, 0);
    assert b == a + (b - a);
    if f != d {
      var j :| 0 <= j < |d| && f[j] != d[j];
      assert j in b - a;
    }
  }

  lemma FillOne(d: seq<Cell>, i: int, k: int)
    requires 0 <= i < |d| && 0 <= k < |d| && d[i] == 0 && d[k] != 0
    ensures Fills(d, d[i := d[k]])
  {
  }

  lemma FillTwo(d: seq<Cell>, i: int, j: int, k: int)
    requires 0 <= i < |d| && 0 <= j < |d| && 0 <= k < |d| && d[i] == 0 && d[j] == 0 && d[k] != 0
    ensures Fills(d, d[i := d[k]][j := d[k]])
  {
  }

  /** The window's pointers, which slide over the map together. */
  datatype Pointers = Pointers(p0: int, p1: int, p2: int, p3: int, p4: int, p5: int,
                               p6: int, p7: int, p8: int, p9: int, pa: int)

  predicate Placed(r: Ring, p: Pointers) {
    && Roomy(r)
    && r.Has(p.p0)
    && p.p1 == Back(r, p.p0, 1)
    && p.p2 == Back(r, p.p0, 2)
    && p.p3 == Back(r, p.p0, 3)
    && p.p4 == Back(r, p.p0, r.linewidth)
    && p.p5 == Back(r, p.p0, r.linewidth + 1)
    && p.p6 == Back(r, p.p0, r.linewidth + 2)
    && p.p7 == Back(r, p.p0, 2 * r.linewidth)
    && p.p8 == Back(r, p.p0, 2 * r.linewidth + 1)
    && p.p9 == Back(r, p.p0, 2 * r.linewidth + 2)
    && p.pa == Back(r, p.p0, 3 * r.linewidth)
  }

  /** Fills a gap of one cell, or else of two, between solid cells: near is next
      to solid cell p, then comes mid, then far. */
  method CloseGap(data: array<Cell>, p: int, near: int, mid: int, far: int) returns (n: int)
    requires 0 <= p < data.Length && 0 <= near < data.Length && 0 <= mid < data.Length && 0 <= far < data.Length
    requires p != near && p != mid && near != mid && data[p] != 0
    modifies data
    ensures 0 <= n && Fills(old(data[..]), data[..])
    ensures Solids(data[..]) == Solids(old(data[..])) + GapBetween(Solids(old(data[..])), p, near, mid, far)
    ensures n == 0 <==> !(old(data[near]) == 0 && (old(data[mid]) != 0 || old(data[far]) != 0))
    ensures n == 0 <==> data[..] == old(data[..])
  {
    n := 0;
    ghost var d := data[..];
    if data[near] == 0 {
      if data[mid] != 0 {
        FillOne(d, near, p);
        data[near] := data[p];
        assert data[..] == d[near := d[p]];
        n := n + 1;
      } else if data[far] != 0 {
        FillTwo(d, near, mid, p);
        data[near] := data[p];
        data[mid] := data[near];
        assert data[..] == d[near := d[p]][mid := d[p]];
        n := n + 1;
      }
    }
  }

  /** Fills two open cells with the value of a solid one. */
  method FillPair(data: array<Cell>, a: int, b: int, k: int)
    requires 0 <= a < data.Length && 0 <= b < data.Length && 0 <= k < data.Length
    requires a != b && data[a] == 0 && data[b] == 0 && data[k] != 0
    modifies data
    ensures Fills(old(data[..]), data[..]) && data[..] != old(data[..])
    ensures Solids(data[..]) == Solids(old(data[..])) + {a, b}
    ensures data[a] != 0 && data[b] != 0
  {
    ghost var d := data[..];
    FillTwo(d, a, b, k);
    data[a] := data[k];
    data[b] := data[a];
    assert data[..] == d[a := d[k]][b := d[k]];
  }

  /** Around a solid cell: the gap in the row, then the one in the column, then the touching corner. */
  lemma GapsInTurn(r: Ring, s: set<int>, i: int)
    requires Roomy(r) && r.Has(i) && i in s
    ensures var rows := s + RowGap(r, s, i);
            var both := rows + ColumnGap(r, rows, i);
            var b, c, e := Back(r, i, 1), Back(r, i, r.linewidth), Back(r, i, r.linewidth + 1);
            s + GapCells(r, s, i) == both + if e in both && b !in both && c !in both then {b, c} else {}
  {
    Spread(r, i);
    hide Back;
  }

  /** Gaps are closed exactly where the window shows some. */
  lemma GapShows(r: Ring, s: set<int>, i: int)
    requires Roomy(r) && r.Has(i)
    ensures GapCells(r, s, i) != {} <==> WindowIn(r, s, i).Gap()
    ensures GapCells(r, s, i) !! s
  {
    hide Back;
  }

  /** Closes the gaps and the touching corners that the window shows. */
  method CloseGaps(r: Ring, data: array<Cell>, p: Pointers) returns (n: int)
    requires data.Length == r.datasize && Placed(r, p)
    modifies data
    ensures n >= 0 && Fills(old(data[..]), data[..])
    ensures Solids(data[..]) == Solids(old(data[..])) + GapCells(r, Solids(old(data[..])), p.p0)
    ensures n == 0 <==> !WindowAt(r, old(data[..]), p.p0).Gap()
    ensures n == 0 <==> data[..] == old(data[..])
    ensures data[p.p0] == 0 && data[p.p5] == 0 ==> data[p.p1] == 0 || data[p.p4] == 0
  {
    hide Fills, GapCells, RowGap, ColumnGap, Window.Gap, WindowIn, WindowAt, Back;
    ghost var d0 := data[..];
    FillsSelf(d0);
    Spread(r, p.p0);
    GapShows(r, Solids(d0), p.p0);
    WindowsAgree(r, d0, p.p0);
    n := 0;
    if data[p.p0] != 0 {
      GapsInTurn(r, Solids(d0), p.p0);
      n := CloseLines(r, data, p);
      ghost var d2 := data[..];
      Solid(d0, d2, p.p0);
      var m := CloseCorner(r, data, p);
      NoBackwards(d0, d2, data[..]);
      Solid(d0, data[..], p.p0);
      n := n + m;
    } else {
      OpenGap(r, Solids(d0), p.p0);
      if data[p.p5] == 0 && data[p.p1] != 0 && data[p.p4] != 0 {
        FillPair(data, p.p5, p.p0, p.p1);
        n := n + 1;
      }
    }
    SolidsSame(d0, data[..]);
  }

  /** Closes the gap in the row and then the one in the column. */
  method CloseLines(r: Ring, data: array<Cell>, p: Pointers) returns (n: int)
    requires data.Length == r.datasize && Placed(r, p) && data[p.p0] != 0
    modifies data
    ensures n >= 0 && Fills(old(data[..]), data[..])
    ensures var rows := Solids(old(data[..])) + RowGap(r, Solids(old(data[..])), p.p0);
            Solids(data[..]) == rows + ColumnGap(r, rows, p.p0)
    ensures n == 0 <==> data[..] == old(data[..])
  {
    hide Fills, Solids, GapBetween;
    ghost var d0 := data[..];
    Spread(r, p.p0);
    n := CloseGap(data, p.p0, p.p1, p.p2, p.p3);
    ghost var d1 := data[..];
    Solid(d0, d1, p.p0);
    var m := CloseGap(data, p.p0, p.p4, p.p7, p.pa);
    NoBackwards(d0, d1, data[..]);
    n := n + m;
  }

  /** Closes the corner between two solid cells that touch there only. */
  method CloseCorner(r: Ring, data: array<Cell>, p: Pointers) returns (n: int)
    requires data.Length == r.datasize && Placed(r, p) && data[p.p0] != 0
    modifies data
    ensures n >= 0 && Fills(old(data[..]), data[..])
    ensures var s := Solids(old(data[..]));
            Solids(data[..]) == s + if p.p5 in s && p.p1 !in s && p.p4 !in s then {p.p1, p.p4} else {}
    ensures n == 0 <==> data[..] == old(data[..])
  {
    hide Fills, Back;
    Spread(r, p.p0);
    FillsSelf(data[..]);
    n := 0;
    if data[p.p5] != 0 {
      if data[p.p1] == 0 && data[p.p4] == 0 {
        FillPair(data, p.p1, p.p4, p.p0);
        n := n + 1;
      }
    }
  }

  lemma OpenGap(r: Ring, s: set<int>, i: int)
    requires Roomy(r) && r.Has(i) && i !in s
    ensures GapCells(r, s, i) == Touching(r, s, i)
  {
    hide Back;
  }

  lemma SolidsSame(d: seq<Cell>, f: seq<Cell>)
    requires Fills(d, f)
    ensures Solids(f) == Solids(d) <==> f == d
  {
    if Solids(f) == Solids(d) {
      forall j | 0 <= j < |d|
        ensures f[j] == d[j]
      {
        assert j in Solids(f) <==> j in Solids(d);
      }
    }
  }

  /** The places in the row, in the column and across the corner are all different. */
  lemma Spread(r: Ring, i: int)
    requires Roomy(r) && r.Has(i)
    ensures var lw := r.linewidth;
            var b1, b2, b3, c1, c2, c3 :=
              Back(r, i, 1), Back(r, i, 2), Back(r, i, 3), Back(r, i, lw), Back(r, i, 2 * lw), Back(r, i, 3 * lw);
            && b1 != i && b2 != i && b1 != b2 && c1 != i && c2 != i && c3 != i && c1 != c2 && c1 != c3
            && b1 != c1 && b1 != c2 && b1 != c3 && b2 != c1 && b2 != c2 && b2 != c3
            && Back(r, i, lw + 1) != i && Back(r, i, lw + 1) != b1 && Back(r, i, lw + 1) != c1
            && Back(r, i, lw + 1) != b2 && Back(r, i, lw + 1) != c2
  {
  }

  /** What one look through the window does to the map. */
  method ConnectAt(r: Ring, data: array<Cell>, p: Pointers) returns (n: int)
    requires data.Length == r.datasize && Placed(r, p)
    modifies data
    ensures n >= 0 && Fills(old(data[..]), data[..])
    ensures Solids(data[..]) == Look(r, Solids(old(data[..])), p.p0)
    ensures n == 0 <==> !WindowAt(r, old(data[..]), p.p0).Fires()
    ensures n == 0 <==> data[..] == old(data[..])
  {
    hide Fills, Window.Middle, Window.Gap, Back;
    ghost var d0 := data[..];
    n := CloseGaps(r, data, p);
    ghost var d1 := data[..];
    var m := FillMiddle(r, data, p);
    NoBackwards(d0, d1, data[..]);
    n := n + m;
  }

  lemma FillsSelf(d: seq<Cell>)
    ensures Fills(d, d)
  {
  }

  lemma Solid(d: seq<Cell>, f: seq<Cell>, i: int)
    requires Fills(d, f) && 0 <= i < |d| && d[i] != 0
    ensures |f| == |d| && f[i] != 0
  {
  }

  lemma NoBackwards(d: seq<Cell>, e: seq<Cell>, f: seq<Cell>)
    requires Fills(d, e) && Fills(e, f)
    ensures Fills(d, f) && (d == f <==> d == e && e == f)
  {
    FillShrinks(d, e);
    FillShrinks(e, f);
  }

  lemma WindowsAgree(r: Ring, d: seq<Cell>, i: int)
    requires Roomy(r) && r.Has(i) && |d| == r.datasize
    ensures WindowAt(r, d, i) == WindowIn(r, Solids(d), i)
  {
    hide Back;
  }

  /** Looks at the middle cell of the nine. */
  method FillMiddle(r: Ring, data: array<Cell>, p: Pointers) returns (n: int)
    requires data.Length == r.datasize && Placed(r, p)
    requires data[p.p0] == 0 && data[p.p5] == 0 ==> data[p.p1] == 0 || data[p.p4] == 0
    modifies data
    ensures n >= 0 && Fills(old(data[..]), data[..])
    ensures Solids(data[..]) == Solids(old(data[..])) + MiddleCell(r, Solids(old(data[..])), p.p0)
    ensures n == 0 <==> !WindowAt(r, old(data[..]), p.p0).Middle()
    ensures n == 0 <==> data[..] == old(data[..])
  {
    hide Back, Window.Middle;
    ghost var d := data[..];
    FillsSelf(d);
    WindowsAgree(r, d, p.p0);
    n := 0;
    var source := MiddleSource(r, data, p);
    if source >= 0 {
      FillOne(d, p.p5, source);
      data[p.p5] := data[source];
      assert data[..] == d[p.p5 := d[source]];
      n := n + 1;
    }
  }

  /** The cell whose value the middle cell takes over, or -1 if it stays as it is. */
  method MiddleSource(r: Ring, data: array<Cell>, p: Pointers) returns (source: int)
    requires data.Length == r.datasize && Placed(r, p)
    requires data[p.p0] == 0 && data[p.p5] == 0 ==> data[p.p1] == 0 || data[p.p4] == 0
    ensures source >= 0 <==> WindowAt(r, data[..], p.p0).Middle()
    ensures source >= 0 ==> r.Has(source) && data[source] != 0 && data[p.p5] == 0
  {
    hide Back;
    source := -1;
    if data[p.p5] == 0 {
      var s0, s1, s2, s4, s6, s7, s8, s9 := data[p.p0] != 0, data[p.p1] != 0, data[p.p2] != 0, data[p.p4] != 0,
        data[p.p6] != 0, data[p.p7] != 0, data[p.p8] != 0, data[p.p9] != 0;
      if (s0 || (s1 && s4)) && s9 {
        return p.p0;
      } else if s6 && s8 && s0 {
        return p.p0;
      } else if s2 && (s7 || (s4 && s8)) {
        return p.p2;
      } else if s7 && s1 && s6 {
        return p.p7;
      } else if !s0 && !s1 && s2 && !s4 && s6 && s7 && s8 && s9 {
        return p.p9;
      } else if s0 && !s1 && !s2 && s4 && !s6 && s7 && s8 && s9 {
        return p.p7;
      } else if s0 && s1 && s2 && s4 && !s6 && s7 && !s8 && !s9 {
        return p.p0;
      } else if s0 && s1 && s2 && !s4 && s6 && !s7 && !s8 && s9 {
        return p.p0;
      } else if s0 && !s1 && !s2 && !s4 && !s6 && !s7 && s8 && !s9 {
        return p.p8;
      } else if !s0 && !s1 && s2 && !s4 && !s6 && !s7 && s8 && !s9 {
        return p.p8;
      } else if s0 && !s1 && !s2 && !s4 && s6 && !s7 && !s8 && !s9 {
        return p.p6;
      } else if !s0 && !s1 && !s2 && !s4 && s6 && s7 && !s8 && !s9 {
        return p.p6;
      } else if !s0 && s1 && !s2 && !s4 && !s6 && !s7 && !s8 && s9 {
        return p.p1;
      } else if !s0 && s1 && !s2 && !s4 && !s6 && s7 && !s8 && !s9 {
        return p.p1;
      } else if !s0 && !s1 && !s2 && s4 && !s6 && !s7 && !s8 && s9 {
        return p.p4;
      } else if !s0 && !s1 && s2 && s4 && !s6 && !s7 && !s8 && !s9 {
        return p.p4;
      }
    }
  }

  function Slide(r: Ring, i: int): (j: int)
    requires Roomy(r) && r.Has(i)
    ensures r.Has(j)
  {
    if i + 1 >= r.datasize then 0 else i + 1
  }

  lemma BackSlides(r: Ring, i: int, k: int)
    requires Roomy(r) && r.Has(i) && r.Has(i + 1) && 0 <= k < 3 * r.linewidth
    ensures Back(r, i + 1, k) == Slide(r, Back(r, i, k))
    ensures Back(r, i + 1, k + 1) == Back(r, i, k)
  {
  }

  ghost predicate NothingFires(r: Ring, d: seq<Cell>, upto: int) {
    Roomy(r) && |d| == r.datasize && forall i | 0 <= i < upto && r.Has(i) :: !WindowAt(r, d, i).Fires()
  }

  lemma PlacedSlides(r: Ring, p: Pointers)
    requires Placed(r, p) && r.Has(p.p0 + 1)
    ensures Placed(r, Slid(r, p))
  {
    hide Back;
    BackSlides(r, p.p0, 0);
    BackSlides(r, p.p0, 1);
    BackSlides(r, p.p0, 2);
    BackSlides(r, p.p0, r.linewidth);
    BackSlides(r, p.p0, r.linewidth + 1);
    BackSlides(r, p.p0, 2 * r.linewidth);
    BackSlides(r, p.p0, 2 * r.linewidth + 1);
    BackSlidesLast(r, p.p0);
    assert Back(r, p.p0, 0) == p.p0 by { BackZero(r, p.p0); }
  }

  lemma BackZero(r: Ring, i: int)
    requires Roomy(r) && r.Has(i)
    ensures Back(r, i, 0) == i
  {
  }

  lemma BackSlidesLast(r: Ring, i: int)
    requires Roomy(r) && r.Has(i) && r.Has(i + 1)
    ensures Back(r, i + 1, 3 * r.linewidth) == Slide(r, Back(r, i, 3 * r.linewidth))
  {
  }

  function Slid(r: Ring, p: Pointers): Pointers
    requires Placed(r, p)
  {
    Pointers(p.p0 + 1, p.p0, p.p1, p.p2, Slide(r, p.p4), p.p4, p.p5, Slide(r, p.p7), p.p7, p.p8, Slide(r, p.pa))
  }

  /** One pass of the window over the map. */
  method ConnectPass(r: Ring, data: array<Cell>) returns (n: int)
    requires Roomy(r) && data.Length == r.datasize
    modifies data
    ensures n >= 0 && Fills(old(data[..]), data[..])
    ensures Solids(data[..]) == Looks(r, Solids(old(data[..])), r.datasize)
    ensures n == 0 ==> NothingFires(r, data[..], r.datasize)
    ensures n == 0 <==> data[..] == old(data[..])
  {
    hide Fills, Window.Fires, WindowAt, Look, Solids;
    FillsSelf(data[..]);
    n := 0;
    var p4 := r.datasize - r.linewidth;
    var p7 := p4 - r.linewidth;
    var p := Pointers(0, r.datasize - 1, r.datasize - 2, r.datasize - 3, p4, p4 - 1, p4 - 2,
                      p7, p7 - 1, p7 - 2, p7 - r.linewidth);
    var done := false;
    while !done
      invariant !done ==> Placed(r, p)
      invariant n >= 0 && Fills(old(data[..]), data[..])
      invariant Solids(data[..]) == Looks(r, Solids(old(data[..])), if done then r.datasize else p.p0)
      invariant n == 0 ==> NothingFires(r, data[..], if done then r.datasize else p.p0)
      invariant n == 0 <==> data[..] == old(data[..])
      decreases if done then 0 else r.datasize - p.p0
    {
      ghost var d := data[..];
      var m := ConnectAt(r, data, p);
      NoBackwards(old(data[..]), d, data[..]);
      n := n + m;
      if p.p0 + 1 < r.datasize {
        PlacedSlides(r, p);
        p := Slid(r, p);
      } else {
        done := true;
      }
    }
  }

  // ------------------------------------------- what a map without gaps is like

  /** No gap of one or two cells along the ring or across the rows before cell i. */
  ghost predicate NoSmallGap(r: Ring, d: seq<Cell>, i: int)
    requires Roomy(r) && |d| == r.datasize && r.Has(i)
  {
    var lw := r.linewidth;
    d[i] != 0 ==>
      && (d[Back(r, i, 1)] != 0 || (d[Back(r, i, 2)] == 0 && d[Back(r, i, 3)] == 0))
      && (d[Back(r, i, lw)] != 0 || (d[Back(r, i, 2 * lw)] == 0 && d[Back(r, i, 3 * lw)] == 0))
  }

  /** Of the four cells around a corner, two solid or two open ones that lie
      across from each other are connected. */
  ghost predicate CornerConnects(r: Ring, d: seq<Cell>, i: int)
    requires Roomy(r) && |d| == r.datasize && r.Has(i)
  {
    var b, c, e := Back(r, i, 1), Back(r, i, r.linewidth), Back(r, i, r.linewidth + 1);
    && (d[i] != 0 && d[e] != 0 ==> r.Connected(Solids(d), i, e))
    && (d[b] != 0 && d[c] != 0 ==> r.Connected(Solids(d), b, c))
    && (d[i] == 0 && d[e] == 0 ==> r.Connected(Holding(d, 0), i, e))
    && (d[b] == 0 && d[c] == 0 ==> r.Connected(Holding(d, 0), b, c))
  }

  lemma ViaEither(r: Ring, s: set<int>, a: int, b: int, c: int, e: int)
    requires r.Valid() && r.Adjacent(a, b) && r.Adjacent(b, e) && r.Adjacent(a, c) && r.Adjacent(c, e)
    ensures a in s && e in s && (b in s || c in s) ==> r.Connected(s, a, e)
  {
    if a in s && e in s && (b in s || c in s) {
      var m := if b in s then b else c;
      ConnectedStep(r, s, a, m);
      ConnectedStep(r, s, m, e);
      ConnectedTrans(r, s, a, m, e);
    }
  }

  lemma Corner(r: Ring, i: int)
    requires Roomy(r) && r.Has(i)
    ensures var b, c, e := Back(r, i, 1), Back(r, i, r.linewidth), Back(r, i, r.linewidth + 1);
            && r.Adjacent(i, b) && r.Adjacent(b, e) && r.Adjacent(i, c) && r.Adjacent(c, e)
            && r.Adjacent(b, i) && r.Adjacent(c, i) && r.Adjacent(e, c)
  {
  }

  lemma WithoutGap(r: Ring, d: seq<Cell>, i: int)
    requires Roomy(r) && |d| == r.datasize && r.Has(i) && !WindowAt(r, d, i).Gap()
    ensures NoSmallGap(r, d, i) && CornerConnects(r, d, i)
  {
    hide Back, Ring.Adjacent, Ring.Connected;
    Corner(r, i);
    var b, c, e := Back(r, i, 1), Back(r, i, r.linewidth), Back(r, i, r.linewidth + 1);
    ViaEither(r, Solids(d), i, b, c, e);
    ViaEither(r, Solids(d), b, i, e, c);
    ViaEither(r, Holding(d, 0), i, b, c, e);
    ViaEither(r, Holding(d, 0), b, i, e, c);
  }

  /** Fills gaps until no pattern applies anywhere; it ends because every change
      fills an open cell and none opens one. */
  method ConnectMap(r: Ring, data: array<Cell>)
    requires Roomy(r) && data.Length == r.datasize
    modifies data
    ensures Fills(old(data[..]), data[..])
    ensures exists k: nat :: Solids(data[..]) == Passes(r, Solids(old(data[..])), k)
    ensures NothingFires(r, data[..], r.datasize)
    ensures forall i | r.Has(i) :: NoSmallGap(r, data[..], i) && CornerConnects(r, data[..], i)
  {
    hide Fills, Window.Middle, Window.Gap, WindowAt, NoSmallGap, CornerConnects, Solids, Looks;
    FillsSelf(data[..]);
    var n := 1;
    ghost var k: nat := 0;
    while n > 0
      invariant Fills(old(data[..]), data[..])
      invariant Solids(data[..]) == Passes(r, Solids(old(data[..])), k)
      invariant n >= 0 && (n == 0 ==> NothingFires(r, data[..], r.datasize))
      decreases |Holding(data[..], 0)|, n
    {
      ghost var d := data[..];
      n := ConnectPass(r, data);
      k := k + 1;
      NoBackwards(old(data[..]), d, data[..]);
      FillShrinks(d, data[..]);
    }
    forall i | r.Has(i)
      ensures NoSmallGap(r, data[..], i) && CornerConnects(r, data[..], i)
    {
      assert !WindowAt(r, data[..], i).Fires();
      WithoutGap(r, data[..], i);
    }
  }
}
