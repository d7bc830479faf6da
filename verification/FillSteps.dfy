/** What closing gaps does to a map as a whole (Connect_map of contrib/wildmap.c): it is
    a chain of fills of five kinds, and none of them reaches into open columns. */
module FillSteps {
  import opened Arithmetic
  import opened RingGraph
  import opened ConnectMap

  // ------------------------------------------------------- the five kinds of fill

  /** Cell i is solid, and one or two open cells to the left of it are followed by a solid one. */
  ghost predicate AlongRow(r: Ring, s: set<int>, i: int, cells: set<int>)
    requires r.Valid() && r.Has(i)
  {
    var a := r.Left(i);
    var b := r.Left(a);
    i in s && a !in s && ((b in s && cells == {a}) || (b !in s && r.Left(b) in s && cells == {a, b}))
  }

  /** The same upwards. */
  ghost predicate AlongColumn(r: Ring, s: set<int>, i: int, cells: set<int>)
    requires r.Valid() && r.Has(i)
  {
    var a := r.Up(i);
    var b := r.Up(a);
    i in s && a !in s && ((b in s && cells == {a}) || (b !in s && r.Up(b) in s && cells == {a, b}))
  }

  /** Cell i and the cell up and to the left of it are solid, and the other two cells there open. */
  ghost predicate AcrossSolid(r: Ring, s: set<int>, i: int, cells: set<int>)
    requires r.Valid() && r.Has(i)
  {
    i in s && r.Left(r.Up(i)) in s && r.Left(i) !in s && r.Up(i) !in s && cells == {r.Left(i), r.Up(i)}
  }

  /** Cell i and the cell up and to the left of it are open, and the other two cells there solid. */
  ghost predicate AcrossOpen(r: Ring, s: set<int>, i: int, cells: set<int>)
    requires r.Valid() && r.Has(i)
  {
    i !in s && r.Left(r.Up(i)) !in s && r.Left(i) in s && r.Up(i) in s && cells == {i, r.Left(r.Up(i))}
  }

  /** The cell is open and its eight neighbours show one of the sixteen patterns. */
  ghost predicate InPattern(r: Ring, s: set<int>, i: int, cells: set<int>)
    requires Roomy(r) && r.Has(i)
  {
    WindowIn(r, s, i).Middle() && cells == {r.Left(r.Up(i))}
  }

  ghost predicate Kind(r: Ring, s: set<int>, i: int, cells: set<int>)
    requires Roomy(r) && r.Has(i)
  {
    || AlongRow(r, s, i, cells)
    || AlongColumn(r, s, i, cells)
    || AcrossSolid(r, s, i, cells)
    || AcrossOpen(r, s, i, cells)
    || InPattern(r, s, i, cells)
  }

  ghost predicate FillStep(r: Ring, s: set<int>, t: set<int>)
    requires Roomy(r)
  {
    exists i, cells :: r.Has(i) && Kind(r, s, i, cells) && t == s + cells
  }

  ghost predicate Chain(r: Ring, p: seq<set<int>>)
    requires Roomy(r)
  {
    |p| > 0 && forall k | 0 < k < |p| :: FillStep(r, p[k - 1], p[k])
  }

  /** Set t of solid cells comes from s by such fills only. */
  ghost predicate Reached(r: Ring, s: set<int>, t: set<int>)
    requires Roomy(r)
  {
    exists p :: Chain(r, p) && p[0] == s && p[|p| - 1] == t
  }

  lemma ReachedSelf(r: Ring, s: set<int>)
    requires Roomy(r)
    ensures Reached(r, s, s)
  {
    assert Chain(r, [s]);
  }

  lemma ReachedStep(r: Ring, s: set<int>, t: set<int>, u: set<int>)
    requires Roomy(r) && Reached(r, s, t) && FillStep(r, t, u)
    ensures Reached(r, s, u)
  {
    var p :| Chain(r, p) && p[0] == s && p[|p| - 1] == t;
    hide FillStep;
    assert Chain(r, p + [u]);
  }

  /** The places that the window looks at are the neighbours. */
  lemma Places(r: Ring, i: int)
    requires Roomy(r) && r.Has(i)
    ensures Back(r, i, 1) == r.Left(i) && Back(r, i, 2) == r.Left(r.Left(i))
    ensures Back(r, i, 3) == r.Left(r.Left(r.Left(i)))
    ensures Back(r, i, r.linewidth) == r.Up(i) && Back(r, i, 2 * r.linewidth) == r.Up(r.Up(i))
    ensures Back(r, i, 3 * r.linewidth) == r.Up(r.Up(r.Up(i)))
    ensures Back(r, i, r.linewidth + 1) == r.Left(r.Up(i))
  {
  }

  /** One look fills by these kinds only: at most one fill in the row, one in the column, one
      across the corner and one in the middle. */
  lemma LookReaches(r: Ring, s: set<int>, i: int)
    requires Roomy(r) && r.Has(i)
    ensures Reached(r, s, Look(r, s, i))
  {
    hide FillStep, Reached, Kind, Window.Middle, Back, Look, GapCells, MiddleCell;
    ReachedSelf(r, s);
    var closed := s + GapCells(r, s, i);
    GapsReach(r, s, i);
    MiddleReaches(r, closed, i);
    LookIs(r, s, i);
    if MiddleCell(r, closed, i) != {} {
      ReachedStep(r, s, closed, closed + MiddleCell(r, closed, i));
    } else {
      assert closed + MiddleCell(r, closed, i) == closed;
    }
  }

  lemma LookIs(r: Ring, s: set<int>, i: int)
    requires Roomy(r) && r.Has(i)
    ensures var closed := s + GapCells(r, s, i); Look(r, s, i) == closed + MiddleCell(r, closed, i)
  {
    hide GapCells, MiddleCell;
  }

  lemma MiddleReaches(r: Ring, s: set<int>, i: int)
    requires Roomy(r) && r.Has(i)
    ensures MiddleCell(r, s, i) != {} ==> FillStep(r, s, s + MiddleCell(r, s, i))
  {
    hide Window.Middle, Back, WindowIn;
    Places(r, i);
    if MiddleCell(r, s, i) != {} {
      assert InPattern(r, s, i, MiddleCell(r, s, i));
      assert Kind(r, s, i, MiddleCell(r, s, i));
    }
  }

  lemma GapsReach(r: Ring, s: set<int>, i: int)
    requires Roomy(r) && r.Has(i)
    ensures Reached(r, s, s + GapCells(r, s, i))
  {
    hide FillStep, Reached, Back;
    ReachedSelf(r, s);
    RowReaches(r, s, i);
    CornerReaches(r, s, i);
    var rows := s + RowGap(r, s, i);
    ColumnAfterRow(r, s, i);
    ColumnReaches(r, rows, i);
    hide RowGap, ColumnGap, Touching;
    if RowGap(r, s, i) != {} {
      ReachedStep(r, s, s, rows);
    } else {
      assert rows == s;
    }
    if ColumnGap(r, s, i) != {} {
      ReachedStep(r, s, rows, rows + ColumnGap(r, rows, i));
    }
    if Touching(r, s, i) != {} {
      ReachedStep(r, s, s, s + Touching(r, s, i));
    }
    GapsAre(r, s, i);
  }

  lemma GapsAre(r: Ring, s: set<int>, i: int)
    requires Roomy(r) && r.Has(i)
    ensures var rows, columns := RowGap(r, s, i), ColumnGap(r, s, i);
            s + GapCells(r, s, i) ==
            if rows == {} && columns == {} then (if Touching(r, s, i) == {} then s else s + Touching(r, s, i))
            else if columns == {} then s + rows
            else s + rows + columns
  {
    hide RowGap, ColumnGap, Touching;
  }

  lemma ColumnAfterRow(r: Ring, s: set<int>, i: int)
    requires Roomy(r) && r.Has(i)
    ensures ColumnGap(r, s + RowGap(r, s, i), i) == ColumnGap(r, s, i)
  {
    Spread(r, i);
    hide Back;
  }

  lemma RowReaches(r: Ring, s: set<int>, i: int)
    requires Roomy(r) && r.Has(i)
    ensures RowGap(r, s, i) != {} ==> FillStep(r, s, s + RowGap(r, s, i))
  {
    Places(r, i);
    hide Back, Ring.Left, Ring.Up;
    if RowGap(r, s, i) != {} {
      assert AlongRow(r, s, i, RowGap(r, s, i));
      assert Kind(r, s, i, RowGap(r, s, i));
    }
  }

  lemma ColumnReaches(r: Ring, s: set<int>, i: int)
    requires Roomy(r) && r.Has(i)
    ensures ColumnGap(r, s, i) != {} ==> FillStep(r, s, s + ColumnGap(r, s, i))
  {
    Places(r, i);
    hide Back, Ring.Left, Ring.Up;
    if ColumnGap(r, s, i) != {} {
      assert AlongColumn(r, s, i, ColumnGap(r, s, i));
      assert Kind(r, s, i, ColumnGap(r, s, i));
    }
  }

  lemma CornerReaches(r: Ring, s: set<int>, i: int)
    requires Roomy(r) && r.Has(i)
    ensures Touching(r, s, i) != {} ==> FillStep(r, s, s + Touching(r, s, i))
  {
    Places(r, i);
    hide Back, Ring.Left, Ring.Up;
    if Touching(r, s, i) != {} {
      assert AcrossSolid(r, s, i, Touching(r, s, i)) || AcrossOpen(r, s, i, Touching(r, s, i));
      assert Kind(r, s, i, Touching(r, s, i));
    }
  }

  lemma ReachedTrans(r: Ring, s: set<int>, t: set<int>, u: set<int>)
    requires Roomy(r) && Reached(r, s, t) && Reached(r, t, u)
    ensures Reached(r, s, u)
  {
    var p :| Chain(r, p) && p[0] == t && p[|p| - 1] == u;
    ChainReaches(r, s, p, |p| - 1);
  }

  lemma {:induction false} ChainReaches(r: Ring, s: set<int>, p: seq<set<int>>, n: nat)
    requires Roomy(r) && Chain(r, p) && n < |p| && Reached(r, s, p[0])
    ensures Reached(r, s, p[n])
    decreases n
  {
    hide FillStep, Reached;
    if n > 0 {
      ChainReaches(r, s, p, n - 1);
      ReachedStep(r, s, p[n - 1], p[n]);
    }
  }

  lemma {:induction false} LooksReach(r: Ring, s: set<int>, i: nat)
    requires Roomy(r) && i <= r.datasize
    ensures Reached(r, s, Looks(r, s, i))
    decreases i
  {
    hide Reached, Look;
    if i == 0 {
      ReachedSelf(r, s);
    } else {
      LooksReach(r, s, i - 1);
      LookReaches(r, Looks(r, s, i - 1), i - 1);
      ReachedTrans(r, s, Looks(r, s, i - 1), Looks(r, s, i));
    }
  }

  /** However many passes are made, the map is reached by the five kinds of fill. */
  lemma {:induction false} PassesReach(r: Ring, s: set<int>, n: nat)
    requires Roomy(r)
    ensures Reached(r, s, Passes(r, s, n))
  {
    hide Reached, Looks;
    if n == 0 {
      ReachedSelf(r, s);
    } else {
      PassesReach(r, s, n - 1);
      LooksReach(r, Passes(r, s, n - 1), r.datasize);
      ReachedTrans(r, s, Passes(r, s, n - 1), Passes(r, s, n));
    }
  }

  // ------------------------------------------------------------ open columns

  /** How far the column of cell j is to the right of column a, around the map. */
  function Off(r: Ring, a: int, j: int): (o: int)
    requires r.Valid()
    ensures 0 <= o < r.linewidth
  {
    (j - a) % r.linewidth
  }

  /** No solid cell is in the n columns from a on. */
  ghost predicate Clear(r: Ring, s: set<int>, a: int, n: int)
    requires r.Valid()
  {
    forall j <- s :: r.Has(j) && Off(r, a, j) >= n
  }

  lemma OneLess(x: int, w: int)
    requires w > 0
    ensures (x - 1) % w == if x % w > 0 then x % w - 1 else w - 1
  {
    NextWraps(x - 1, w);
  }

  lemma Around(x: int, k: int, w: int)
    requires w > 0 && k % w == 0
    ensures (x + k) % w == x % w
  {
    var q, p := x / w, k / w;
    assert x == q * w + x % w && k == p * w;
    assert x + k == (q + p) * w + x % w;
    Remainder(q + p, x % w, w);
  }

  lemma OffLeft(r: Ring, a: int, j: int)
    requires r.Valid() && r.datasize % r.linewidth == 0 && r.Has(j)
    ensures Off(r, a, r.Left(j)) == if Off(r, a, j) > 0 then Off(r, a, j) - 1 else r.linewidth - 1
  {
    OneLess(j - a, r.linewidth);
    Around(j - 1 - a, r.datasize, r.linewidth);
  }

  lemma OffUp(r: Ring, a: int, j: int)
    requires r.Valid() && r.datasize % r.linewidth == 0 && r.Has(j)
    ensures Off(r, a, r.Up(j)) == Off(r, a, j)
  {
    MultipleOf(-1, r.linewidth);
    Around(j - a, -r.linewidth, r.linewidth);
    Around(j - r.linewidth - a, r.datasize, r.linewidth);
  }

  /** The columns of the nine cells: i, its left and upper neighbours, and theirs. */
  lemma NineColumns(r: Ring, a: int, i: int)
    requires Roomy(r) && r.datasize % r.linewidth == 0 && r.Has(i)
    ensures var lw := r.linewidth;
            && Off(r, a, Back(r, i, lw)) == Off(r, a, Back(r, i, 2 * lw)) == Off(r, a, i)
            && Off(r, a, Back(r, i, lw + 1)) == Off(r, a, Back(r, i, 1))
            && Off(r, a, Back(r, i, 2 * lw + 1)) == Off(r, a, Back(r, i, 1))
            && Off(r, a, Back(r, i, lw + 2)) == Off(r, a, Back(r, i, 2))
            && Off(r, a, Back(r, i, 2 * lw + 2)) == Off(r, a, Back(r, i, 2))
  {
    var lw := r.linewidth;
    UpOf(r, i, 0);
    UpOf(r, i, 1);
    UpOf(r, i, 2);
    BackZero(r, i);
    hide Back, Ring.Up, Off;
    OffUp(r, a, i);
    OffUp(r, a, Back(r, i, 1));
    OffUp(r, a, Back(r, i, 2));
    OffUp(r, a, Back(r, i, lw));
    OffUp(r, a, Back(r, i, lw + 1));
    OffUp(r, a, Back(r, i, lw + 2));
  }

  lemma UpOf(r: Ring, i: int, k: int)
    requires Roomy(r) && r.Has(i) && 0 <= k < 3
    ensures Back(r, i, r.linewidth + k) == r.Up(Back(r, i, k))
    ensures Back(r, i, 2 * r.linewidth + k) == r.Up(Back(r, i, r.linewidth + k))
  {
  }

  /** The cells that are filled lie outside columns that are clear. */
  lemma KindStaysOut(r: Ring, s: set<int>, i: int, cells: set<int>, a: int, n: int)
    requires Roomy(r) && r.datasize % r.linewidth == 0 && 3 <= n <= r.linewidth && Clear(r, s, a, n)
    requires r.Has(i) && Kind(r, s, i, cells)
    ensures Clear(r, cells, a, n)
  {
    var b := r.Left(i);
    OffLeft(r, a, i);
    OffLeft(r, a, b);
    OffLeft(r, a, r.Left(b));
    OffUp(r, a, i);
    OffUp(r, a, r.Up(i));
    OffUp(r, a, r.Up(r.Up(i)));
    OffLeft(r, a, r.Up(i));
    hide Off, Ring.Left, Ring.Up, InPattern;
    if InPattern(r, s, i, cells) {
      PatternStaysOut(r, s, i, a, n);
      PatternCell(r, s, i, cells);
    }
  }

  lemma PatternCell(r: Ring, s: set<int>, i: int, cells: set<int>)
    requires Roomy(r) && r.Has(i) && InPattern(r, s, i, cells)
    ensures WindowIn(r, s, i).Middle() && cells == {r.Left(r.Up(i))}
  {
  }

  lemma PatternStaysOut(r: Ring, s: set<int>, i: int, a: int, n: int)
    requires Roomy(r) && r.datasize % r.linewidth == 0 && 3 <= n <= r.linewidth && Clear(r, s, a, n)
    requires r.Has(i)
    ensures Off(r, a, r.Left(r.Up(i))) < n ==> !WindowIn(r, s, i).Middle()
  {
    hide Off, Ring.Left, Ring.Up, Back, Window.Middle, Clear;
    Places(r, i);
    NineColumns(r, a, i);
    OffLeft(r, a, i);
    OffLeft(r, a, r.Left(i));
    var lw := r.linewidth;
    NotSolid(r, s, a, n, Back(r, i, 1));
    NotSolid(r, s, a, n, Back(r, i, 2 * lw + 1));
    if Off(r, a, i) < n {
      NotSolid(r, s, a, n, i);
      NotSolid(r, s, a, n, Back(r, i, lw));
      NotSolid(r, s, a, n, Back(r, i, 2 * lw));
    } else {
      NotSolid(r, s, a, n, Back(r, i, 2));
      NotSolid(r, s, a, n, Back(r, i, lw + 2));
      NotSolid(r, s, a, n, Back(r, i, 2 * lw + 2));
    }
    OneSided(WindowIn(r, s, i));
  }

  lemma NotSolid(r: Ring, s: set<int>, a: int, n: int, j: int)
    requires r.Valid() && Clear(r, s, a, n)
    ensures Off(r, a, j) < n ==> j !in s
  {
  }

  /** No pattern has all its solid cells in the same column beside the middle one. */
  lemma OneSided(w: Window)
    ensures !w.w1 && !w.w8 && !w.w0 && !w.w4 && !w.w7 ==> !w.Middle()
    ensures !w.w1 && !w.w8 && !w.w2 && !w.w6 && !w.w9 ==> !w.Middle()
  {
  }

  lemma {:induction false} ChainStaysOut(r: Ring, p: seq<set<int>>, k: nat, a: int, n: int)
    requires Roomy(r) && r.datasize % r.linewidth == 0 && 3 <= n <= r.linewidth
    requires Chain(r, p) && k < |p| && Clear(r, p[0], a, n)
    ensures Clear(r, p[k], a, n)
    decreases k
  {
    hide Kind, Off;
    if k > 0 {
      ChainStaysOut(r, p, k - 1, a, n);
      var i, cells :| r.Has(i) && Kind(r, p[k - 1], i, cells) && p[k] == p[k - 1] + cells;
      KindStaysOut(r, p[k - 1], i, cells, a, n);
    }
  }

  /** Three or more neighbouring columns without a solid cell stay so. */
  lemma ColumnsStayOpen(r: Ring, s: set<int>, t: set<int>, a: int, n: int)
    requires Roomy(r) && r.datasize % r.linewidth == 0 && 3 <= n <= r.linewidth
    requires Clear(r, s, a, n) && Reached(r, s, t)
    ensures Clear(r, t, a, n)
  {
    hide FillStep, Clear;
    var p :| Chain(r, p) && p[0] == s && p[|p| - 1] == t;
    ChainStaysOut(r, p, |p| - 1, a, n);
  }

  /** However many passes are made, clear columns stay clear. */
  lemma PassesStayOut(r: Ring, s: set<int>, k: nat, a: int, n: int)
    requires Roomy(r) && r.datasize % r.linewidth == 0 && 3 <= n <= r.linewidth && Clear(r, s, a, n)
    ensures Clear(r, Passes(r, s, k), a, n)
  {
    hide Reached, Clear, Passes;
    PassesReach(r, s, k);
    ColumnsStayOpen(r, s, Passes(r, s, k), a, n);
  }
}
