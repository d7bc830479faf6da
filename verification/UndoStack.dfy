/** The undo list of the map editor (src/mapedit/tools.c): single changes are pushed
    on a stack, with breakpoints between groups of changes. It is proved equal to an
    editor that keeps whole copies of the map. */
module UndoStack {

  type Grid = seq<seq<char>>

  const BREAKPOINT := '\n'

  datatype Change = Change(x: nat, y: nat, icon: char)

  predicate Sized(g: Grid, w: nat, h: nat) {
    |g| == w && forall x | 0 <= x < w :: |g[x]| == h
  }

  predicate Plain(g: Grid, w: nat, h: nat)
    requires Sized(g, w, h)
  {
    forall x, y | 0 <= x < w && 0 <= y < h :: g[x][y] != BREAKPOINT
  }

  predicate Inside(stack: seq<Change>, w: nat, h: nat) {
    forall i | 0 <= i < |stack| :: stack[i].x < w && stack[i].y < h
  }

  function Write(g: Grid, w: nat, h: nat, c: Change): (r: Grid)
    requires Sized(g, w, h) && c.x < w && c.y < h
    ensures Sized(r, w, h)
    ensures forall x, y | 0 <= x < w && 0 <= y < h ::
              r[x][y] == if x == c.x && y == c.y then c.icon else g[x][y]
  {
    g[c.x := g[c.x][c.y := c.icon]]
  }

  /** The maps at the breakpoints of the stack, the newest first, and the map
      that is left when all changes are taken back. */
  function Past(g: Grid, w: nat, h: nat, stack: seq<Change>): (past: seq<Grid>)
    requires Sized(g, w, h) && Inside(stack, w, h)
    ensures |past| >= 1
    ensures |past| == 1 <==> forall i | 0 <= i < |stack| :: stack[i].icon != BREAKPOINT
    decreases |stack|
  {
    if stack == [] then [g]
    else if stack[0].icon == BREAKPOINT then [g] + Past(g, w, h, stack[1..])
    else Past(Write(g, w, h, stack[0]), w, h, stack[1..])
  }

  predicate AtBreak(stack: seq<Change>) {
    stack == [] || stack[0].icon == BREAKPOINT
  }

  /** A change that is recorded can be taken back: the past stays the same. */
  lemma PastOfChange(g: Grid, w: nat, h: nat, stack: seq<Change>, x: nat, y: nat, icon: char)
    requires Sized(g, w, h) && Inside(stack, w, h) && x < w && y < h
    requires g[x][y] != BREAKPOINT
    ensures Inside([Change(x, y, g[x][y])] + stack, w, h)
    ensures Past(Write(g, w, h, Change(x, y, icon)), w, h, [Change(x, y, g[x][y])] + stack) == Past(g, w, h, stack)
  {
    var after := Write(g, w, h, Change(x, y, icon));
    var back := Write(after, w, h, Change(x, y, g[x][y]));
    assert back == g by {
      forall i | 0 <= i < w ensures back[i] == g[i] {
      }
    }
    var longer := [Change(x, y, g[x][y])] + stack;
    assert longer[1..] == stack;
  }

  lemma WriteSame(g: Grid, w: nat, h: nat, c: Change)
    requires Sized(g, w, h) && c.x < w && c.y < h && g[c.x][c.y] == c.icon
    ensures Write(g, w, h, c) == g
  {
    assert g[c.x][c.y := c.icon] == g[c.x];
  }

  // ---------- the editor that keeps copies ----------

  datatype Action = Edit(x: int, y: int, icon: char) | Breakpoint | Undo

  /** A map, the copies made at the breakpoints that were not yet undone and of the
      map at the start, and whether nothing has changed since the last of them. */
  datatype Snapshots = Snapshots(grid: Grid, past: seq<Grid>, clean: bool) {

    predicate Valid(w: nat, h: nat) {
      && Sized(grid, w, h) && |past| >= 1 && (clean ==> past[0] == grid)
      && forall i | 0 <= i < |past| :: Sized(past[i], w, h)
    }

    function Edited(w: nat, h: nat, x: nat, y: nat, icon: char): Snapshots
      requires Sized(grid, w, h) && x < w && y < h
    {
      if grid[x][y] == icon then this else Snapshots(Write(grid, w, h, Change(x, y, icon)), past, false)
    }

    function Broken(): Snapshots {
      Snapshots(grid, [grid] + past, true)
    }

    function Undone(): Snapshots
      requires |past| >= 1
    {
      var left := if clean && |past| > 1 then past[1..] else past;
      Snapshots(left[0], left, true)
    }

    function Do(w: nat, h: nat, a: Action): (s: Snapshots)
      requires Valid(w, h) && 0 < w && 0 < h && (a.Edit? ==> Near(a.x, w) && Near(a.y, h))
      ensures s.Valid(w, h)
    {
      match a
      case Edit(x, y, icon) => Edited(w, h, Wrap(x, w), Wrap(y, h), icon)
      case Breakpoint => Broken()
      case Undo => Undone()
    }
  }

  predicate Near(x: int, w: nat) {
    0 <= x + w && x < 2 * w
  }

  /** One step over an edge of the map is brought back. */
  function Wrap(x: int, w: nat): (r: nat)
    requires Near(x, w)
    ensures r < w && (r == x || r == x + w || r == x - w)
  {
    if x < 0 then x + w else if x > w - 1 then x - w else x
  }

  predicate Doable(w: nat, h: nat, actions: seq<Action>) {
    && 0 < w && 0 < h
    && forall i | 0 <= i < |actions| :: actions[i].Edit? ==> Near(actions[i].x, w) && Near(actions[i].y, h)
  }

  function Run(s: Snapshots, w: nat, h: nat, actions: seq<Action>): (r: Snapshots)
    requires s.Valid(w, h) && Doable(w, h, actions)
    ensures r.Valid(w, h)
    decreases |actions|
  {
    if actions == [] then s
    else Run(s, w, h, actions[..|actions| - 1]).Do(w, h, actions[|actions| - 1])
  }

  /** Whatever is done, the oldest copy is the map at the start. */
  lemma {:induction false} OldestStays(s: Snapshots, w: nat, h: nat, actions: seq<Action>)
    requires s.Valid(w, h) && Doable(w, h, actions)
    ensures var r := Run(s, w, h, actions);
            r.past[|r.past| - 1] == s.past[|s.past| - 1]
    decreases |actions|
  {
    if actions != [] {
      OldestStays(s, w, h, actions[..|actions| - 1]);
    }
  }

  /** As many undos as there are copies give the map at the start. */
  lemma {:induction false} DrainRestores(s: Snapshots, w: nat, h: nat, undos: seq<Action>)
    requires s.Valid(w, h) && Doable(w, h, undos)
    requires forall i | 0 <= i < |undos| :: undos[i] == Undo
    ensures var r := Run(s, w, h, undos);
            && |r.past| <= (if |undos| < |s.past| then |s.past| - |undos| + 1 else 1)
            && (|undos| > 0 ==> r.clean)
            && (|undos| >= |s.past| ==> r.grid == s.past[|s.past| - 1])
    decreases |undos|
  {
    if undos != [] {
      var n := |undos| - 1;
      DrainRestores(s, w, h, undos[..n]);
      OldestStays(s, w, h, undos);
    }
  }

  /** Every run, drained: the map the editor started from comes back. */
  lemma DrainedRun(g: Grid, w: nat, h: nat, actions: seq<Action>, undos: seq<Action>)
    requires Sized(g, w, h) && Doable(w, h, actions) && Doable(w, h, undos)
    requires forall i | 0 <= i < |undos| :: undos[i] == Undo
    requires |undos| >= |Run(Snapshots(g, [g], true), w, h, actions).past|
    ensures Run(Run(Snapshots(g, [g], true), w, h, actions), w, h, undos).grid == g
  {
    OldestStays(Snapshots(g, [g], true), w, h, actions);
    DrainRestores(Run(Snapshots(g, [g], true), w, h, actions), w, h, undos);
  }

  /** Changes that follow a breakpoint: nothing older is touched, and the state
      is clean exactly when none of them did anything. */
  lemma {:induction false} Group(s: Snapshots, w: nat, h: nat, edits: seq<Action>)
    requires s.Valid(w, h) && Doable(w, h, edits)
    requires forall i | 0 <= i < |edits| :: edits[i].Edit?
    ensures var r := Run(s.Broken(), w, h, edits);
            r.past == [s.grid] + s.past && (r.clean ==> r.grid == s.grid)
    decreases |edits|
  {
    if edits != [] {
      Group(s, w, h, edits[..|edits| - 1]);
    }
  }

  /** Undo after a group of changes gives back the map from before the group, if and
      only if one of the changes did something or the group before it had none. */
  lemma UndoTakesBackGroup(s: Snapshots, w: nat, h: nat, edits: seq<Action>)
    requires s.Valid(w, h) && Doable(w, h, edits)
    requires forall i | 0 <= i < |edits| :: edits[i].Edit?
    ensures var r := Run(s.Broken(), w, h, edits);
            && (!r.clean ==> r.Undone().past == [s.grid] + s.past)
            && (r.Undone().grid == s.grid <==> !r.clean || s.past[0] == s.grid)
  {
    Group(s, w, h, edits);
  }

  // ---------- the editor ----------

  class UndoEntry {
    const x: nat
    const y: nat
    const icon: char
    const next: UndoEntry?

    constructor (next: UndoEntry?, x: nat, y: nat, icon: char)
      ensures this.next == next && this.x == x && this.y == y && this.icon == icon
    {
      this.next := next;
      this.x, this.y, this.icon := x, y, icon;
    }
  }

  /** The entries from this one on are the changes of the stack. */
  ghost predicate Holds(entry: UndoEntry?, stack: seq<Change>) {
    if stack == [] then entry == null
    else entry != null && Change(entry.x, entry.y, entry.icon) == stack[0] && Holds(entry.next, stack[1..])
  }

  class MapEditor {
    const width: nat
    const height: nat
    const data: array2<char>
    var undolist: UndoEntry?
    ghost var grid: Grid
    ghost var stack: seq<Change>

    ghost predicate Valid()
      reads this, data
    {
      && 0 < width == data.Length0 && 0 < height == data.Length1
      && Sized(grid, width, height) && Plain(grid, width, height)
      && (forall x, y | 0 <= x < width && 0 <= y < height :: data[x, y] == grid[x][y])
      && Inside(stack, width, height)
      && Holds(undolist, stack)
    }

    /** What an editor that keeps copies would be in. */
    ghost function Abs(): (s: Snapshots)
      requires Valid()
      reads this, data
      ensures s.Valid(width, height)
    {
      AbsValid(grid, width, height, stack);
      Snapshots(grid, Past(grid, width, height, stack), AtBreak(stack))
    }

    constructor (data: array2<char>)
      requires data.Length0 > 0 && data.Length1 > 0
      requires forall x, y | 0 <= x < data.Length0 && 0 <= y < data.Length1 :: data[x, y] != BREAKPOINT
      ensures Valid() && this.data == data
      ensures Abs() == Snapshots(grid, [grid], true)
    {
      width, height := data.Length0, data.Length1;
      this.data := data;
      undolist := null;
      stack := [];
      grid := seq(data.Length0, x requires 0 <= x < data.Length0 reads data =>
                seq(data.Length1, y requires 0 <= y < data.Length1 reads data => data[x, y]));
    }

    method SaveUndoIcon(x: nat, y: nat, icon: char)
      requires Valid() && x < width && y < height
      modifies `undolist, `stack
      ensures Valid() && stack == [Change(x, y, icon)] + old(stack)
    {
      undolist := new UndoEntry(undolist, x, y, icon);
      stack := [Change(x, y, icon)] + stack;
      assert stack[1..] == old(stack);
    }

    method ChangeMapData(x: int, y: int, icon: char, save: bool)
      requires Valid() && Near(x, width) && Near(y, height) && icon != BREAKPOINT
      modifies this, data
      ensures Valid()
      ensures grid == Write(old(grid), width, height, Change(Wrap(x, width), Wrap(y, height), icon))
      ensures save ==> Abs() == old(Abs()).Edited(width, height, Wrap(x, width), Wrap(y, height), icon)
      ensures !save ==> stack == old(stack)
    {
      hide Past, Holds;
      var x1, y1 := x, y;
      if x1 < 0 {
        x1 := x1 + width;
      }
      if y1 < 0 {
        y1 := y1 + height;
      }
      if x1 > width - 1 {
        x1 := x1 - width;
      }
      if y1 > height - 1 {
        y1 := y1 - height;
      }
      if data[x1, y1] == icon {
        WriteSame(grid, width, height, Change(x1, y1, icon));
        return;
      }
      if save {
        PastOfChange(grid, width, height, stack, x1, y1, icon);
        SaveUndoIcon(x1, y1, data[x1, y1]);
      }
      data[x1, y1] := icon;
      grid := Write(grid, width, height, Change(x1, y1, icon));
    }

    method ClearUndo()
      requires Valid()
      modifies `undolist, `stack
      ensures Valid() && grid == old(grid) && Abs() == old(Abs()).Broken()
    {
      SaveUndoIcon(0, 0, BREAKPOINT);
      assert stack[1..] == old(stack);
    }

    method Undo()
      requires Valid()
      modifies this, data
      ensures Valid() && Abs() == old(Abs()).Undone()
    {
      if undolist != null {
        if undolist.icon == BREAKPOINT {
          undolist := undolist.next;
          stack := stack[1..];
        }
      }
      ghost var past := Past(grid, width, height, stack);
      while undolist != null
        invariant Valid() && Past(grid, width, height, stack) == past
        decreases |stack|
      {
        if undolist.icon == BREAKPOINT {
          return;
        }
        ChangeMapData(undolist.x, undolist.y, undolist.icon, false);
        undolist := undolist.next;
        stack := stack[1..];
      }
    }

    /** Fills one column of an area. */
    method FillColumn(i: int, y1: int, y2: int, icon: char)
      requires Valid() && icon != BREAKPOINT && Near(i, width)
      requires 0 <= y1 + height && y2 <= 2 * height
      modifies this, data
      ensures Valid() && Abs().past == old(Abs().past)
      ensures Filled(old(grid), grid, width, height, Wrap(i, width), Wrap(i, width) + 1, y1, y2, icon)
      ensures Abs().clean <==> old(Abs().clean) && grid == old(grid)
    {
      hide Past, AtBreak, Holds, Filled;
      ghost var c := Wrap(i, width);
      var j := y1;
      NothingToFill(grid, width, height, c, c + 1, y1, y1, icon);
      while j < y2
        invariant y1 <= j && (j > y1 ==> j <= y2)
        invariant Valid() && Abs().past == old(Abs().past)
        invariant Filled(old(grid), grid, width, height, c, c + 1, y1, j, icon)
        invariant Abs().clean <==> old(Abs().clean) && grid == old(grid)
        decreases y2 - j
      {
        ghost var now := grid;
        ChangeMapData(i, j, icon, true);
        ColumnGoesOn(old(grid), now, grid, width, height, i, y1, j, icon);
        j := j + 1;
      }
      if y2 < y1 {
        NothingFilled(old(grid), grid, width, height, c, c + 1, c + 1, y1, y1, y2, icon);
      }
    }

    /** Fills an area, which may go over the edges of the map; without one, it
        only marks the place. */
    method FillMapArea(selected: bool, x1: int, y1: int, x2: int, y2: int, icon: char)
      requires Valid() && icon != BREAKPOINT
      requires 0 <= x1 + width && x2 <= 2 * width && 0 <= y1 + height && y2 <= 2 * height
      modifies this, data
      ensures Valid()
      ensures if selected then Filled(old(grid), grid, width, height, x1, x2, y1, y2, icon) else grid == old(grid)
      ensures Abs().past == [old(grid)] + old(Abs().past)
      ensures Abs().clean <==> grid == old(grid)
    {
      hide Past, AtBreak, Holds, Filled;
      ClearUndo();
      if !selected {
        return;
      }
      var i := x1;
      NothingToFill(grid, width, height, x1, x1, y1, y2, icon);
      while i < x2
        invariant x1 <= i && (i > x1 ==> i <= x2)
        invariant Valid() && Abs().past == [old(grid)] + old(Abs().past)
        invariant Filled(old(grid), grid, width, height, x1, i, y1, y2, icon)
        invariant Abs().clean <==> grid == old(grid)
        decreases x2 - i
      {
        ghost var now := grid;
        FillColumn(i, y1, y2, icon);
        AreaGoesOn(old(grid), now, grid, width, height, x1, i, y1, y2, icon);
        i := i + 1;
      }
      if x2 < x1 {
        NothingFilled(old(grid), grid, width, height, x1, x1, x2, y1, y2, y2, icon);
      }
    }
  }

  /** Some place from a up to b wraps around to u. */
  ghost predicate Covered(u: int, a: int, b: int, w: nat) {
    exists i :: a <= i < b && Near(i, w) && Wrap(i, w) == u
  }

  lemma CoverNext(u: int, a: int, b: int, w: nat)
    requires a <= b && Near(b, w)
    ensures Covered(u, a, b + 1, w) <==> Covered(u, a, b, w) || u == Wrap(b, w)
  {
    if Covered(u, a, b, w) {
      var i :| a <= i < b && Near(i, w) && Wrap(i, w) == u;
      assert a <= i < b + 1;
    } else if u == Wrap(b, w) {
      assert a <= b < b + 1;
    }
  }

  /** The cells of the area have the icon now, and no other cell has changed. */
  ghost predicate Filled(was: Grid, now: Grid, w: nat, h: nat, x1: int, x2: int, y1: int, y2: int, icon: char)
    requires Sized(was, w, h) && Sized(now, w, h)
  {
    forall x, y {:trigger now[x][y]} {:trigger was[x][y]} | 0 <= x < w && 0 <= y < h ::
      now[x][y] == if Covered(x, x1, x2, w) && Covered(y, y1, y2, h) then icon else was[x][y]
  }

  lemma NothingToFill(g: Grid, w: nat, h: nat, x1: int, x2: int, y1: int, y2: int, icon: char)
    requires Sized(g, w, h) && (x2 <= x1 || y2 <= y1)
    ensures Filled(g, g, w, h, x1, x2, y1, y2, icon)
  {
  }

  lemma NothingFilled(was: Grid, now: Grid, w: nat, h: nat, x1: int, x2: int, x3: int, y1: int, y2: int, y3: int,
                      icon: char)
    requires Sized(was, w, h) && Sized(now, w, h)
    requires (x2 <= x1 || y2 <= y1) && (x3 <= x1 || y3 <= y1)
    requires Filled(was, now, w, h, x1, x2, y1, y2, icon)
    ensures Filled(was, now, w, h, x1, x3, y1, y3, icon)
  {
  }

  lemma ColumnGoesOn(was: Grid, now: Grid, later: Grid, w: nat, h: nat, i: int, y1: int, j: int, icon: char)
    requires Sized(was, w, h) && Sized(now, w, h) && Near(i, w) && Near(j, h) && y1 <= j
    requires Filled(was, now, w, h, Wrap(i, w), Wrap(i, w) + 1, y1, j, icon)
    requires later == Write(now, w, h, Change(Wrap(i, w), Wrap(j, h), icon))
    ensures Filled(was, later, w, h, Wrap(i, w), Wrap(i, w) + 1, y1, j + 1, icon)
    ensures later == was ==> now == was
    ensures later == now <==> now[Wrap(i, w)][Wrap(j, h)] == icon
  {
    var c := Wrap(i, w);
    ChangedIfDirty(now, w, h, Change(c, Wrap(j, h), icon));
    var d := c + 1;
    forall x | 0 <= x < w ensures Covered(x, c, d, w) <==> x == c {
      CoverNext(x, c, c, w);
    }
    forall y | 0 <= y < h ensures Covered(y, y1, j + 1, h) <==> Covered(y, y1, j, h) || y == Wrap(j, h) {
      CoverNext(y, y1, j, h);
    }
    Painting(was, now, later, w, h, icon);
  }

  lemma AreaGoesOn(was: Grid, now: Grid, later: Grid, w: nat, h: nat, x1: int, i: int, y1: int, y2: int, icon: char)
    requires Sized(was, w, h) && Sized(now, w, h) && Sized(later, w, h) && Near(i, w) && x1 <= i
    requires Filled(was, now, w, h, x1, i, y1, y2, icon)
    requires Filled(now, later, w, h, Wrap(i, w), Wrap(i, w) + 1, y1, y2, icon)
    ensures Filled(was, later, w, h, x1, i + 1, y1, y2, icon)
    ensures later == was ==> now == was
  {
    var c := Wrap(i, w);
    forall x | 0 <= x < w
      ensures Covered(x, c, c + 1, w) <==> x == c
      ensures Covered(x, x1, i + 1, w) <==> Covered(x, x1, i, w) || x == c
    {
      CoverNext(x, c, c, w);
      CoverNext(x, x1, i, w);
    }
    Painting(was, now, later, w, h, icon);
  }

  /** What was once painted over is not as it was, also when more is painted. */
  lemma Painting(was: Grid, now: Grid, later: Grid, w: nat, h: nat, icon: char)
    requires Sized(was, w, h) && Sized(now, w, h) && Sized(later, w, h)
    requires forall x, y | 0 <= x < w && 0 <= y < h :: now[x][y] == was[x][y] || now[x][y] == icon
    requires forall x, y | 0 <= x < w && 0 <= y < h :: later[x][y] == now[x][y] || later[x][y] == icon
    ensures later == was ==> now == was
  {
    if later == was {
      forall x | 0 <= x < w ensures now[x] == was[x] {
      }
    }
  }

  lemma ChangedIfDirty(g: Grid, w: nat, h: nat, c: Change)
    requires Sized(g, w, h) && c.x < w && c.y < h
    ensures Write(g, w, h, c) == g <==> g[c.x][c.y] == c.icon
  {
    if g[c.x][c.y] == c.icon {
      WriteSame(g, w, h, c);
    }
  }

  lemma AbsValid(g: Grid, w: nat, h: nat, stack: seq<Change>)
    requires Sized(g, w, h) && Inside(stack, w, h)
    ensures Snapshots(g, Past(g, w, h, stack), AtBreak(stack)).Valid(w, h)
    decreases |stack|
  {
    if stack != [] {
      if stack[0].icon == BREAKPOINT {
        AbsValid(g, w, h, stack[1..]);
      } else {
        AbsValid(Write(g, w, h, stack[0]), w, h, stack[1..]);
      }
    }
  }
}
