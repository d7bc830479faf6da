/** The map of contrib/wildmap.c: flooding, labelling and partitioning. */
module WildMap {
  import opened RingGraph
  import opened ChunkList
  import opened FloodSpec
  import opened LabelOrder
  import opened LabelSpec
  import opened Thinning
  import opened PartitionSpec

  class Map {
    const ring: Ring
    const data: array<Cell>
    const floodCount: array<int>
    var floodMarker: int
    var floodTrigger: int

    ghost predicate Valid()
    {
      && ring.Valid()
      && data.Length == ring.datasize
      && floodCount.Length == 256
      && data as object != floodCount
    }

    /** Marks the cell and queues it if it is still unmarked. */
    method Visit(w: Worklist, j: int, ghost d0: seq<Cell>, ghost i: int, ghost queued: seq<int>, ghost k: int)
      returns (ghost longer: seq<int>)
      requires Valid() && |d0| == ring.datasize && 0 <= floodMarker < 256 && floodTrigger != floodMarker
      requires w.Valid() && data !in w.Repr && w.items != [] && |w.items[|w.items| - 1]| < INTARR_SIZE
      requires k in queued && ring.Adjacent(k, j)
      requires Flooding(ring, d0, data[..], i, floodTrigger, floodMarker, queued, w.items, {k})
      modifies data, w`items, w.putp`n, w.putp.arr
      ensures w.Valid()
      ensures |w.items| == |old(w.items)| && |w.items[|w.items| - 1]| <= |old(w.items)[|w.items| - 1]| + 1
      ensures Flooding(ring, d0, data[..], i, floodTrigger, floodMarker, longer, w.items, {k})
      ensures (longer == queued && w.items == old(w.items)) || |longer| == |queued| + 1
      ensures k in longer && data[j] != floodTrigger
      ensures forall b | 0 <= b < data.Length && old(data[b]) != floodTrigger :: data[b] != floodTrigger
    {
      hide Flooding, Ring.Adjacent;
      AdjacentBothWays(ring, k, j);
      longer := queued;
      if data[j] == floodTrigger {
        FloodPuts(ring, d0, data[..], i, floodTrigger, floodMarker, queued, w.items, k, j);
        ghost var m: Cell := floodMarker;
        ghost var after := data[..][j := m];
        data[j] := floodMarker;
        assert data[..] == after;
        w.Put(j);
        longer := queued + [j];
      }
    }

    /** Visits the four neighbours of cell k. */
    method LookAround(w: Worklist, k: int, ghost d0: seq<Cell>, ghost i: int, ghost queued: seq<int>)
      returns (ghost longer: seq<int>)
      requires Valid() && |d0| == ring.datasize && 0 <= floodMarker < 256 && floodTrigger != floodMarker
      requires w.Valid() && data !in w.Repr && w.items != [] && |w.items[|w.items| - 1]| + 4 <= INTARR_SIZE
      requires k in queued && ring.Has(k)
      requires Flooding(ring, d0, data[..], i, floodTrigger, floodMarker, queued, w.items, {k})
      modifies data, w`items, w.putp`n, w.putp.arr
      ensures w.Valid() && w.items != []
      ensures (longer == queued && w.items == old(w.items)) || |longer| > |queued|
      ensures Flooding(ring, d0, data[..], i, floodTrigger, floodMarker, longer, w.items, {})
      ensures |longer| <= |Holding(d0, floodTrigger)|
    {
      hide Flooding, Ring.Adjacent, Ring.Up, Ring.Left, Ring.Down, Ring.Right;
      AroundCell(ring, k);
      longer := Visit(w, ring.Up(k), d0, i, queued, k);
      longer := Visit(w, ring.Left(k), d0, i, longer, k);
      longer := Visit(w, ring.Down(k), d0, i, longer, k);
      longer := Visit(w, ring.Right(k), d0, i, longer, k);
      FloodCloses(ring, d0, data[..], i, floodTrigger, floodMarker, longer, w.items, k);
      FloodFits(ring, d0, data[..], i, floodTrigger, floodMarker, longer, w.items, {});
    }

    /** Takes one queued cell and looks at its four neighbours. */
    method FloodFrom(w: Worklist, ghost d0: seq<Cell>, ghost i: int, ghost queued: seq<int>)
      returns (ghost longer: seq<int>)
      requires Valid() && |d0| == ring.datasize && 0 <= floodMarker < 256 && floodTrigger != floodMarker
      requires w.Valid() && data !in w.Repr && this !in w.Repr && w.items != [] && |w.items[0]| > 0
      requires Flooding(ring, d0, data[..], i, floodTrigger, floodMarker, queued, w.items, {})
      modifies data, w.Repr
      ensures w.Valid() && fresh(w.Repr - old(w.Repr)) && w.items != []
      ensures Flooding(ring, d0, data[..], i, floodTrigger, floodMarker, longer, w.items, {})
      ensures |queued| <= |longer| <= |Holding(d0, floodTrigger)|
      ensures |longer| == |queued| ==>
                && |w.items| + Crowded(w.items) <= |old(w.items)| + Crowded(old(w.items))
                && |w.items[0]| < |old(w.items)[0]|
    {
      hide Flooding, Ring.Adjacent, Worklist.Valid, Holding;
      FloodTakes(ring, d0, data[..], i, floodTrigger, floodMarker, queued, w.items);
      w.Ends();
      var k := w.Take();
      w.Ends();
      FloodReserves(ring, d0, data[..], i, floodTrigger, floodMarker, queued, w.items, {k});
      w.Reserve();
      w.Ends();
      QueuedOnRing(ring, d0, data[..], i, floodTrigger, floodMarker, queued, w.items, {k}, k);
      longer := LookAround(w, k, d0, i, queued);
    }

    /** Connects all neighbouring cells that hold the trigger value to cell i
        and marks them. The ghost result lists the cells in the order queued. */
    method FloodMap(i: int) returns (ghost queued: seq<int>)
      requires Valid() && ring.Has(i) && 0 <= floodMarker < 256 && floodTrigger != floodMarker
      modifies data
      ensures data[..] == Flooded(ring, old(data[..]), i, floodTrigger, floodMarker)
      ensures Distinct(queued)
      ensures forall j :: j in queued <==> j in ring.Component(Holding(old(data[..]), floodTrigger), i)
    {
      hide Flooding, Ring.Adjacent;
      ghost var d0 := data[..];
      queued := [];
      if data[i] != floodTrigger {
        NothingToFlood(ring, d0, i, floodTrigger, floodMarker);
        return;
      }
      FloodStarts(ring, d0, i, floodTrigger, floodMarker);
      data[i] := floodMarker;
      ghost var m: Cell := floodMarker;
      queued := [i];
      var w := new Worklist(i);
      assert data[..] == d0[i := m];
      ghost var room := |Holding(d0, floodTrigger)|;
      while w.getp != null
        invariant w.Valid() && fresh(w.Repr) && fresh(w)
        invariant Flooding(ring, d0, data[..], i, floodTrigger, floodMarker, queued, w.items, {})
        decreases room - |queued|, |w.items| + Crowded(w.items)
      {
        ghost var queued0, items0 := queued, w.items;
        FloodFits(ring, d0, data[..], i, floodTrigger, floodMarker, queued, w.items, {});
        while w.getp.n > 0
          invariant w.Valid() && fresh(w.Repr) && w.items != []
          invariant Flooding(ring, d0, data[..], i, floodTrigger, floodMarker, queued, w.items, {})
          invariant || |queued| > |queued0|
                    || (|queued| == |queued0| && |w.items| + Crowded(w.items) <= |items0| + Crowded(items0))
          decreases room - |queued|, |w.items[0]|
        {
          queued := FloodFrom(w, d0, i, queued);
        }
        FloodNext(ring, d0, data[..], i, floodTrigger, floodMarker, queued, w.items);
        w.Next();
      }
      FloodDone(ring, d0, data[..], i, floodTrigger, floodMarker, queued);
    }

    /** Counts the occurrences of each map value. */
    method CountLabels()
      requires Valid()
      modifies floodCount
      ensures Counted(floodCount[..], data[..])
    {
      forall v | 0 <= v < 256 {
        floodCount[v] := 0;
      }
      var todo := ring.datasize;
      while todo > 0
        invariant 0 <= todo <= ring.datasize
        invariant forall v | 0 <= v < 256 :: floodCount[v] == |HoldingFrom(data[..], v, todo)|
      {
        todo := todo - 1;
        HoldingFromNext(data[..], todo);
        floodCount[data[todo]] := floodCount[data[todo]] + 1;
      }
      forall v | 0 <= v < 256
        ensures HoldingFrom(data[..], v, 0) == Holding(data[..], v)
      {
      }
    }

    /** Orders the labels from 2 up by how many cells carry them, most first, and
        labels with equally many by value. The ghost result is the inverse of the
        permutation left in tbl. */
    method SortLabels(tbl: array<int>) returns (ghost pos: seq<int>)
      requires Valid() && tbl.Length == 256 && tbl != floodCount && tbl as object != data
      modifies floodCount, tbl
      ensures Counted(floodCount[..], data[..])
      ensures Sorted(floodCount[..], tbl[..], pos, 256)
    {
      hide InverseBut, SortedBy;
      CountLabels();
      ghost var d, counts := data[..], floodCount[..];
      forall v | 0 <= v < 256 {
        tbl[v] := 0;
      }
      assert data[..] == d && floodCount[..] == counts;
      tbl[0] := 0;
      tbl[1] := 1;
      pos := seq(256, v => v);
      SortStarts(floodCount[..], tbl[..], pos);
      var n := 2;
      for i := 2 to 256
        invariant n == i
        invariant data[..] == d && floodCount[..] == counts
        invariant Sorted(floodCount[..], tbl[..], pos, n)
      {
        pos := InsertLabel(tbl, i, n, pos);
        n := n + 1;
      }
    }

    /** Replaces each cell's value by its entry in a table. */
    method Relabel(del: array<int>)
      requires Valid() && del.Length == 256 && del as object != data
      requires forall j | 0 <= j < data.Length :: 0 <= del[data[j]] < 256
      modifies data
      ensures Relabelled(old(data[..]), data[..], del[..])
    {
      var todo := ring.datasize;
      while todo > 0
        invariant 0 <= todo <= ring.datasize
        invariant forall j | 0 <= j < todo :: data[j] == old(data[j])
        invariant forall j | todo <= j < data.Length :: data[j] == del[old(data[j])]
      {
        todo := todo - 1;
        data[todo] := del[data[todo]];
      }
    }

    /** Frees the labels from 224 on: the 222 labels that most cells carry are
        kept, renumbered by size, and the cells of all others become 0. */
    method FreeLabels(tbl: array<int>, del: array<int>)
      requires Valid() && tbl.Length == del.Length == 256 && tbl != del && tbl != floodCount && del != floodCount
      requires tbl as object != data && del as object != data
      modifies data, floodCount, tbl, del
      ensures Compacting(del[..], 224) && Relabelled(old(data[..]), data[..], del[..])
      ensures forall v, w | 2 <= v < 256 && 2 <= w < 256 && del[v] != 0 && (del[w] == 0 || del[v] < del[w]) ::
                |Holding(old(data[..]), v)| >= |Holding(old(data[..]), w)|
      ensures FewDropped(old(data[..]), del[..])
    {
      ghost var d0 := data[..];
      ghost var pos := SortLabels(tbl);
      FillTable(tbl, del, pos);
      DroppedAreSmaller(floodCount[..], tbl[..], pos, del[..]);
      DroppedAreRare(d0, floodCount[..], tbl[..], pos, del[..]);
      assert data[..] == d0;
      Relabel(del);
    }

    static method FillTable(tbl: array<int>, del: array<int>, ghost pos: seq<int>)
      requires tbl.Length == del.Length == 256 && tbl != del && Inverse(tbl[..], pos, 256)
      modifies del
      ensures forall v | 0 <= v < 256 :: del[v] == if pos[v] < 224 then pos[v] else 0
    {
      for i := 0 to 224
        invariant forall v | 0 <= v < 256 && pos[v] < i :: del[v] == pos[v]
      {
        del[tbl[i]] := i;
      }
      for i := 224 to 256
        invariant forall v | 0 <= v < 256 && pos[v] < i :: del[v] == if pos[v] < 224 then pos[v] else 0
      {
        del[tbl[i]] := 0;
      }
    }

    /** Gives each component of the cells that hold the value a label of its
        own, dropping small components when labels run out. */
    method LabelMap(value: int)
      requires Valid() && 0 <= value < 256
      modifies `floodMarker, `floodTrigger, data, floodCount
      ensures WellLabelled(ring, Holding(old(data[..]), value), data[..])
    {
      hide Labelling, AllKept, Labelled, Components, Flooded, BigOnesKept;
      ghost var d0 := data[..];
      ghost var s := Holding(d0, value);
      var tbl := new int[256](_ => 0);
      var del := new int[256](_ => 0);
      tbl[value] := 1;
      Relabel(tbl);
      LabellingStarts(ring, d0, value, data[..]);
      floodTrigger := 1;
      floodMarker := 2;
      ghost var reps: seq<int> := [];
      ghost var dropped := false;
      var todo := ring.datasize;
      while todo > 0
        invariant 0 <= todo <= ring.datasize && floodTrigger == 1
        invariant Labelling(ring, s, data[..], floodMarker) && BigOnesKept(ring, s, data[..])
        invariant forall j | todo <= j < data.Length :: data[j] != 1
        invariant KeptUnless(ring, s, data[..], floodMarker, reps, dropped)
      {
        todo := todo - 1;
        if data[todo] == floodTrigger {
          reps, dropped := LabelFrom(todo, tbl, del, s, reps, dropped);
        }
      }
      LabellingDone(ring, s, data[..], floodMarker);
      KeptAll(ring, s, data[..], floodMarker, reps, dropped);
    }

    /** Labels the component of cell i, after making room for a label if needed. */
    method LabelFrom(i: int, tbl: array<int>, del: array<int>, ghost s: set<int>, ghost reps0: seq<int>,
                     ghost dropped0: bool)
      returns (ghost reps: seq<int>, ghost dropped: bool)
      requires Valid() && ring.Has(i) && data[i] == floodTrigger == 1
      requires tbl.Length == del.Length == 256 && tbl != del && tbl != floodCount && del != floodCount
      requires tbl as object != data && del as object != data
      requires Labelling(ring, s, data[..], floodMarker) && BigOnesKept(ring, s, data[..])
      requires KeptUnless(ring, s, data[..], floodMarker, reps0, dropped0)
      modifies `floodMarker, data, floodCount, tbl, del
      ensures Labelling(ring, s, data[..], floodMarker) && BigOnesKept(ring, s, data[..]) && data[i] != 1
      ensures forall j | 0 <= j < data.Length && old(data[j]) != 1 :: data[j] != 1
      ensures KeptUnless(ring, s, data[..], floodMarker, reps, dropped)
    {
      hide Labelling, AllKept, Labelled, Components, Flooded, Ring.Valid, BigOnesKept, FewDropped;
      reps, dropped := reps0, dropped0;
      MarkerAtMost(ring, s, data[..], floodMarker);
      if floodMarker >= 256 {
        ghost var d := data[..];
        if !dropped {
          LabelsRunOut(ring, s, d, reps, i);
          dropped := true;
        }
        FreeLabels(tbl, del);
        CompactLabels(ring, s, d, data[..], 256, del[..], 224);
        CompactKeepsBig(ring, s, d, data[..], 256, del[..]);
        floodMarker := 224;
      }
      FloodLabels(ring, s, data[..], floodMarker, i);
      FloodKeepsBig(ring, s, data[..], floodMarker, i);
      if !dropped {
        FloodKeeps(ring, s, data[..], floodMarker, i, reps);
        reps := reps + [i];
      }
      FloodsSelf(ring, data[..], i, floodMarker);
      ghost var queued := FloodMap(i);
      floodMarker := floodMarker + 1;
    }

    /** Picks the value that most cells carry: 0, or the first bigger label. */
    method FindMainLabel() returns (marker: int)
      requires Valid()
      modifies floodCount
      ensures MainLabel(data[..], marker)
    {
      CountLabels();
      marker := 0;
      for i := 2 to 256
        invariant marker == 0 || 2 <= marker < i
        invariant forall v | 2 <= v < i :: floodCount[marker] >= floodCount[v]
        invariant forall v | 2 <= v < marker :: floodCount[marker] > floodCount[v]
        invariant marker != 0 ==> floodCount[marker] > floodCount[0]
        invariant Counted(floodCount[..], data[..])
      {
        if floodCount[i] > floodCount[marker] {
          marker := i;
        }
      }
    }

    /** Removes the holes, and then small walls until enough is open. The ghost
        results are the label picked out and the two labelled maps in between. */
    method PartitionMap(fillRatio: real) returns (ghost first: seq<Cell>, ghost marker: int, ghost second: seq<Cell>)
      requires Valid() && 0.0 <= fillRatio
      modifies `floodMarker, `floodTrigger, data, floodCount
      ensures Partitioned(ring, fillRatio, old(data[..]), first, marker, second, data[..])
      ensures marker != 0 <==> LabelOutnumbers(first)
      ensures marker != 0 ==> BigSpace(ring, old(data[..])) && ring.OneRegion(Holding(data[..], 0))
      ensures HugeSpace(ring, old(data[..])) ==> marker != 0
      ensures |Components(ring, Holding(old(data[..]), 0))| <= 254 ==>
                && (marker != 0 <==> BigSpace(ring, old(data[..])))
                && (marker == 0 && Excess(ring.datasize, |Outside(old(data[..]), 0)|, fillRatio) < 0 ==>
                      (ring.OneRegion(Holding(data[..], 0)) <==> ring.OneRegion(Outside(old(data[..]), 0))))
      ensures Wanted(ring.datasize, fillRatio) >= 1 ==>
                (ring.datasize - |Holding(data[..], 0)| < Wanted(ring.datasize, fillRatio)
                 <==> !TwoSpared(second, Excess(ring.datasize, |Holding(second, 0)|, fillRatio)))
    {
      hide WellLabelled, Thinned, Ring.OneRegion, Labelled, TwoSpared, Wanted;
      ghost var d0 := data[..];
      LabelMap(0);
      first := data[..];
      var main := FindMainLabel();
      marker := main;
      assert data[..] == first;
      var tbl := new int[256](_ => 0);
      tbl[main] := 1;
      Relabel(tbl);
      assert Holding(data[..], 0) == Outside(first, marker);
      LabelMap(0);
      second := data[..];
      ThinOut(fillRatio);
      RatioMet(ring, fillRatio, d0, first, marker, second, data[..]);
      MainFromInput(ring, d0, first);
      if LabelOutnumbers(first) {
        NoHoles(ring, fillRatio, d0, first, marker, second, data[..]);
      }
      if |Components(ring, Holding(d0, 0))| <= 254 {
        OneSpaceIff(ring, fillRatio, d0, first, marker, second, data[..]);
      }
    }

    /** Clears whole labels, the rarest first, until enough cells are open. */
    method ThinOut(fillRatio: real)
      requires Valid() && 0.0 <= fillRatio
      modifies data, floodCount
      ensures Thinned(ring, fillRatio, old(data[..]), data[..])
    {
      hide Sorted, Counted, Tail, Spared, Small, CutAt;
      ghost var d := data[..];
      var tbl := new int[256];
      var del := new int[256];
      ghost var pos := SortLabels(tbl);
      ghost var counts, sorted := floodCount[..], tbl[..];
      SortedPlaces(counts, sorted, pos);
      CountOf(counts, d, 0);
      for i := 0 to 256
        invariant data[..] == d && floodCount[..] == counts && tbl[..] == sorted
        invariant forall v | 0 <= v < 256 && pos[v] < i :: del[v] == v
      {
        assert tbl[i] == sorted[i];
        del[tbl[i]] := tbl[i];
      }
      var excess := Excess(ring.datasize, floodCount[0], fillRatio);
      var i, count := FindCut(tbl, excess, pos);
      SmallFromCut(d, counts, sorted, pos, excess, i);
      CutPlace(d, pos, excess, i);
      if i < 256 {
        ClearSmall(tbl, del, i, count, excess, pos);
        assert data[..] == d;
        Relabel(del);
      }
    }

    /** Counts the cells of the rarest labels until more than the excess would go. */
    method FindCut(tbl: array<int>, excess: int, ghost pos: seq<int>) returns (i: int, count: int)
      requires Valid() && tbl.Length == 256
      requires Counted(floodCount[..], data[..]) && Sorted(floodCount[..], tbl[..], pos, 256)
      ensures |pos| == 256 && CutAt(data[..], pos, excess, i) && count == |Tail(data[..], pos, i)|
    {
      hide Sorted, Counted, Tail;
      SortedPlaces(floodCount[..], tbl[..], pos);
      TailEnds(data[..], floodCount[..], tbl[..], pos);
      count := 0;
      i := 255;
      while i >= 2
        invariant 1 <= i <= 255
        invariant count == |Tail(data[..], pos, i + 1)|
        invariant forall k | i + 1 < k <= 256 :: |Tail(data[..], pos, k)| <= excess
      {
        if excess < count {
          break;
        }
        TailNext(data[..], floodCount[..], tbl[..], pos, i);
        count := count + floodCount[tbl[i]];
        i := i - 1;
      }
      i := i + 1;
    }

    /** Of the labels from place i on, sets all to 0 that are not spared. */
    method ClearSmall(tbl: array<int>, del: array<int>, i: int, count: int, excess: int, ghost pos: seq<int>)
      requires Valid() && tbl.Length == del.Length == 256 && tbl != del && del != floodCount && del as object != data
      requires |pos| == 256 && Counted(floodCount[..], data[..]) && Sorted(floodCount[..], tbl[..], pos, 256)
      requires CutAt(data[..], pos, excess, i) && i < 256 && count == |Tail(data[..], pos, i)|
      requires forall v | 0 <= v < 256 :: del[v] == v
      modifies del
      ensures forall v | 0 <= v < 256 ::
                del[v] == if Small(data[..], excess, v) && !Spared(data[..], excess, v) then 0 else v
    {
      hide Sorted, Counted, Tail, Spared, Small, CutAt;
      ghost var d, counts, sorted := data[..], floodCount[..], tbl[..];
      SortedPlaces(counts, sorted, pos);
      CutPlace(d, pos, excess, i);
      SmallFromCut(d, counts, sorted, pos, excess, i);
      for j := i + 1 to 256
        invariant data[..] == d && floodCount[..] == counts && tbl[..] == sorted
        invariant forall v | 0 <= v < 256 :: del[v] == if i < pos[v] < j && !Spared(d, excess, v) then 0 else v
      {
        SparedByTest(d, counts, sorted, pos, excess, i, sorted[j]);
        if count - floodCount[tbl[j]] > excess && 2 * floodCount[tbl[j]] >= floodCount[tbl[i]] {
          continue;
        }
        del[tbl[j]] := 0;
      }
      SparedByTest(d, counts, sorted, pos, excess, i, sorted[i]);
      del[tbl[i]] := 0;
    }

    /** Inserts label i, moving the labels with smaller counts one place up. */
    method InsertLabel(tbl: array<int>, i: int, n: int, ghost pos0: seq<int>) returns (ghost pos: seq<int>)
      requires Valid() && tbl.Length == 256 && tbl != floodCount && 2 <= i == n < 256
      requires Sorted(floodCount[..], tbl[..], pos0, n)
      modifies tbl
      ensures Sorted(floodCount[..], tbl[..], pos, n + 1)
    {
      hide Inserting, Sorted;
      ghost var counts := floodCount[..];
      var j := n;
      InsertStarts(counts, tbl[..], pos0, n);
      pos := pos0[i := j];
      while j > 2
        invariant 2 <= j <= n && floodCount[..] == counts
        invariant Inserting(counts, tbl[..], pos, n + 1, j, i)
      {
        ghost var before := tbl[..];
        InsertAt(counts, before, pos, n + 1, j, i);
        if floodCount[i] > floodCount[tbl[j - 1]] {
          InsertMoves(counts, before, pos, n + 1, j, i);
          pos := pos[tbl[j - 1] := j][i := j - 1];
          tbl[j] := tbl[j - 1];
          assert tbl[..] == before[j := before[j - 1]];
        } else {
          break;
        }
        j := j - 1;
      }
      ghost var before := tbl[..];
      InsertAt(counts, before, pos, n + 1, j, i);
      InsertEnds(counts, before, pos, n + 1, j, i);
      tbl[j] := i;
      assert tbl[..] == before[j := i];
    }
  }

  lemma DroppedAreSmaller(count: seq<int>, tbl: seq<int>, pos: seq<int>, del: seq<int>)
    requires Sorted(count, tbl, pos, 256) && |del| == 256
    requires forall v | 0 <= v < 256 :: del[v] == if pos[v] < 224 then pos[v] else 0
    ensures Compacting(del, 224)
    ensures forall v, w | 2 <= v < 256 && 2 <= w < 256 && del[v] != 0 && (del[w] == 0 || del[v] < del[w]) ::
              count[v] >= count[w]
  {
    assert pos[0] == 0 && pos[1] == 1;
    forall v, w | 2 <= v < 256 && 2 <= w < 256 && del[v] != 0 && (del[w] == 0 || del[v] < del[w])
      ensures count[v] >= count[w]
    {
      assert count[tbl[pos[v]]] >= count[tbl[pos[w]]];
    }
  }

  lemma DroppedAreRare(d: seq<Cell>, count: seq<int>, tbl: seq<int>, pos: seq<int>, del: seq<int>)
    requires Counted(count, d) && Sorted(count, tbl, pos, 256) && |del| == 256
    requires forall v | 0 <= v < 256 :: del[v] == if pos[v] < 224 then pos[v] else 0
    ensures FewDropped(d, del)
  {
    forall v | 2 <= v < 256 && del[v] == 0
      ensures 223 * |Holding(d, v)| <= |Carrying(d)|
    {
      PlacesInOrder(d, count, tbl, pos, v, v);
      LateLabelIsRare(d, count, tbl, pos, v);
    }
  }

  ghost function HoldingFrom(d: seq<Cell>, v: int, from: int): set<int>
    requires 0 <= from
  {
    set j | from <= j < |d| && d[j] == v
  }

  lemma HoldingFromNext(d: seq<Cell>, k: int)
    requires 0 <= k < |d|
    ensures forall v :: |HoldingFrom(d, v, k)| == |HoldingFrom(d, v, k + 1)| + if v == d[k] then 1 else 0
  {
    forall v
      ensures |HoldingFrom(d, v, k)| == |HoldingFrom(d, v, k + 1)| + if v == d[k] then 1 else 0
    {
      if v == d[k] {
        assert HoldingFrom(d, v, k) == HoldingFrom(d, v, k + 1) + {k};
      } else {
        assert HoldingFrom(d, v, k) == HoldingFrom(d, v, k + 1);
      }
    }
  }
}
