/** The chunked worklist of Flood_map in contrib/wildmap.c. */
module ChunkList {
  import opened RingGraph

  const INTARR_SIZE := 1024

  /** One chunk of the worklist. */
  class IntArr {
    var next: IntArr?
    var n: int
    const arr: array<int>

    constructor ()
      ensures next == null && n == 0 && arr.Length == INTARR_SIZE && fresh(arr)
    {
      next, n := null, 0;
      arr := new int[INTARR_SIZE];
    }
  }

  /** Chunks from the one being read to the one being written, oldest first.
      The two ends are the same chunk until the written one fills up. */
  class Worklist {
    var getp: IntArr?
    var putp: IntArr
    ghost var chunks: seq<IntArr>
    ghost var items: seq<seq<int>>  // what the chunks hold
    ghost var Repr: set<object>

    ghost predicate Valid()
      reads this, Repr
    {
      && this in Repr
      && |items| == |chunks|
      && (forall i | 0 <= i < |chunks| :: chunks[i] in Repr && chunks[i].arr in Repr && Holds(chunks[i], items[i]))
      && (forall i, j | 0 <= i < j < |chunks| :: chunks[i] != chunks[j] && chunks[i].arr != chunks[j].arr)
      && (forall i | 0 <= i < |chunks| - 1 :: chunks[i].next == chunks[i + 1])
      && (if chunks == [] then getp == null
          else getp == chunks[0] && putp == chunks[|chunks| - 1] && putp.next == null)
    }

    static ghost predicate Holds(c: IntArr, s: seq<int>)
      reads c, c.arr
    {
      && c.arr.Length == INTARR_SIZE
      && c.n == |s| <= INTARR_SIZE
      && (forall k | 0 <= k < |s| :: c.arr[k] == s[k])
    }

    constructor (i: int)
      ensures Valid() && fresh(Repr)
      ensures items == [[i]]
    {
      var c := new IntArr();
      getp, putp := c, c;
      chunks := [c];
      items := [[i]];
      Repr := {this, c, c.arr};
      new;
      c.n := 1;
      c.arr[0] := i;
    }

    lemma Ends()
      requires Valid()
      ensures this in Repr && |items| == |chunks|
      ensures getp == null <==> items == []
      ensures items != [] ==> getp in Repr && getp.n == |items[0]|
      ensures items != [] ==> putp in Repr && putp.arr in Repr
    {
    }

    /** Takes the newest entry of the chunk being read. */
    method Take() returns (k: int)
      requires Valid() && chunks != [] && |items[0]| > 0
      modifies this`items, getp`n
      ensures Valid()
      ensures var q := old(items); k == q[0][|q[0]| - 1] && items == q[0 := q[0][..|q[0]| - 1]]
    {
      getp.n := getp.n - 1;
      k := getp.arr[getp.n];
      items := items[0 := items[0][..getp.n]];
    }

    /** Starts a new chunk when the written one has no room for four more. */
    method Reserve()
      requires Valid() && chunks != []
      modifies this, putp`next
      ensures Valid() && Repr >= old(Repr) && fresh(Repr - old(Repr))
      ensures var q := old(items); items == if |q[|q| - 1]| + 4 > INTARR_SIZE then q + [[]] else q
    {
      if putp.n + 4 > INTARR_SIZE {
        var c := new IntArr();
        putp.next := c;
        putp := c;
        chunks := chunks + [c];
        items := items + [[]];
        Repr := Repr + {c, c.arr};
      }
    }

    method Put(j: int)
      requires Valid() && chunks != [] && |items[|items| - 1]| < INTARR_SIZE
      modifies this`items, putp`n, putp.arr
      ensures Valid()
      ensures var q := old(items); items == q[|q| - 1 := q[|q| - 1] + [j]]
    {
      putp.arr[putp.n] := j;
      putp.n := putp.n + 1;
      items := items[|items| - 1 := items[|items| - 1] + [j]];
    }

    method Next()
      requires Valid() && chunks != []
      modifies this
      ensures Valid() && Repr == old(Repr)
      ensures items == old(items)[1..]
    {
      getp := getp.next;
      chunks := chunks[1..];
      items := items[1..];
    }
  }
}
