/** The sound sources of the OpenAL driver (src/client/oalaudio.c): a ring of
    sources to be reused and a list of looping sounds, which trade nodes. */
module SoundRing {

  const MAX_SOUNDS := 16
  const VOL_THRESHOLD := 10

  class Sound {
    var sample: int   // which sample it plays
    var volume: int
    var updated: int  // the frame in which it was last asked for
    var next: Sound?

    constructor ()
      ensures sample == 0 && volume == 0 && updated == 0
    {
      sample, volume, updated, next := 0, 0, 0, null;
    }
  }

  ghost predicate Distinct(s: seq<Sound>) {
    forall i, j | 0 <= i < j < |s| :: s[i] != s[j]
  }

  /** No node is in both sequences or twice in one of them. */
  ghost predicate Apart(a: seq<Sound>, b: seq<Sound>) {
    Distinct(a) && Distinct(b) && forall i, j | 0 <= i < |a| && 0 <= j < |b| :: a[i] != b[j]
  }

  ghost function Both(a: seq<Sound>, b: seq<Sound>): set<Sound> {
    (set s | s in a) + (set s | s in b)
  }

  lemma Moves(a: seq<Sound>, b: seq<Sound>)
    requires Apart(a, b) && |a| > 1
    ensures Apart([a[0]] + a[2..], [a[1]] + b)
    ensures Both([a[0]] + a[2..], [a[1]] + b) == Both(a, b)
  {
    var c, d := [a[0]] + a[2..], [a[1]] + b;
    assert forall i | 1 <= i < |c| :: c[i] == a[i + 1];
    assert forall i | 1 <= i < |d| :: d[i] == b[i - 1];
    assert a == [a[0]] + [a[1]] + a[2..];
  }

  lemma Rotates(a: seq<Sound>, b: seq<Sound>)
    requires Apart(a, b) && |a| > 1
    ensures Apart(a[1..] + [a[0]], b)
    ensures Both(a[1..] + [a[0]], b) == Both(a, b)
  {
    assert a == [a[0]] + a[1..];
  }

  /** The nodes of s are linked in this order, and the last one is linked to end. */
  ghost predicate Linked(s: seq<Sound>, end: Sound?)
    reads s
  {
    && (forall i | 0 <= i < |s| - 1 :: s[i].next == s[i + 1])
    && (|s| > 0 ==> s[|s| - 1].next == end)
  }

  /** Which of the sounds were asked for in this frame or the last one. */
  ghost function Wanted(s: seq<Sound>, loops: int): (keep: seq<bool>)
    reads s
    ensures |keep| == |s| && forall i | 0 <= i < |s| :: keep[i] <==> s[i].updated >= loops - 1
  {
    if s == [] then [] else [s[0].updated >= loops - 1] + Wanted(s[1..], loops)
  }

  /** The nodes to keep, in their order. */
  ghost function Kept(s: seq<Sound>, keep: seq<bool>): seq<Sound>
    requires |s| == |keep|
  {
    if s == [] then []
    else Kept(s[..|s| - 1], keep[..|s| - 1]) + if keep[|s| - 1] then [s[|s| - 1]] else []
  }

  /** The other nodes, the last of them first. */
  ghost function Stopped(s: seq<Sound>, keep: seq<bool>): seq<Sound>
    requires |s| == |keep|
  {
    if s == [] then []
    else (if keep[|s| - 1] then [] else [s[|s| - 1]]) + Stopped(s[..|s| - 1], keep[..|s| - 1])
  }

  lemma KeptNext(s: seq<Sound>, keep: seq<bool>, k: int)
    requires |s| == |keep| && 0 <= k < |s|
    ensures Kept(s[..k + 1], keep[..k + 1]) == Kept(s[..k], keep[..k]) + if keep[k] then [s[k]] else []
    ensures Stopped(s[..k + 1], keep[..k + 1]) == (if keep[k] then [] else [s[k]]) + Stopped(s[..k], keep[..k])
  {
    assert s[..k + 1][..k] == s[..k] && keep[..k + 1][..k] == keep[..k];
  }

  ghost predicate OneKept(x: Sound, s: seq<Sound>, keep: seq<bool>)
    requires |s| == |keep|
  {
    exists j :: 0 <= j < |s| && keep[j] && x == s[j]
  }

  lemma {:induction false} KeptWanted(s: seq<Sound>, keep: seq<bool>, i: int)
    requires |s| == |keep| && 0 <= i < |Kept(s, keep)|
    ensures OneKept(Kept(s, keep)[i], s, keep)
  {
    var n := |s| - 1;
    if i < |Kept(s[..n], keep[..n])| {
      KeptWanted(s[..n], keep[..n], i);
      var j :| 0 <= j < n && keep[..n][j] && Kept(s[..n], keep[..n])[i] == s[..n][j];
      assert keep[j] && Kept(s, keep)[i] == s[j];
    } else {
      assert keep[n] && Kept(s, keep)[i] == s[n];
    }
  }

  /** The first k nodes of the list have been looked at: those to keep are still in
      the list, the last of them is prev, and the others are in the ring, between its
      first node and its tail. */
  ghost predicate Swept(list: seq<Sound>, keep: seq<bool>, tail: seq<Sound>, k: int, ring: Sound,
          inList: seq<Sound>, inRing: seq<Sound>, prev: Sound?)
    requires |list| == |keep| && 0 <= k <= |list|
  {
    var front := Kept(list[..k], keep[..k]);
    && inList == front + list[k..]
    && prev == (if front == [] then null else front[|front| - 1])
    && inRing == [ring] + Stopped(list[..k], keep[..k]) + tail
  }

  lemma SweepStarts(list: seq<Sound>, keep: seq<bool>, inRing: seq<Sound>)
    requires |list| == |keep| && |inRing| >= 1
    ensures Swept(list, keep, inRing[1..], 0, inRing[0], list, inRing, null)
  {
  }

  /** Where the next node to look at is, and what the list and the ring are after that. */
  lemma SweepGoesOn(list: seq<Sound>, keep: seq<bool>, tail: seq<Sound>, k: int, ring: Sound,
          inList: seq<Sound>, inRing: seq<Sound>, prev: Sound?)
      returns (at: int)
    requires |list| == |keep| && 0 <= k < |list|
    requires Swept(list, keep, tail, k, ring, inList, inRing, prev)
    ensures 0 <= at < |inList| && inList[at] == list[k] && prev == if at == 0 then null else inList[at - 1]
    ensures at + 1 < |inList| <==> k + 1 < |list|
    ensures k + 1 < |list| ==> inList[at + 1] == list[k + 1]
    ensures keep[k] ==> Swept(list, keep, tail, k + 1, ring, inList, inRing, list[k])
    ensures !keep[k] ==> Swept(list, keep, tail, k + 1, ring, inList[..at] + inList[at + 1..],
                               [ring, list[k]] + inRing[1..], prev)
  {
    hide Kept, Stopped;
    KeptNext(list, keep, k);
    var front := Kept(list[..k], keep[..k]);
    at := |front|;
    assert list[k..] == [list[k]] + list[k + 1..];
    if keep[k] {
      assert inList == (front + [list[k]]) + list[k + 1..];
    } else {
      assert inList[..at] == front && inList[at + 1..] == list[k + 1..];
      assert inRing[1..] == Stopped(list[..k], keep[..k]) + tail;
      assert [ring, list[k]] + inRing[1..] == [ring] + ([list[k]] + Stopped(list[..k], keep[..k])) + tail;
    }
  }

  lemma SweepEnds(list: seq<Sound>, keep: seq<bool>, tail: seq<Sound>, ring: Sound,
          inList: seq<Sound>, inRing: seq<Sound>, prev: Sound?)
    requires |list| == |keep|
    requires Swept(list, keep, tail, |list|, ring, inList, inRing, prev)
    ensures inList == Kept(list, keep) && inRing == [ring] + Stopped(list, keep) + tail
    ensures forall i | 0 <= i < |inList| :: OneKept(inList[i], list, keep)
  {
    assert list[..|list|] == list && keep[..|list|] == keep && list[|list|..] == [];
    forall i | 0 <= i < |inList| ensures OneKept(inList[i], list, keep) {
      KeptWanted(list, keep, i);
    }
  }

  /** Node t goes from the list, between front and back, to the ring, behind its first node. */
  lemma Returns(a: seq<Sound>, front: seq<Sound>, t: Sound, back: seq<Sound>)
    requires |a| >= 1 && Apart(a, front + [t] + back)
    ensures Apart([a[0], t] + a[1..], front + back)
    ensures Both([a[0], t] + a[1..], front + back) == Both(a, front + [t] + back)
  {
    var l := front + [t] + back;
    var c, d := [a[0], t] + a[1..], front + back;
    assert l[|front|] == t;
    assert forall i | 2 <= i < |c| :: c[i] == a[i - 1];
    assert forall i | 0 <= i < |d| :: d[i] == l[if i < |front| then i else i + 1];
    assert a == [a[0]] + a[1..];
  }

  ghost predicate Matches(s: Sound, sample: int, volume: int)
    reads s
  {
    s.sample == sample && -10 < s.volume - volume < 10
  }

  class AudioDevice {
    var ring: Sound
    var looping: Sound?
    ghost var inRing: seq<Sound>
    ghost var inList: seq<Sound>

    /** The ring goes around and is not empty, the list ends, and no node is in
        both or twice in one of them. */
    ghost predicate Valid()
      reads this, inRing, inList
    {
      && |inRing| >= 1
      && inRing[0] == ring
      && Linked(inRing, ring)
      && Linked(inList, null)
      && looping == (if inList == [] then null else inList[0])
      && Apart(inRing, inList)
    }

    ghost function Nodes(): set<Sound>
      reads this
    {
      Both(inRing, inList)
    }

    constructor ()
      ensures Valid() && fresh(Nodes())
      ensures |inRing| == MAX_SOUNDS && inList == []
    {
      var first := new Sound();
      var last := first;
      ghost var nodes := [first];
      var i := 1;
      while i < MAX_SOUNDS
        invariant 1 <= i == |nodes| <= MAX_SOUNDS && nodes[0] == first && nodes[i - 1] == last
        invariant forall k | 0 <= k < i :: fresh(nodes[k])
        invariant forall k | 0 <= k < i - 1 :: nodes[k].next == nodes[k + 1]
        invariant Distinct(nodes)
      {
        var s := new Sound();
        last.next := s;
        nodes := nodes + [s];
        last := s;
        i := i + 1;
      }
      last.next := first;
      ring := first;
      looping := null;
      inRing := nodes;
      inList := [];
    }

    /** A looping sound that already plays this sample about as loud. */
    method FindLooping(sample: int, volume: int) returns (found: Sound?, ghost k: int)
      requires Valid()
      ensures found == null ==> forall i | 0 <= i < |inList| :: !Matches(inList[i], sample, volume)
      ensures found != null ==> 0 <= k < |inList| && found == inList[k] && Matches(found, sample, volume)
                                && forall i | 0 <= i < k :: !Matches(inList[i], sample, volume)
    {
      found := looping;
      k := 0;
      while found != null
        invariant 0 <= k <= |inList| && found == (if k < |inList| then inList[k] else null)
        invariant forall i | 0 <= i < k :: !Matches(inList[i], sample, volume)
        decreases |inList| - k
      {
        var difference := if found.volume < volume then volume - found.volume else found.volume - volume;
        if found.sample == sample && difference < VOL_THRESHOLD {
          return;
        }
        found := found.next;
        k := k + 1;
      }
    }

    /** Plays a sample: a looping one that is playing already goes on, otherwise
        the next source of the ring is used, unless it is the last one. */
    method Play(sample: int, loop: bool, volume: int, loops: int) returns (used: Sound?)
      requires Valid()
      modifies this, inRing, inList
      ensures Valid() && Nodes() == old(Nodes())
      ensures used != null ==>
                used in Nodes() && used.volume == volume && used.updated == loops && used.sample == sample
      ensures forall s <- Nodes() | s != used ::
              s.sample == old(s.sample) && s.volume == old(s.volume) && s.updated == old(s.updated)
      ensures var playing := loop && exists i :: 0 <= i < |old(inList)| && old(Matches(inList[i], sample, volume));
              if playing then
                && used in old(inList) && old(Matches(used, sample, volume))
                && inRing == old(inRing) && inList == old(inList)
              else if |old(inRing)| == 1 then
                used == null && inRing == old(inRing) && inList == old(inList)
              else
                && used == old(inRing)[1]
                && (if loop then inRing == [old(inRing)[0]] + old(inRing)[2..] && inList == [used] + old(inList)
                    else inRing == old(inRing)[1..] + [old(inRing)[0]] && inList == old(inList))
    {
      hide Apart;
      if loop {
        ghost var k;
        used, k := FindLooping(sample, volume);
        if used != null {
          InNodes(used);
          used.volume := volume;
          used.updated := loops;
          return;
        }
      }
      used := PlayNext(sample, loop, volume, loops);
    }

    lemma InNodes(s: Sound)
      requires s in inRing || s in inList
      ensures s in Nodes()
    {
    }

    /** Plays a sample on the next source of the ring. */
    method PlayNext(sample: int, loop: bool, volume: int, loops: int) returns (used: Sound?)
      requires Valid()
      modifies this, inRing
      ensures Valid() && Nodes() == old(Nodes())
      ensures used != null ==>
                used in Nodes() && used.volume == volume && used.updated == loops && used.sample == sample
      ensures forall s <- Nodes() | s != used ::
              s.sample == old(s.sample) && s.volume == old(s.volume) && s.updated == old(s.updated)
      ensures if |old(inRing)| == 1 then
                used == null && inRing == old(inRing) && inList == old(inList)
              else
                && used == old(inRing)[1]
                && (if loop then inRing == [old(inRing)[0]] + old(inRing)[2..] && inList == [used] + old(inList)
                    else inRing == old(inRing)[1..] + [old(inRing)[0]] && inList == old(inList))
    {
      used := null;
      if ring.next == ring {
        AloneInRing();
        return;
      }
      NextInRing();
      used := ring.next;
      hide Apart, Both;
      if loop {
        MoveToList(used);
      } else {
        Rotate(used);
      }
      used.sample := sample;
      used.volume := volume;
      used.updated := loops;
    }

    lemma AloneInRing()
      requires Valid() && ring.next == ring
      ensures |inRing| == 1
    {
      assert ring.next == inRing[if |inRing| > 1 then 1 else 0];
    }

    lemma NextInRing()
      requires Valid() && ring.next != ring
      ensures |inRing| > 1 && ring.next == inRing[1] && inRing[1] in Nodes()
    {
    }

    method MoveToList(s: Sound)
      requires Valid() && |inRing| > 1 && s == inRing[1]
      modifies `looping, `inRing, `inList, ring`next, s`next
      ensures Valid() && Nodes() == old(Nodes())
      ensures inRing == [old(inRing)[0]] + old(inRing)[2..] && inList == [s] + old(inList)
    {
      ghost var a, b := inRing, inList;
      Moves(a, b);
      ring.next := s.next;
      s.next := looping;
      looping := s;
      inRing := [inRing[0]] + inRing[2..];
      inList := [s] + inList;
      assert forall i | 1 <= i < |inRing| :: inRing[i] == a[i + 1] && inRing[i].next == old(a[i + 1].next);
      assert forall i | 1 <= i < |inList| :: inList[i] == b[i - 1] && inList[i].next == old(b[i - 1].next);
    }

    /** Takes the k-th looping sound off the list. */
    method Unlink(prev: Sound?, s: Sound, ghost k: int)
      requires Valid() && 0 <= k < |inList| && s == inList[k]
      requires prev == if k == 0 then null else inList[k - 1]
      modifies `looping, `inList, inList`next
      ensures inList == old(inList)[..k] + old(inList)[k + 1..]
      ensures Linked(inList, null) && looping == if inList == [] then null else inList[0]
      ensures s.next == if k < |inList| then inList[k] else null
      ensures Linked(inRing, ring)
    {
      ghost var l := inList;
      assert forall i | 0 <= i < |l| && i != k - 1 :: l[i] != prev;
      assert forall i | 0 <= i < |inRing| :: inRing[i] != prev;
      if prev != null {
        prev.next := s.next;
      } else {
        looping := s.next;
      }
      inList := l[..k] + l[k + 1..];
      assert forall i | 0 <= i < |inList| :: inList[i] == l[if i < k then i else i + 1];
      assert forall i | 0 <= i < |inRing| :: inRing[i].next == old(inRing[i].next);
    }

    /** Moves the k-th looping sound back to the ring, behind the ring's first one. */
    method Return(prev: Sound?, s: Sound, ghost k: int) returns (iter: Sound?)
      requires Valid() && 0 <= k < |inList| && s == inList[k]
      requires prev == if k == 0 then null else inList[k - 1]
      modifies `looping, `inRing, `inList, inRing`next, inList`next
      ensures Valid() && Nodes() == old(Nodes())
      ensures inRing == [old(inRing)[0], s] + old(inRing)[1..]
      ensures inList == old(inList)[..k] + old(inList)[k + 1..]
      ensures iter == if k < |inList| then inList[k] else null
    {
      hide Both;
      ghost var a, l := inRing, inList;
      assert l == l[..k] + [s] + l[k + 1..];
      Returns(a, l[..k], s, l[k + 1..]);
      Unlink(prev, s, k);
      iter := s.next;
      Push(s);
    }

    method Push(s: Sound)
      requires |inRing| >= 1 && inRing[0] == ring && Linked(inRing, ring) && Linked(inList, null)
      requires Apart([ring, s] + inRing[1..], inList)
      modifies `inRing, ring`next, s`next
      ensures inRing == [ring, s] + old(inRing)[1..]
      ensures Linked(inRing, ring) && Linked(inList, null)
    {
      ghost var a := inRing;
      ghost var c := [ring, s] + inRing[1..];
      assert c[0] == ring && c[1] == s && forall i | 2 <= i < |c| :: c[i] == a[i - 1];
      assert forall i | 0 <= i < |inList| :: inList[i] != c[0] && inList[i] != c[1];
      s.next := ring.next;
      ring.next := s;
      inRing := c;
      assert forall i | 2 <= i < |c| :: c[i].next == old(a[i - 1].next);
    }

    /** Stops the looping sounds that were not asked for in this frame or the
        last one, and moves them back to the ring. */
    method Update(loops: int)
      requires Valid()
      modifies `looping, `inRing, `inList, inRing`next, inList`next
      ensures Valid() && Nodes() == old(Nodes()) && ring == old(ring)
      ensures var keep := old(Wanted(inList, loops));
              && inList == Kept(old(inList), keep)
              && inRing == [ring] + Stopped(old(inList), keep) + old(inRing)[1..]
      ensures forall i | 0 <= i < |inList| :: inList[i].updated >= loops - 1
    {
      hide Apart, Linked, Kept, Stopped, Wanted, Swept;
      ghost var list, keep, tail := inList, Wanted(inList, loops), inRing[1..];
      ghost var nodes := Nodes();
      var prev: Sound? := null;
      var iter := looping;
      ghost var k := 0;
      SweepStarts(list, keep, inRing);
      while iter != null
        invariant Valid() && Nodes() == nodes && ring == old(ring)
        invariant 0 <= k <= |list| && iter == if k < |list| then list[k] else null
        invariant Swept(list, keep, tail, k, ring, inList, inRing, prev)
        modifies `looping, `inRing, `inList, nodes`next
        decreases |list| - k
      {
        ghost var at := SweepGoesOn(list, keep, tail, k, ring, inList, inRing, prev);
        if iter.updated < loops - 1 {
          iter := Return(prev, iter, at);
        } else {
          LinkAt(at);
          prev, iter := iter, iter.next;
        }
        k := k + 1;
      }
      SweepEnds(list, keep, tail, ring, inList, inRing, prev);
    }

    lemma LinkAt(k: int)
      requires Valid() && 0 <= k < |inList|
      ensures inList[k].next == if k + 1 < |inList| then inList[k + 1] else null
    {
    }

    method Rotate(s: Sound)
      requires Valid() && |inRing| > 1 && s == inRing[1]
      modifies `ring, `inRing
      ensures Valid() && Nodes() == old(Nodes())
      ensures inRing == old(inRing)[1..] + [old(inRing)[0]]
    {
      Rotates(inRing, inList);
      ring := s;
      inRing := inRing[1..] + [inRing[0]];
    }
  }
}
