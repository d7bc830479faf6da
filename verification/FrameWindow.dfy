/** The client's window of frame updates: Net_read and Net_input of
    src/client/netclient.c. */
module FrameWindow {

  /** What a read brings: a datagram, by what Net_read can tell about it, or an error.
      Processing a packet fails or not; bad says which. */
  datatype Packet =
    | Start(loop: int, whole: bool, bad: bool)  // starts a frame update with this loop number; whole
                                                // says whether all of its start can be read
    | CutStart                                  // starts one, but is too short to tell which
    | Other(bad: bool)
    | Broken                                    // the read failed
  {
    predicate Fails() {
      (Start? || Other?) && bad
    }

    /** Nothing that is worth keeping, with this loop number handled last. */
    predicate Stale(last: int) {
      CutStart? || (Start? && loop <= last)
    }
  }

  /** A frame buffer: loops is 0 unless it holds a frame update. */
  datatype Frame = Frame(loops: int, packet: Slot)

  datatype Slot = Free | Holds(packet: Packet)

  const EMPTY := Frame(0, Free)

  /** Stands for a packet that Net_input read and dropped as a duplicate. */
  const DUPLICATE := 3

  // ------------------------------------------------------------- the invariant

  predicate Identified(f: Frame, last: int) {
    f.packet.Holds? && f.packet.packet.Start? && f.loops == f.packet.packet.loop > last
  }

  predicate Unidentified(f: Frame) {
    f.packet.Holds? && f.packet.packet.Other? && f.loops == 0
  }

  /** The first k buffers are in use and the rest is empty: frames newer than
      the last one handled, no two of them the same, and at most one packet
      that is no frame. */
  ghost predicate InUse(w: seq<Frame>, last: int, k: int) {
    && 0 <= last
    && 0 <= k <= |w|
    && (forall j | k <= j < |w| :: w[j] == EMPTY)
    && (forall j | 0 <= j < k :: Identified(w[j], last) || Unidentified(w[j]))
    && (forall i, j | 0 <= i < j < k :: w[i].loops != w[j].loops)
  }

  ghost predicate Window(w: seq<Frame>, last: int) {
    exists k :: InUse(w, last, k)
  }

  /** The loop numbers of the frames in the window. */
  ghost function Loops(w: seq<Frame>): set<int> {
    set j | 0 <= j < |w| && w[j].loops != 0 :: w[j].loops
  }

  /** The loop numbers of the frames among these packets that are newer than the last one handled. */
  ghost function Newer(s: seq<Packet>, last: int): set<int> {
    set j | 0 <= j < |s| && s[j].Start? && s[j].loop > last :: s[j].loop
  }

  /** What was read of the network, if this is left of it. */
  ghost predicate Left(was: seq<Packet>, now: seq<Packet>) {
    |now| <= |was| && now == was[|was| - |now|..]
  }

  ghost function Taken(was: seq<Packet>, now: seq<Packet>): seq<Packet>
    requires Left(was, now)
  {
    was[..|was| - |now|]
  }

  /** A read failed among these. */
  ghost predicate Broke(s: seq<Packet>) {
    exists p :: p in s && p.Broken?
  }

  ghost predicate AllStale(s: seq<Packet>, last: int) {
    forall p <- s :: p.Stale(last)
  }

  lemma ReadsOne(was: seq<Packet>, now: seq<Packet>, last: int)
    requires Left(was, now) && now != []
    ensures Left(was, now[1..])
    ensures Broke(Taken(was, now[1..])) <==> Broke(Taken(was, now)) || now[0].Broken?
    ensures AllStale(Taken(was, now[1..]), last) <==> AllStale(Taken(was, now), last) && now[0].Stale(last)
  {
    var t, u := Taken(was, now), Taken(was, now[1..]);
    assert u == t + [now[0]];
    assert forall p :: p in u <==> p in t || p == now[0];
  }

  lemma ReadsMore(was: seq<Packet>, mid: seq<Packet>, now: seq<Packet>, last: int)
    requires Left(was, mid) && Left(mid, now)
    ensures Left(was, now)
    ensures Broke(Taken(was, now)) <==> Broke(Taken(was, mid)) || Broke(Taken(mid, now))
    ensures AllStale(Taken(was, now), last) <==> AllStale(Taken(was, mid), last) && AllStale(Taken(mid, now), last)
  {
    assert Taken(was, now) == Taken(was, mid) + Taken(mid, now);
  }

  lemma ReadsNone(s: seq<Packet>, last: int)
    ensures Left(s, s) && !Broke(Taken(s, s)) && AllStale(Taken(s, s), last)
  {
  }

  ghost function Elements(s: seq<int>): set<int> {
    set l | l in s
  }

  lemma TakesOne(was: seq<Packet>, now: seq<Packet>, last: int)
    requires Left(was, now) && now != []
    ensures Left(was, now[1..])
    ensures Newer(Taken(was, now[1..]), last)
         == Newer(Taken(was, now), last) + if now[0].Start? && now[0].loop > last then {now[0].loop} else {}
  {
    assert Taken(was, now[1..]) == Taken(was, now) + [now[0]];
    NewerJoins(Taken(was, now), [now[0]], last);
    assert [now[0]][0] == now[0];
  }

  lemma TakesNone(s: seq<Packet>, last: int)
    ensures Left(s, s) && Newer(Taken(s, s), last) == {}
  {
  }

  lemma LeftIsLess(was: seq<Packet>, now: seq<Packet>)
    requires Left(was, now)
    ensures |now| <= |was|
  {
  }

  lemma TakesMore(was: seq<Packet>, mid: seq<Packet>, now: seq<Packet>, last: int)
    requires Left(was, mid) && Left(mid, now)
    ensures Left(was, now)
    ensures Newer(Taken(was, now), last) == Newer(Taken(was, mid), last) + Newer(Taken(mid, now), last)
  {
    NewerJoins(Taken(was, mid), Taken(mid, now), last);
    assert Taken(was, now) == Taken(was, mid) + Taken(mid, now);
  }

  lemma NewerJoins(a: seq<Packet>, b: seq<Packet>, last: int)
    ensures Newer(a + b, last) == Newer(a, last) + Newer(b, last)
  {
    var c := a + b;
    assert forall j | 0 <= j < |a| :: c[j] == a[j];
    assert forall j | 0 <= j < |b| :: c[|a| + j] == b[j];
    assert forall j | 0 <= j < |c| :: c[j] == if j < |a| then a[j] else b[j - |a|];
  }

  ghost predicate Increasing(s: seq<int>) {
    forall i, j | 0 <= i < j < |s| :: s[i] < s[j]
  }

  // --------------------------------------------------- steps of the invariant

  lemma AddFrame(w: seq<Frame>, last: int, k: int, f: Frame)
    requires InUse(w, last, k) && k < |w|
    requires Identified(f, last) || Unidentified(f)
    requires forall j | 0 <= j < k :: w[j].loops != f.loops
    ensures InUse(w[k := f], last, k + 1)
  {
  }

  ghost function Swapped(w: seq<Frame>, i: int, j: int): seq<Frame>
    requires 0 <= i < |w| && 0 <= j < |w|
  {
    w[i := w[j]][j := w[i]]
  }

  /** Dropping a frame: the last one takes its place. */
  lemma DropFrame(w: seq<Frame>, last: int, k: int, o: int)
    requires InUse(w, last, k) && 0 <= o < k
    ensures InUse(Swapped(w, o, k - 1)[k - 1 := EMPTY], last, k - 1)
    ensures Loops(Swapped(w, o, k - 1)[k - 1 := EMPTY]) == Loops(w) - {w[o].loops}
  {
    var f := Swapped(w, o, k - 1)[k - 1 := EMPTY];
    forall l
      ensures l in Loops(f) <==> l in Loops(w) && l != w[o].loops
    {
      if l in Loops(f) {
        var j :| 0 <= j < |f| && f[j].loops != 0 && f[j].loops == l;
        var i := if j == o then k - 1 else j;
        assert w[i].loops == l;
      }
      if l in Loops(w) && l != w[o].loops {
        var j :| 0 <= j < |w| && w[j].loops != 0 && w[j].loops == l;
        var i := if j == k - 1 then o else j;
        assert f[i].loops == l;
      }
    }
  }

  /** Once the oldest frame of the window was handled, all others are newer. */
  lemma HandledOldest(w: seq<Frame>, last: int, now: int, k: int)
    requires InUse(w, last, k) && last <= now && forall l <- Loops(w) :: now < l
    ensures InUse(w, now, k)
  {
    forall j | 0 <= j < k && Identified(w[j], last)
      ensures Identified(w[j], now)
    {
      assert w[j].loops in Loops(w);
    }
  }

  // ------------------------------------------------------------ the operations

  class NetClient {
    const frames: array<Frame>
    var lastLoops: int
    var inbox: seq<Packet>         // what the network still brings, in its order
    ghost var handled: seq<int>    // loop numbers of the frames handled so far

    ghost predicate Valid()
      reads this, frames
    {
      && frames.Length >= 1
      && Window(frames[..], lastLoops)
      && Increasing(handled)
      && (if handled == [] then lastLoops == 0 else lastLoops == handled[|handled| - 1])
    }

    constructor (receiveWindowSize: nat, inbox: seq<Packet>)
      requires receiveWindowSize >= 1
      ensures Valid() && handled == [] && fresh(frames) && frames.Length == receiveWindowSize
    {
      frames := new Frame[receiveWindowSize](_ => EMPTY);
      lastLoops := 0;
      this.inbox := inbox;
      handled := [];
      new;
      assert InUse(frames[..], 0, 0);
    }

    /** Reads the next packet worth keeping into an empty buffer: frames that
        are not newer than the last one handled are skipped. */
    method NetRead(i: int) returns (n: int)
      requires 0 <= i < frames.Length && frames[i] == EMPTY && 0 <= lastLoops
      modifies `inbox, frames
      ensures forall j | 0 <= j < frames.Length && j != i :: frames[j] == old(frames[j])
      ensures n == -1 || n == 0 || n == 1 || n == 2
      ensures n <= 0 ==> frames[i] == EMPTY
      ensures n == 1 ==> Unidentified(frames[i])
      ensures n == 2 ==> Identified(frames[i], lastLoops)
      ensures Left(old(inbox), inbox) && (n > 0 ==> |inbox| < |old(inbox)|)
      ensures Newer(Taken(old(inbox), inbox), lastLoops) == if n == 2 then {frames[i].loops} else {}
      ensures n == -1 <==> Broke(Taken(old(inbox), inbox))
      ensures n == 0 <==> AllStale(Taken(old(inbox), inbox), lastLoops)
      ensures n == 0 ==> inbox == []
    {
      hide Newer, Left, Taken, Broke, AllStale;
      TakesNone(inbox, lastLoops);
      ReadsNone(inbox, lastLoops);
      while true
        invariant frames[..] == old(frames[..]) && Left(old(inbox), inbox)
        invariant Newer(Taken(old(inbox), inbox), lastLoops) == {}
        invariant !Broke(Taken(old(inbox), inbox)) && AllStale(Taken(old(inbox), inbox), lastLoops)
        decreases |inbox|
      {
        if inbox == [] {
          return 0;
        }
        var packet := inbox[0];
        TakesOne(old(inbox), inbox, lastLoops);
        ReadsOne(old(inbox), inbox, lastLoops);
        inbox := inbox[1..];
        LeftIsLess(old(inbox), inbox);
        match packet
        case Broken =>
          return -1;
        case Other(_) =>
          frames[i] := Frame(0, Holds(packet));
          return 1;
        case CutStart =>
        case Start(loop, _, _) =>
          if loop > lastLoops {
            frames[i] := Frame(loop, Holds(packet));
            return 2;
          }
      }
    }

    /** Is a frame with this loop number already in one of the buffers before i? */
    method IsDuplicate(i: int) returns (found: bool)
      requires 0 <= i < frames.Length
      ensures found <==> exists j :: 0 <= j < i && frames[j].loops == frames[i].loops
    {
      var j := i - 1;
      while j >= 0
        invariant -1 <= j < i
        invariant forall n | j < n < i :: frames[n].loops != frames[i].loops
      {
        if frames[i].loops == frames[j].loops {
          return true;
        }
        j := j - 1;
      }
      return false;
    }

    /** Reads a packet into the first empty buffer and forgets it again if the
        window already has that frame. */
    method ReadFrame(i: int) returns (n: int, ghost k: int)
      requires 0 <= i < frames.Length && InUse(frames[..], lastLoops, i)
      requires forall j | 0 <= j < i :: frames[j].loops != 0
      modifies `inbox, frames
      ensures n == -1 || n == 0 || n == 1 || n == 2 || n == DUPLICATE
      ensures k == (if n == 1 || n == 2 then i + 1 else i) && InUse(frames[..], lastLoops, k)
      ensures Left(old(inbox), inbox) && (n > 0 ==> |inbox| < |old(inbox)|)
      ensures old(Loops(frames[..])) + Newer(Taken(old(inbox), inbox), lastLoops) == Loops(frames[..])
      ensures forall j | 0 <= j < frames.Length && j != i :: frames[j] == old(frames[j])
      ensures n == 1 <==> frames[i].packet.Holds? && frames[i].loops == 0
      ensures n == 2 <==> frames[i].loops != 0
      ensures n == 2 ==> Loops(frames[..]) == old(Loops(frames[..])) + {frames[i].loops}
      ensures n != 2 ==> Loops(frames[..]) == old(Loops(frames[..]))
      ensures n == -1 <==> Broke(Taken(old(inbox), inbox))
      ensures n == 0 <==> AllStale(Taken(old(inbox), inbox), lastLoops)
      ensures n == 0 ==> inbox == []
      ensures n == DUPLICATE ==> i > 0
    {
      hide Loops, Newer, Left, Taken, Broke, AllStale;
      ghost var w := frames[..];
      n := NetRead(i);
      k := i;
      assert frames[..] == w[i := frames[i]];
      if n == 1 {
        AddFrame(w, lastLoops, i, frames[i]);
        SameLoops(w, i, frames[i]);
        k := i + 1;
      } else if n == 2 {
        var duplicate := IsDuplicate(i);
        if duplicate {
          AlreadyThere(w, frames[i].loops, i);
          frames[i] := EMPTY;
          assert frames[..] == w;
          n := DUPLICATE;
        } else {
          AddFrame(w, lastLoops, i, frames[i]);
          MoreLoops(w, i, frames[i]);
          k := i + 1;
        }
      } else {
        assert frames[..] == w;
      }
    }

    /** Drops the oldest frame of a full window, so that no buffer in between
        becomes empty. */
    method DropOldest(o: int)
      requires 0 <= o < frames.Length && InUse(frames[..], lastLoops, frames.Length)
      requires forall j | 0 <= j < frames.Length :: frames[o].loops <= frames[j].loops
      modifies frames
      ensures InUse(frames[..], lastLoops, frames.Length - 1)
      ensures Loops(frames[..]) == old(Loops(frames[..]) - {frames[o].loops})
    {
      var i := frames.Length - 1;
      ghost var w := frames[..];
      DropFrame(w, lastLoops, frames.Length, o);
      if frames[o].loops < frames[i].loops {
        frames[o], frames[i] := frames[i], frames[o];
        assert frames[..] == Swapped(w, o, i);
      }
      frames[i] := EMPTY;
      assert frames[..] == Swapped(w, o, i)[i := EMPTY];
    }

    /** Reads packets until the network has no more, an unidentified packet
        stops the input, or reading fails. Each time the window is full its
        oldest frame is dropped; the ghost result lists those. */
    method FillWindow() returns (done: bool, result: int, ghost k: int, ghost dropped: seq<int>)
      requires Valid()
      modifies `inbox, frames
      ensures InUse(frames[..], lastLoops, k)
      ensures if done then result == -1 || (result == 0 && k == 0) else k >= 1
      ensures Left(old(inbox), inbox)
      ensures done && result == -1 <==> Broke(Taken(old(inbox), inbox))
      ensures done && result == 0 <==>
              InUse(old(frames[..]), lastLoops, 0) && AllStale(Taken(old(inbox), inbox), lastLoops)
      ensures done && result == 0 ==> inbox == []
      ensures !done && frames.Length > 1 ==> inbox == [] || HasOther(frames[..])
      ensures Older(dropped, Loops(frames[..]))
      ensures Accounted(old(Loops(frames[..])), Newer(Taken(old(inbox), inbox), lastLoops), Loops(frames[..]), dropped)
      ensures dropped != [] ==> k >= frames.Length - 1
    {
      hide Loops, Newer, Left, Taken, Elements, Older, Accounted, Broke, AllStale, InUse, HasOther, Identified;
      TakesNone(inbox, lastLoops);
      ReadsNone(inbox, lastLoops);
      NothingDropped(Loops(frames[..]));
      k := Used(frames[..], lastLoops);
      NoneInUse(frames[..], lastLoops, k);
      dropped := [];
      done, result := false, 0;
      ghost var loops0 := Loops(frames[..]);
      var oldest := 0;
      var i := 0;
      while i < frames.Length
        invariant 0 <= i <= k <= frames.Length && InUse(frames[..], lastLoops, k)
        invariant 0 <= oldest < frames.Length && (if i == 0 then oldest == 0 else oldest < i)
        invariant forall j | 0 <= j < i :: frames[j].loops != 0 && frames[oldest].loops <= frames[j].loops
        invariant Older(dropped, Loops(frames[..]))
        invariant Left(old(inbox), inbox)
        invariant Accounted(loops0, Newer(Taken(old(inbox), inbox), lastLoops), Loops(frames[..]), dropped)
        invariant dropped != [] ==> k == frames.Length - 1 > 0
        invariant !Broke(Taken(old(inbox), inbox)) && (i == frames.Length ==> i == 1)
        invariant k == 0 <==> InUse(old(frames[..]), lastLoops, 0) && AllStale(Taken(old(inbox), inbox), lastLoops)
        decreases |inbox|, k, frames.Length - i
      {
        ghost var w := frames[..];
        UsedOrEmpty(w, lastLoops, k, i);
        ghost var loops := Loops(w);
        if frames[i].loops != 0 {
          if frames[i].loops < frames[oldest].loops || frames[oldest].loops == 0 {
            oldest := i;
          }
        } else if frames[i].packet.Holds? {
          OtherThere(w, lastLoops, k, i);
          break;
        } else {
          var n;
          ghost var before := inbox;
          n, k := ReadFrame(i);
          WindowNow(frames[..], lastLoops, k);
          TakesMore(old(inbox), before, inbox, lastLoops);
          ReadsMore(old(inbox), before, inbox, lastLoops);
          OlderThanNone(dropped);
          AccountRead(loops0, Newer(Taken(old(inbox), before), lastLoops), loops, dropped,
                      Newer(Taken(before, inbox), lastLoops));
          if n <= 0 {
            if n == 0 {
              if i == 0 {
                done, result := true, 0;
                return;
              }
              break;
            }
            done, result := true, n;
            return;
          }
          if n == 1 {
            OtherThere(frames[..], lastLoops, k, i);
            break;
          }
          if n == DUPLICATE {
            continue;
          }
          if frames[i].loops < frames[oldest].loops {
            oldest := i;
          }
        }
        if i == frames.Length - 1 && i > 0 {
          ghost var d := frames[oldest].loops;
          OldestOf(frames[..], oldest);
          AccountDrop(loops0, Newer(Taken(old(inbox), inbox), lastLoops), Loops(frames[..]), dropped, d);
          OlderDrop(dropped, loops, Loops(frames[..]), d);
          DropOldest(oldest);
          dropped := dropped + [d];
          k := k - 1;
          oldest := 0;
          i := 0;
          continue;
        }
        i := i + 1;
      }
    }

    /** Finds the oldest frame and the last buffer in use. */
    method FindOldest(ghost k: int) returns (oldest: int, last: int, buffered: int)
      requires k >= 1 && InUse(frames[..], lastLoops, k)
      ensures 0 <= oldest <= last == k - 1 && buffered == k
      ensures if frames[oldest].loops == 0 then forall j | 0 <= j < frames.Length :: frames[j].loops == 0
              else forall j | 0 <= j < frames.Length && frames[j].loops != 0 :: frames[oldest].loops <= frames[j].loops
    {
      last, oldest, buffered := 0, 0, 1;
      var i := 1;
      while i < frames.Length
        invariant 1 <= i <= k && last == i - 1 && 0 <= oldest < i && buffered == i
        invariant if frames[oldest].loops == 0 then forall j | 0 <= j < i :: frames[j].loops == 0
                  else forall j | 0 <= j < i && frames[j].loops != 0 :: frames[oldest].loops <= frames[j].loops
      {
        if frames[i].loops == 0 {
          if frames[i].packet.Holds? {
            buffered := buffered + 1;
          } else {
            break;
          }
        } else {
          buffered := buffered + 1;
          if frames[i].loops < frames[oldest].loops || frames[oldest].loops == 0 {
            oldest := i;
          }
        }
        i, last := i + 1, last + 1;
      }
    }

    /** Processes a packet: a frame update whose start can be read in full and
        that is newer than the last one handled becomes the last one handled. */
    method NetPacket(packet: Packet) returns (n: int)
      requires Increasing(handled)
      requires if handled == [] then lastLoops == 0 else lastLoops == handled[|handled| - 1]
      modifies `lastLoops, `handled
      ensures n == if packet.Fails() then -1 else 0
      ensures if packet.Start? && packet.whole && packet.loop > old(lastLoops)
              then lastLoops == packet.loop && handled == old(handled) + [packet.loop]
              else lastLoops == old(lastLoops) && handled == old(handled)
      ensures Increasing(handled)
      ensures if handled == [] then lastLoops == 0 else lastLoops == handled[|handled| - 1]
    {
      if packet.Start? && packet.whole {
        if lastLoops < packet.loop {
          lastLoops := packet.loop;
          handled := handled + [packet.loop];
        }
      }
      return if packet.Fails() then -1 else 0;
    }

    /** Takes what the network has, processes the oldest packet and returns how
        many were buffered. The ghost results are the packet processed and the
        loop numbers of the frames dropped to make room. */
    method NetInput() returns (result: int, ghost taken: Slot, ghost dropped: seq<int>)
      requires Valid()
      modifies this, frames
      ensures Valid()
      // The frame taken is handled, if its start can be read; loop numbers of handled frames only grow.
      ensures handled == if taken.Holds? && taken.packet.Start? && taken.packet.whole
                         then old(handled) + [taken.packet.loop] else old(handled)
      ensures Increasing(handled) && lastLoops == if handled == [] then 0 else handled[|handled| - 1]
      // The oldest frame goes first, anything that is no frame only when there is no frame.
      ensures taken.Holds? && taken.packet.Start? ==> forall l <- Loops(frames[..]) :: taken.packet.loop < l
      ensures taken.Holds? && !taken.packet.Start? ==> Loops(frames[..]) == {}
      // Dropped frames are older than all that were kept, including the one taken.
      ensures forall d <- dropped, l <- Loops(frames[..]) :: d < l
      ensures taken.Holds? && taken.packet.Start? ==> forall d <- dropped :: d < taken.packet.loop
      // Each frame that was buffered, or has arrived and is newer, is still buffered, was dropped, or was taken.
      ensures Left(old(inbox), inbox)
      ensures old(Loops(frames[..])) + Newer(Taken(old(inbox), inbox), old(lastLoops))
           == Loops(frames[..]) + Elements(dropped)
              + if taken.Holds? && taken.packet.Start? then {taken.packet.loop} else {}
      // A packet is processed unless a read failed, or nothing was buffered and nothing new has arrived.
      ensures taken.Free? <==>
              || Broke(Taken(old(inbox), inbox))
              || (InUse(old(frames[..]), old(lastLoops), 0) && AllStale(Taken(old(inbox), inbox), old(lastLoops)))
      ensures taken.Free? && !Broke(Taken(old(inbox), inbox)) ==> inbox == []
      // All that has arrived is read, unless a packet that is no frame waits, or there is one buffer only.
      ensures taken.Holds? && frames.Length > 1 ==>
                inbox == [] || !taken.packet.Start? || HasOther(frames[..])
      ensures result == -1 <==> Broke(Taken(old(inbox), inbox)) || (taken.Holds? && taken.packet.Fails())
      ensures result == 0 <==> taken.Free? && !Broke(Taken(old(inbox), inbox))
      // Otherwise it is the number of buffers in use before the packet was processed, one more than now.
      ensures result != -1 && result != 0 ==> InUse(frames[..], lastLoops, result - 1)
      ensures dropped != [] && result > 0 ==> result >= frames.Length - 1
    {
      hide Loops, Increasing, Newer, Left, Taken, Elements, Broke, AllStale, InUse, Packet.Fails, Unidentified;
      taken := Free;
      var done;
      ghost var k;
      done, result, k, dropped := FillWindow();
      WindowNow(frames[..], lastLoops, k);
      if done {
        return;
      }
      result, taken := ProcessOldest(k);
      WindowNow(frames[..], lastLoops, k - 1);
    }

    /** Processes the oldest packet of the window and takes it out. */
    method ProcessOldest(ghost k: int) returns (result: int, ghost taken: Slot)
      requires k >= 1 && InUse(frames[..], lastLoops, k) && Increasing(handled)
      requires if handled == [] then lastLoops == 0 else lastLoops == handled[|handled| - 1]
      modifies `lastLoops, `handled, frames
      ensures taken.Holds? && InUse(frames[..], lastLoops, k - 1)
      ensures result == if taken.packet.Fails() then -1 else k
      ensures handled == if taken.packet.Start? && taken.packet.whole
                         then old(handled) + [taken.packet.loop] else old(handled)
      ensures Increasing(handled) && lastLoops == if handled == [] then 0 else handled[|handled| - 1]
      ensures taken.packet.Start? ==> forall l <- Loops(frames[..]) :: taken.packet.loop < l
      ensures !taken.packet.Start? ==> Loops(frames[..]) == {}
      ensures taken.packet.Start? ==> taken.packet.loop in old(Loops(frames[..]))
      ensures old(Loops(frames[..])) == Loops(frames[..]) + if taken.packet.Start? then {taken.packet.loop} else {}
      ensures old(HasOther(frames[..])) ==> !taken.packet.Start? || HasOther(frames[..])
    {
      hide Loops, Increasing, Packet.Fails, HasOther;
      var oldest, last, buffered := FindOldest(k);
      ghost var w := frames[..];
      FrontOf(w, oldest);
      taken := frames[oldest].packet;
      var n := NetPacket(frames[oldest].packet.packet);
      DropFrame(w, old(lastLoops), k, oldest);
      DropKeepsOther(w, old(lastLoops), k, oldest);
      if last != oldest {
        frames[oldest], frames[last] := frames[last], frames[oldest];
        assert frames[..] == Swapped(w, oldest, last);
      }
      frames[last] := EMPTY;
      assert frames[..] == Swapped(w, oldest, last)[last := EMPTY];
      HandledOldest(frames[..], old(lastLoops), lastLoops, k - 1);
      result := if n == -1 then -1 else buffered;
    }
  }

  /** A packet that is no frame is in one of the buffers. */
  ghost predicate HasOther(w: seq<Frame>) {
    exists j :: 0 <= j < |w| && Unidentified(w[j])
  }

  lemma OtherThere(w: seq<Frame>, last: int, k: int, i: int)
    requires InUse(w, last, k) && 0 <= i < |w| && w[i].packet.Holds? && w[i].loops == 0
    ensures HasOther(w)
  {
  }

  lemma DropKeepsOther(w: seq<Frame>, last: int, k: int, o: int)
    requires InUse(w, last, k) && 0 <= o < k
    ensures HasOther(w) && w[o].packet.packet.Start? ==> HasOther(Swapped(w, o, k - 1)[k - 1 := EMPTY])
  {
    var f := Swapped(w, o, k - 1)[k - 1 := EMPTY];
    if HasOther(w) && w[o].packet.packet.Start? {
      var j :| 0 <= j < |w| && Unidentified(w[j]);
      assert Unidentified(f[if j == k - 1 then o else j]);
    }
  }

  lemma WindowNow(w: seq<Frame>, last: int, k: int)
    requires InUse(w, last, k)
    ensures Window(w, last) && 0 <= k <= |w|
  {
  }

  lemma FrontOf(w: seq<Frame>, o: int)
    requires 0 <= o < |w|
    requires if w[o].loops == 0 then forall j | 0 <= j < |w| :: w[j].loops == 0
             else forall j | 0 <= j < |w| && w[j].loops != 0 :: w[o].loops <= w[j].loops
    ensures w[o].loops == 0 ==> Loops(w) == {}
    ensures w[o].loops != 0 ==> w[o].loops in Loops(w) && forall l <- Loops(w) :: w[o].loops <= l
  {
  }

  lemma SameLoops(w: seq<Frame>, i: int, f: Frame)
    requires 0 <= i < |w| && w[i].loops == 0 && f.loops == 0
    ensures Loops(w[i := f]) == Loops(w)
  {
    forall l
      ensures l in Loops(w[i := f]) <==> l in Loops(w)
    {
      if l in Loops(w) {
        var j :| 0 <= j < |w| && w[j].loops != 0 && w[j].loops == l;
        assert w[i := f][j].loops == l;
      }
    }
  }

  lemma MoreLoops(w: seq<Frame>, i: int, f: Frame)
    requires 0 <= i < |w| && w[i].loops == 0 && f.loops != 0
    ensures Loops(w[i := f]) == Loops(w) + {f.loops}
  {
    var u := w[i := f];
    assert u[i].loops == f.loops;
    forall l
      ensures l in Loops(u) <==> l in Loops(w) || l == f.loops
    {
      if l in Loops(w) {
        var j :| 0 <= j < |w| && w[j].loops != 0 && w[j].loops == l;
        assert u[j].loops == l;
      }
    }
  }

  lemma Used(w: seq<Frame>, last: int) returns (k: int)
    requires Window(w, last)
    ensures InUse(w, last, k) && 0 <= k <= |w|
  {
    k :| InUse(w, last, k);
  }

  lemma NoneInUse(w: seq<Frame>, last: int, k: int)
    requires InUse(w, last, k)
    ensures InUse(w, last, 0) <==> k == 0
  {
    assert k > 0 ==> w[0].packet.Holds?;
  }

  lemma UsedOrEmpty(w: seq<Frame>, last: int, k: int, i: int)
    requires InUse(w, last, k) && 0 <= i < |w|
    ensures 0 <= last && k <= |w|
    ensures i < k <==> w[i].loops != 0 || w[i].packet.Holds?
    ensures w[i].loops >= 0
  {
  }

  ghost predicate Older(dropped: seq<int>, loops: set<int>) {
    forall d <- dropped, l <- loops :: d < l
  }

  /** Frames that were there and newer ones that were read are still there or were dropped. */
  ghost predicate Accounted(loops0: set<int>, newer: set<int>, loops: set<int>, dropped: seq<int>) {
    loops0 + newer == loops + Elements(dropped)
  }

  lemma NothingDropped(loops: set<int>)
    ensures Older([], loops) && Accounted(loops, {}, loops, [])
  {
  }

  lemma OlderThanNone(dropped: seq<int>)
    ensures dropped == [] ==> forall l: set<int> :: Older(dropped, l)
  {
  }

  lemma AccountRead(loops0: set<int>, newer: set<int>, loops: set<int>, dropped: seq<int>, more: set<int>)
    requires Accounted(loops0, newer, loops, dropped)
    ensures Accounted(loops0, newer + more, loops + more, dropped)
  {
  }

  lemma AccountDrop(loops0: set<int>, newer: set<int>, loops: set<int>, dropped: seq<int>, d: int)
    requires Accounted(loops0, newer, loops, dropped) && d in loops
    ensures Accounted(loops0, newer, loops - {d}, dropped + [d])
  {
    assert Elements(dropped + [d]) == Elements(dropped) + {d};
  }

  /** The oldest frame of a window to which at most one was added. */
  lemma OlderDrop(dropped: seq<int>, before: set<int>, loops: set<int>, d: int)
    requires Older(dropped, before) && before <= loops && d in loops && forall l <- loops :: d <= l
    requires forall l, m | l in loops - before && m in loops - before :: l == m
    ensures Older(dropped + [d], loops - {d})
  {
    forall e, l | e in dropped + [d] && l in loops - {d} ensures e < l {
      assert d <= l;
      if e in dropped && l !in before {
        assert l in loops - before;
        assert d !in loops - before;
        assert e < d;
      }
    }
  }

  lemma AlreadyThere(w: seq<Frame>, l: int, i: int)
    requires 0 <= i <= |w| && l != 0 && exists j :: 0 <= j < i && w[j].loops == l
    ensures l in Loops(w)
  {
  }

  lemma OldestOf(w: seq<Frame>, o: int)
    requires 0 <= o < |w| && w[o].loops != 0
    requires forall j | 0 <= j < |w| :: w[o].loops <= w[j].loops
    ensures forall l <- Loops(w) :: w[o].loops <= l
    ensures w[o].loops in Loops(w)
  {
  }
}
