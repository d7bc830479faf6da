/** Recording and replaying socket calls (src/server/recwrap.c). */
module RecordReplay {
  import opened Bytes

  // --------------------------------------------------------- what a call leaves

  datatype Call =
    | Close
    | Connect
    | GetLastPort
    | Receive(size: int)  // sock_read and sock_receive_any
    | Write(size: int)
    | GetError

  /** How the real call went: its result, errno after it, and the bytes received. */
  datatype Real = Real(result: int, errno: int, bytes: seq<Byte>)

  /** What the program gets to know of a call. errno counts after a receive
      that brought nothing and after asking for the error; what closing
      returns is never looked at. */
  datatype View = View(result: int, errno: Option<int>, bytes: seq<Byte>)

  /** The four tapes, or a piece of each of them. */
  datatype Tapes = Tapes(ints: seq<int>, shorts: seq<int>, errnos: seq<int>, data: seq<Byte>) {
    function Then(more: Tapes): Tapes {
      Tapes(ints + more.ints, shorts + more.shorts, errnos + more.errnos, data + more.data)
    }
  }

  const BLANK := Tapes([], [], [], [])

  /** Storing a number in a short keeps its low sixteen bits. */
  function ToShort(i: int): (s: int)
    ensures -0x8000 <= s < 0x8000
    ensures s == i <==> -0x8000 <= i < 0x8000
    ensures (i - s) % 0x1_0000 == 0
  {
    (i + 0x8000) % 0x1_0000 - 0x8000
  }

  function Recording(call: Call, went: Real): Tapes {
    match call
    case Close => BLANK
    case Connect => Tapes([went.result], [], if went.result < 0 then [went.result] else [], [])
    case GetLastPort => Tapes([went.result], [], [], [])
    case Receive(_) =>
      Tapes([], [ToShort(went.result)], if went.result > 0 then [] else [went.errno],
            if went.result > 0 then went.bytes else [])
    case Write(_) => BLANK
    case GetError => Tapes([went.result], [], [went.errno], [])
  }

  function Seen(call: Call, went: Real): View {
    match call
    case Close => View(0, None, [])
    case Connect => View(went.result, None, [])
    case GetLastPort => View(went.result, None, [])
    case Receive(_) =>
      if went.result > 0 then View(went.result, None, went.bytes) else View(went.result, Some(went.errno), [])
    case Write(_) => View(went.result, None, [])
    case GetError => View(went.result, Some(went.errno), [])
  }

  /** Is there enough on the tapes to replay the call? */
  predicate Playable(call: Call, t: Tapes) {
    match call
    case Close => true
    case Connect => |t.ints| > 0 && (t.ints[0] < 0 ==> |t.errnos| > 0)
    case GetLastPort => |t.ints| > 0
    case Receive(_) =>
      |t.shorts| > 0 && (if t.shorts[0] > 0 then t.shorts[0] <= |t.data| else |t.errnos| > 0)
    case Write(_) => true
    case GetError => |t.ints| > 0 && |t.errnos| > 0
  }

  function Played(call: Call, t: Tapes): View
    requires Playable(call, t)
  {
    match call
    case Close => View(0, None, [])
    case Connect => View(t.ints[0], None, [])
    case GetLastPort => View(t.ints[0], None, [])
    case Receive(_) =>
      if t.shorts[0] > 0 then View(t.shorts[0], None, t.data[..t.shorts[0]])
      else View(t.shorts[0], Some(t.errnos[0]), [])
    case Write(size) => View(size, None, [])
    case GetError => View(t.ints[0], Some(t.errnos[0]), [])
  }

  function Rest(call: Call, t: Tapes): Tapes
    requires Playable(call, t)
  {
    match call
    case Close => t
    case Connect => t.(ints := t.ints[1..], errnos := if t.ints[0] < 0 then t.errnos[1..] else t.errnos)
    case GetLastPort => t.(ints := t.ints[1..])
    case Receive(_) =>
      if t.shorts[0] > 0 then t.(shorts := t.shorts[1..], data := t.data[t.shorts[0]..])
      else t.(shorts := t.shorts[1..], errnos := t.errnos[1..])
    case Write(_) => t
    case GetError => t.(ints := t.ints[1..], errnos := t.errnos[1..])
  }

  // -------------------------------------------------------- replay of one call

  /** A real receive fills its buffer with as many bytes as it returns. */
  predicate Consistent(call: Call, went: Real) {
    call.Receive? && went.result > 0 ==> |went.bytes| == went.result
  }

  /** What the recording can reproduce: complete writes, and receive results
      that fit into a short. */
  predicate Recordable(call: Call, went: Real) {
    match call
    case Write(size) => went.result == size
    case Receive(_) => -0x8000 <= went.result < 0x8000
    case _ => true
  }

  /** Replaying a recorded call shows the program the same and leaves every
      tape just behind the call, if the call is one the recording can reproduce. */
  lemma CallReplays(call: Call, went: Real, more: Tapes)
    requires Consistent(call, went) && Recordable(call, went)
    ensures var t := Recording(call, went).Then(more);
            Playable(call, t) && Played(call, t) == Seen(call, went) && Rest(call, t) == more
  {
    var t := Recording(call, went).Then(more);
    assert |more.ints| >= 0;
    match call
    case Receive(_) =>
      if went.result > 0 {
        assert t.data[..went.result] == went.bytes;
      }
    case _ =>
  }

  /** And only then: any other call comes back differently. */
  lemma OtherCallsDiffer(call: Call, went: Real, more: Tapes)
    requires Consistent(call, went) && !Recordable(call, went)
    ensures var t := Recording(call, went).Then(more);
            Playable(call, t) ==> Played(call, t).result != Seen(call, went).result
  {
  }

  /** errno after a failed connect is not reproduced: what is recorded in its
      place is the result of the call. */
  lemma ConnectErrno(went: Real, more: Tapes)
    requires went.result < 0
    ensures var t := Recording(Connect, went).Then(more);
            |t.errnos| > 0 && (t.errnos[0] == went.errno <==> went.result == went.errno)
  {
  }

  // ------------------------------------------------------- replay of whole runs

  datatype Step = Step(call: Call, view: View)

  /** A deterministic program: what it calls next depends on what it has seen. */
  type Program = seq<Step> -> Option<Call>

  datatype Run = Run(history: seq<Step>, tapes: Tapes)

  /** The program runs while recording, until it ends or the real calls do. */
  function Record(prog: Program, reals: seq<Real>, history: seq<Step>): Run
    decreases |reals|
  {
    if prog(history).None? || reals == [] then Run(history, BLANK)
    else
      var call, went := prog(history).value, reals[0];
      var run := Record(prog, reals[1..], history + [Step(call, Seen(call, went))]);
      Run(run.history, Recording(call, went).Then(run.tapes))
  }

  /** The program runs for n calls on recorded tapes; the result keeps what is
      left on them. A tape that runs out stops the run. */
  function Replay(prog: Program, tapes: Tapes, history: seq<Step>, n: nat): Run
    decreases n
  {
    if n == 0 || prog(history).None? || !Playable(prog(history).value, tapes) then Run(history, tapes)
    else
      var call := prog(history).value;
      Replay(prog, Rest(call, tapes), history + [Step(call, Played(call, tapes))], n - 1)
  }

  /** Every receive the program makes fills its buffer as the result says. */
  ghost predicate AllConsistent(prog: Program, reals: seq<Real>, history: seq<Step>)
    decreases |reals|
  {
    prog(history).Some? && reals != [] ==>
      var call, went := prog(history).value, reals[0];
      && Consistent(call, went)
      && AllConsistent(prog, reals[1..], history + [Step(call, Seen(call, went))])
  }

  /** Every call the program makes while recording is one that can be reproduced. */
  ghost predicate AllRecordable(prog: Program, reals: seq<Real>, history: seq<Step>)
    decreases |reals|
  {
    prog(history).Some? && reals != [] ==>
      var call, went := prog(history).value, reals[0];
      && Recordable(call, went)
      && AllRecordable(prog, reals[1..], history + [Step(call, Seen(call, went))])
  }

  lemma {:induction false} RecordExtends(prog: Program, reals: seq<Real>, history: seq<Step>)
    ensures history <= Record(prog, reals, history).history
    decreases |reals|
  {
    if prog(history).Some? && reals != [] {
      var call, went := prog(history).value, reals[0];
      RecordExtends(prog, reals[1..], history + [Step(call, Seen(call, went))]);
    }
  }

  lemma {:induction false} ReplayExtends(prog: Program, tapes: Tapes, history: seq<Step>, n: nat)
    ensures history <= Replay(prog, tapes, history, n).history
    decreases n
  {
    if n > 0 && prog(history).Some? && Playable(prog(history).value, tapes) {
      var call := prog(history).value;
      ReplayExtends(prog, Rest(call, tapes), history + [Step(call, Played(call, tapes))], n - 1);
    }
  }

  /** A recorded run replays call by call - the program sees the same, does the
      same, and at the end every tape is used up exactly - if and only if every
      write was complete and every receive result fits into a short. */
  lemma {:induction false} RunReplays(prog: Program, reals: seq<Real>, history: seq<Step>)
    requires AllConsistent(prog, reals, history)
    ensures var run := Record(prog, reals, history);
            |run.history| >= |history| &&
            (Replay(prog, run.tapes, history, |run.history| - |history|) == Run(run.history, BLANK)
             <==> AllRecordable(prog, reals, history))
    decreases |reals|
  {
    hide Recording, Played, Rest, Seen, Playable, Tapes.Then, Recordable, Consistent;
    if prog(history).Some? && reals != [] {
      var call, went := prog(history).value, reals[0];
      var next := history + [Step(call, Seen(call, went))];
      var more := Record(prog, reals[1..], next);
      var tapes := Recording(call, went).Then(more.tapes);
      RecordExtends(prog, reals[1..], next);
      RunReplays(prog, reals[1..], next);
      var n := |more.history| - |history|;
      if Recordable(call, went) {
        CallReplays(call, went, more.tapes);
      } else {
        OtherCallsDiffer(call, went, more.tapes);
        if Playable(call, tapes) {
          var other := history + [Step(call, Played(call, tapes))];
          ReplayExtends(prog, Rest(call, tapes), other, n - 1);
          assert other[|history|] != next[|history|];
        }
      }
    }
  }

  // ------------------------------------------- reading into a socket buffer

  const EINTR := 4
  const EAGAIN := 11
  const EWOULDBLOCK := 11
  const MAX_SOCKBUF_RETRIES := 2

  /** How often the socket was asked for its error. */
  function Asked(s: seq<Step>): nat {
    if s == [] then 0 else Asked(s[..|s| - 1]) + if s[|s| - 1].call.GetError? then 1 else 0
  }

  /** Reading up to room bytes into a socket buffer, as a program of calls. */
  function ReadNext(dgram: bool, room: int, s: seq<Step>): Option<Call> {
    if s == [] then Some(Receive(room))
    else
      var last := s[|s| - 1];
      if last.call.GetError? then
        if last.view.result == -1 then None else Some(Receive(room))
      else if last.view.result >= 0 || last.view.errno.None? then None
      else if last.view.errno.value == EINTR then Some(Receive(room))
      else if !dgram || last.view.errno.value == EWOULDBLOCK || last.view.errno.value == EAGAIN then None
      else if Asked(s) + 1 > MAX_SOCKBUF_RETRIES then None
      else Some(GetError)
  }

  function ReadProgram(dgram: bool, room: int): Program {
    s => ReadNext(dgram, room, s)
  }

  /** What reading returns and what the buffer holds then, by how its calls went. */
  function ReadOutcome(held: seq<Byte>, s: seq<Step>): (int, seq<Byte>) {
    if s == [] then (-1, held)
    else
      var last := s[|s| - 1];
      if last.call.GetError? then (-1, held)
      else if last.view.result > 0 then (|held| + last.view.result, held + last.view.bytes)
      else if last.view.result == 0 then (0, held)
      else if last.view.errno == Some(EWOULDBLOCK) || last.view.errno == Some(EAGAIN) then (0, held)
      else (-1, held)
  }

  /** The calls of a run of the reading loop, from its start to its end. */
  ghost predicate ReadRun(dgram: bool, room: int, s: seq<Step>) {
    ReadSoFar(dgram, room, s) && ReadNext(dgram, room, s) == None
  }

  ghost predicate ReadSoFar(dgram: bool, room: int, s: seq<Step>) {
    && (forall k | 0 <= k < |s| :: ReadNext(dgram, room, s[..k]) == Some(s[k].call))
    && (forall k | 0 <= k < |s| && s[k].call.Receive? && s[k].view.result <= 0 :: s[k].view.errno.Some?)
  }

  lemma ReadsOn(dgram: bool, room: int, s: seq<Step>, x: Step)
    requires ReadSoFar(dgram, room, s) && ReadNext(dgram, room, s) == Some(x.call)
    requires x.call.Receive? && x.view.result <= 0 ==> x.view.errno.Some?
    ensures ReadSoFar(dgram, room, s + [x])
  {
    hide ReadNext;
    var t := s + [x];
    forall k | 0 <= k < |t|
      ensures ReadNext(dgram, room, t[..k]) == Some(t[k].call)
    {
      if k < |s| {
        assert t[..k] == s[..k];
      } else {
        assert t[..k] == s;
      }
    }
  }

  // How a receive may go: it brings something, nothing, is interrupted, finds nothing there, or fails.
  predicate Brings(x: Step) { x.call.Receive? && x.view.result > 0 }
  predicate Ended(x: Step) { x.call.Receive? && x.view.result == 0 }
  predicate Interrupted(x: Step) { x.call.Receive? && x.view.result < 0 && x.view.errno == Some(4) }
  predicate FindsNone(x: Step) { x.call.Receive? && x.view.result < 0 && x.view.errno == Some(11) }
  predicate Fails(x: Step) {
    x.call.Receive? && x.view.result < 0 && x.view.errno != Some(4) && x.view.errno != Some(11)
  }

  /** What reading returns, by how its calls went: more than 0 exactly if the last receive brought
      something, 0 exactly if it brought nothing or there was nothing, and -1 exactly if asking for
      the error failed, or if a receive failed that was not on datagrams or was the third. */
  lemma ReadResults(dgram: bool, room: int, held: seq<Byte>, s: seq<Step>)
    requires ReadRun(dgram, room, s)
    ensures s != []
    ensures var (result, now) := ReadOutcome(held, s);
            var last := s[|s| - 1];
            && (result > 0 <==> Brings(last))
            && (result == 0 <==> Ended(last) || FindsNone(last))
            && (result == -1 <==> (last.call.GetError? && last.view.result == -1)
                                  || (Fails(last) && (!dgram || Asked(s) >= 2)))
            && result >= -1
            && (result > 0 ==> result == |held| + last.view.result)
            && now == if Brings(last) then held + last.view.bytes else held
  {
    if s != [] {
      assert ReadNext(dgram, room, s[..|s| - 1]) == Some(s[|s| - 1].call);
    }
  }

  /** And before the last call: every receive was interrupted, or failed on datagrams and the
      error was asked for next; asking for it did not fail. It was asked for at most twice. */
  lemma ReadRetries(dgram: bool, room: int, s: seq<Step>, k: nat)
    requires ReadRun(dgram, room, s) && k + 1 < |s|
    ensures s[k].call == Receive(room) || s[k].call == GetError
    ensures s[k].call.Receive? ==> Interrupted(s[k]) || (dgram && Fails(s[k]))
    ensures s[k].call.Receive? ==> (s[k + 1].call.GetError? <==> Fails(s[k]))
    ensures s[k].call.GetError? ==> s[k].view.result != -1 && s[k + 1].call == Receive(room)
    ensures Asked(s[..k + 1]) <= 2
  {
    assert ReadNext(dgram, room, s[..k]) == Some(s[k].call);
    assert ReadNext(dgram, room, s[..k + 1]) == Some(s[k + 1].call);
    assert s[..k + 1][..k] == s[..k];
    AskedAtMost(dgram, room, s, k + 1);
  }

  lemma {:induction false} AskedAtMost(dgram: bool, room: int, s: seq<Step>, k: nat)
    requires k <= |s| && forall j | 0 <= j < |s| :: ReadNext(dgram, room, s[..j]) == Some(s[j].call)
    ensures Asked(s[..k]) <= 2
  {
    if k > 0 {
      AskedAtMost(dgram, room, s, k - 1);
      assert s[..k][..k - 1] == s[..k - 1];
      assert ReadNext(dgram, room, s[..k - 1]) == Some(s[k - 1].call);
    }
  }

  // ------------------------------------------------------------- the wrappers

  class Wrapper {
    var record: bool
    var playback: bool
    var errno: int
    var tapes: Tapes       // everything recorded so far, or everything to be played
    var ints: nat          // the cursors
    var shorts: nat
    var errnos: nat
    var data: nat
    var reals: seq<Real>   // how the went calls will go

    ghost predicate Valid()
      reads this
    {
      && ints <= |tapes.ints| && shorts <= |tapes.shorts| && errnos <= |tapes.errnos| && data <= |tapes.data|
      && !(record && playback)
    }

    /** What is still to be played. */
    ghost function Left(): Tapes
      requires Valid()
      reads this
    {
      Tapes(tapes.ints[ints..], tapes.shorts[shorts..], tapes.errnos[errnos..], tapes.data[data..])
    }

    /** How a real call goes. */
    method RealCall() returns (went: Real)
      modifies `reals, `errno
      ensures if old(reals) == [] then went == Real(0, 0, []) && reals == []
              else went == old(reals)[0] && reals == old(reals)[1..]
      ensures errno == went.errno
    {
      if reals == [] {
        went := Real(0, 0, []);
      } else {
        went := reals[0];
        reals := reals[1..];
      }
      errno := went.errno;
    }

    /** The next call is replayed in playback, and otherwise made and, if
        recording, put on the tapes. */
    twostate predicate Does(call: Call, new view: View)
      reads this
    {
      && old(Valid()) && Valid() && record == old(record) && playback == old(playback)
      && (playback ==>
            old(Playable(call, Left())) && view == Played(call, old(Left())) && Left() == Rest(call, old(Left()))
            && tapes == old(tapes) && reals == old(reals))
      && (!playback ==>
            var went := if old(reals) == [] then Real(0, 0, []) else old(reals)[0];
            && reals == (if old(reals) == [] then [] else old(reals)[1..])
            && view == Seen(call, went)
            && tapes == (if record then old(tapes).Then(Recording(call, went)) else old(tapes)))
      && (view.errno.Some? ==> errno == view.errno.value)
    }

    method SockClose() returns (i: int)
      requires Valid()
      modifies this
      ensures Does(Close, View(0, None, []))
    {
      if playback {
        return 0;
      }
      var went := RealCall();
      i := went.result;
      assert record ==> tapes.Then(Recording(Close, went)) == tapes;
    }

    method SockConnect() returns (i: int)
      requires Valid() && (playback ==> Playable(Connect, Left()))
      modifies this
      ensures Does(Connect, View(i, None, []))
    {
      if playback {
        i := tapes.ints[ints];
        ints := ints + 1;
        if i < 0 {
          errno := tapes.errnos[errnos];
          errnos := errnos + 1;
        }
        return;
      }
      var went := RealCall();
      i := went.result;
      if record {
        PutInt(i);
        if i < 0 {
          PutErrno(i);
        }
      }
    }

    method SockGetLastPort() returns (i: int)
      requires Valid() && (playback ==> Playable(GetLastPort, Left()))
      modifies this
      ensures Does(GetLastPort, View(i, None, []))
    {
      if playback {
        i := tapes.ints[ints];
        ints := ints + 1;
        return;
      }
      var went := RealCall();
      i := went.result;
      if record {
        PutInt(i);
      }
    }

    /** Reads from the socket: sock_read and sock_receive_any do the same here. */
    method SockRead(size: int) returns (i: int, bytes: seq<Byte>)
      requires Valid() && (playback ==> Playable(Receive(size), Left()))
      modifies this
      ensures Does(Receive(size), View(i, if i > 0 then None else Some(errno), bytes))
    {
      bytes := [];
      if playback {
        i := tapes.shorts[shorts];
        shorts := shorts + 1;
        if i > 0 {
          bytes := tapes.data[data..data + i];
          data := data + i;
        } else {
          errno := tapes.errnos[errnos];
          errnos := errnos + 1;
        }
        return;
      }
      var went := RealCall();
      i := went.result;
      if i > 0 {
        bytes := went.bytes;
      }
      if record {
        PutShort(i);
        if i > 0 {
          PutData(bytes);
        } else {
          PutErrno(errno);
        }
      }
    }

    method SockWrite(size: int) returns (i: int)
      requires Valid()
      modifies this
      ensures Does(Write(size), View(i, None, []))
    {
      if playback {
        return size;
      }
      var went := RealCall();
      i := went.result;
      assert record ==> tapes.Then(Recording(Write(size), went)) == tapes;
    }

    method SockGetError() returns (i: int)
      requires Valid() && (playback ==> Playable(GetError, Left()))
      modifies this
      ensures Does(GetError, View(i, Some(errno), []))
    {
      if playback {
        errno := tapes.errnos[errnos];
        errnos := errnos + 1;
        i := tapes.ints[ints];
        ints := ints + 1;
        return;
      }
      var went := RealCall();
      i := went.result;
      if record {
        PutErrno(errno);
        PutInt(i);
      }
    }

    method PutShort(i: int)
      requires Valid()
      modifies `tapes, `shorts
      ensures Valid() && tapes == old(tapes).(shorts := old(tapes).shorts + [ToShort(i)])
    {
      tapes := tapes.(shorts := tapes.shorts + [ToShort(i)]);
      shorts := |tapes.shorts|;
    }

    method PutData(bytes: seq<Byte>)
      requires Valid()
      modifies `tapes, `data
      ensures Valid() && tapes == old(tapes).(data := old(tapes).data + bytes)
    {
      tapes := tapes.(data := tapes.data + bytes);
      data := |tapes.data|;
    }

    method PutInt(i: int)
      requires Valid()
      modifies `tapes, `ints
      ensures Valid() && tapes == old(tapes).(ints := old(tapes).ints + [i])
    {
      tapes := tapes.(ints := tapes.ints + [i]);
      ints := |tapes.ints|;
    }

    method PutErrno(i: int)
      requires Valid()
      modifies `tapes, `errnos
      ensures Valid() && tapes == old(tapes).(errnos := old(tapes).errnos + [i])
    {
      tapes := tapes.(errnos := tapes.errnos + [i]);
      errnos := |tapes.errnos|;
    }

    /** A program that has gone through some steps is on its way through the
        run that starts from the given state. */
    ghost predicate OnRun(prog: Program, steps: seq<Step>, left0: Tapes, tapes0: Tapes, reals0: seq<Real>, n: nat)
      requires Valid()
      reads this
    {
      if playback then
        |steps| <= n && Replay(prog, left0, [], n) == Replay(prog, Left(), steps, n - |steps|)
      else
        && Record(prog, reals0, []).history == Record(prog, reals, steps).history
        && (record ==> tapes0.Then(Record(prog, reals0, []).tapes) == tapes.Then(Record(prog, reals, steps).tapes))
    }

    /** The program's run from the given state is long enough for it to end. */
    ghost predicate RunEnds(prog: Program, left0: Tapes, reals0: seq<Real>, n: nat)
      reads this
    {
      if playback then prog(Replay(prog, left0, [], n).history).None?
      else prog(Record(prog, reals0, []).history).None?
    }

    ghost predicate RunsToEnd(prog: Program, n: nat)
      requires Valid()
      reads this
    {
      RunEnds(prog, Left(), reals, n)
    }

    /** One call of the program keeps it on its run. */
    twostate lemma StaysOnRun(prog: Program, new steps: seq<Step>, new view: View, new call: Call,
                              new left0: Tapes, new tapes0: Tapes, new reals0: seq<Real>, new n: nat)
      requires Does(call, view) && prog(steps) == Some(call)
      requires old(OnRun(prog, steps, left0, tapes0, reals0, n))
      requires playback ==> |steps| < n
      requires !playback ==> old(reals) != []
      ensures OnRun(prog, steps + [Step(call, view)], left0, tapes0, reals0, n)
    {
      hide Recording, Played, Rest, Seen, Playable;
      if !playback && record {
        ThenThen(old(tapes), Recording(call, old(reals)[0]), Record(prog, reals, steps + [Step(call, view)]).tapes);
      }
    }

    /** A program that still has a call to make can make it. */
    lemma CanGoOn(prog: Program, steps: seq<Step>, left0: Tapes, tapes0: Tapes, reals0: seq<Real>, n: nat)
      requires Valid() && OnRun(prog, steps, left0, tapes0, reals0, n) && prog(steps).Some?
      requires RunEnds(prog, left0, reals0, n)
      ensures playback ==> |steps| < n && Playable(prog(steps).value, Left())
      ensures !playback ==> reals != []
    {
    }

    lemma AtTheEnd(prog: Program, steps: seq<Step>, left0: Tapes, tapes0: Tapes, reals0: seq<Real>, n: nat)
      requires Valid() && OnRun(prog, steps, left0, tapes0, reals0, n) && prog(steps).None?
      ensures playback ==> Replay(prog, left0, [], n) == Run(steps, Left())
      ensures !playback ==> Record(prog, reals0, []).history == steps
      ensures record && !playback ==> tapes == tapes0.Then(Record(prog, reals0, []).tapes)
    {
      assert tapes.Then(BLANK) == tapes;
    }

    lemma AtTheStart(prog: Program, n: nat)
      requires Valid()
      ensures OnRun(prog, [], Left(), tapes, reals, n)
    {
    }

    /** Reads into a buffer that holds some bytes: the calls it makes, what it
        returns and what the buffer holds then are those of the reading
        program, run on the real calls or on the tapes. */
    method SockbufReadRec(readable: bool, locked: bool, dgram: bool, size: int, held: seq<Byte>, ghost n: nat)
      returns (result: int, now: seq<Byte>, ghost steps: seq<Step>)
      requires Valid() && RunsToEnd(ReadProgram(dgram, size - |held|), n)
      modifies this
      ensures Valid() && record == old(record) && playback == old(playback)
      ensures !readable || locked || size <= |held| ==>
                steps == [] && now == held && result == (if readable && locked then 0 else -1)
                && tapes == old(tapes) && reals == old(reals) && Left() == old(Left())
      ensures readable && !locked && size > |held| ==>
                var prog := ReadProgram(dgram, size - |held|);
                && (result, now) == ReadOutcome(held, steps) && ReadRun(dgram, size - |held|, steps)
                && (playback ==> Replay(prog, old(Left()), [], n) == Run(steps, Left()))
                && (!playback ==> Record(prog, old(reals), []).history == steps)
                && (record && !playback ==> tapes == old(tapes).Then(Record(prog, old(reals), []).tapes))
    {
      now := held;
      steps := [];
      if !readable {
        return -1, now, steps;
      }
      if locked {
        return 0, now, steps;
      }
      if size - |held| <= 0 {
        return -1, now, steps;
      }
      result, now, steps := ReadLoop(dgram, size - |held|, held, n);
    }

    /** How many calls the run can still have. */
    ghost function CallsLeft(steps: seq<Step>, n: nat): int
      reads this
    {
      if playback then n - |steps| else |reals|
    }

    /** Reads from the socket as the next step of a program's run. */
    method ReadOnRun(room: int, ghost prog: Program, ghost steps: seq<Step>, ghost left0: Tapes, ghost tapes0: Tapes,
                     ghost reals0: seq<Real>, ghost n: nat)
      returns (len: int, bytes: seq<Byte>, ghost longer: seq<Step>)
      requires Valid() && OnRun(prog, steps, left0, tapes0, reals0, n) && prog(steps) == Some(Receive(room))
      requires RunEnds(prog, left0, reals0, n)
      modifies this
      ensures Valid() && record == old(record) && playback == old(playback)
      ensures longer == steps + [Step(Receive(room), View(len, if len > 0 then None else Some(errno), bytes))]
      ensures OnRun(prog, longer, left0, tapes0, reals0, n) && RunEnds(prog, left0, reals0, n)
      ensures 0 <= CallsLeft(longer, n) < old(CallsLeft(steps, n))
    {
      hide Replay, Record, Played, Rest, Playable, Recording, Seen, OnRun;
      CanGoOn(prog, steps, left0, tapes0, reals0, n);
      len, bytes := SockRead(room);
      ghost var view := View(len, if len > 0 then None else Some(errno), bytes);
      StaysOnRun(prog, steps, view, Receive(room), left0, tapes0, reals0, n);
      longer := steps + [Step(Receive(room), view)];
    }

    method AskOnRun(ghost prog: Program, ghost steps: seq<Step>, ghost left0: Tapes, ghost tapes0: Tapes,
                    ghost reals0: seq<Real>, ghost n: nat)
      returns (failure: int, ghost longer: seq<Step>)
      requires Valid() && OnRun(prog, steps, left0, tapes0, reals0, n) && prog(steps) == Some(GetError)
      requires RunEnds(prog, left0, reals0, n)
      modifies this
      ensures Valid() && record == old(record) && playback == old(playback)
      ensures longer == steps + [Step(GetError, View(failure, Some(errno), []))]
      ensures OnRun(prog, longer, left0, tapes0, reals0, n) && RunEnds(prog, left0, reals0, n)
      ensures 0 <= CallsLeft(longer, n) < old(CallsLeft(steps, n))
    {
      hide Replay, Record, Played, Rest, Playable, Recording, Seen, OnRun;
      CanGoOn(prog, steps, left0, tapes0, reals0, n);
      failure := SockGetError();
      ghost var view := View(failure, Some(errno), []);
      StaysOnRun(prog, steps, view, GetError, left0, tapes0, reals0, n);
      longer := steps + [Step(GetError, view)];
    }

    method ReadLoop(dgram: bool, room: int, held: seq<Byte>, ghost n: nat)
      returns (result: int, now: seq<Byte>, ghost steps: seq<Step>)
      requires Valid() && RunsToEnd(ReadProgram(dgram, room), n)
      modifies this
      ensures Valid() && record == old(record) && playback == old(playback)
      ensures (result, now) == ReadOutcome(held, steps) && ReadRun(dgram, room, steps)
      ensures var prog := ReadProgram(dgram, room);
              && (playback ==> Replay(prog, old(Left()), [], n) == Run(steps, Left()))
              && (!playback ==> Record(prog, old(reals), []).history == steps)
              && (record && !playback ==> tapes == old(tapes).Then(Record(prog, old(reals), []).tapes))
    {
      ghost var prog := ReadProgram(dgram, room);
      ghost var left0, tapes0, reals0 := Left(), tapes, reals;
      AtTheStart(prog, n);
      result, now, steps := ReadUntil(dgram, room, held, prog, left0, tapes0, reals0, n);
      hide Replay, Record, OnRun, ReadOutcome, ReadRun;
      AtTheEnd(prog, steps, left0, tapes0, reals0, n);
    }

    method ReadUntil(dgram: bool, room: int, held: seq<Byte>, ghost prog: Program, ghost left0: Tapes,
                     ghost tapes0: Tapes, ghost reals0: seq<Real>, ghost n: nat)
      returns (result: int, now: seq<Byte>, ghost steps: seq<Step>)
      requires prog == ReadProgram(dgram, room)
      requires Valid() && OnRun(prog, [], left0, tapes0, reals0, n)
      requires RunEnds(prog, left0, reals0, n)
      modifies this
      ensures Valid() && record == old(record) && playback == old(playback)
      ensures (result, now) == ReadOutcome(held, steps)
      ensures prog(steps).None? && OnRun(prog, steps, left0, tapes0, reals0, n)
      ensures ReadRun(dgram, room, steps)
    {
      hide Replay, Record, OnRun, RunEnds, Wrapper.Valid, ReadSoFar;
      NothingRead(dgram, room);
      now := held;
      steps := [];
      var i := 0;
      while true
        invariant Valid() && record == old(record) && playback == old(playback)
        invariant OnRun(prog, steps, left0, tapes0, reals0, n) && RunEnds(prog, left0, reals0, n)
        invariant ReadNext(dgram, room, steps) == Some(Receive(room)) && i == Asked(steps)
        invariant ReadSoFar(dgram, room, steps)
        decreases CallsLeft(steps, n)
      {
        var len, bytes;
        ghost var before := steps;
        len, bytes, steps := ReadOnRun(room, prog, steps, left0, tapes0, reals0, n);
        AskedMore(steps);
        ReadsOn(dgram, room, before, steps[|steps| - 1]);
        if len > 0 {
          now := held + bytes;
          return |held| + len, now, steps;
        }
        if len == 0 {
          return 0, now, steps;
        }
        if errno == EINTR {
          continue;
        }
        if errno == EWOULDBLOCK || errno == EAGAIN {
          return 0, now, steps;
        }
        i := i + 1;
        if !dgram || i > MAX_SOCKBUF_RETRIES {
          return -1, now, steps;
        }
        var failure;
        before := steps;
        failure, steps := AskOnRun(prog, steps, left0, tapes0, reals0, n);
        AskedMore(steps);
        ReadsOn(dgram, room, before, steps[|steps| - 1]);
        if failure == -1 {
          return -1, now, steps;
        }
      }
    }
  }

  lemma NothingRead(dgram: bool, room: int)
    ensures ReadSoFar(dgram, room, [])
  {
  }

  lemma AskedMore(s: seq<Step>)
    requires s != []
    ensures Asked(s) == Asked(s[..|s| - 1]) + if s[|s| - 1].call.GetError? then 1 else 0
  {
  }

  lemma ThenThen(a: Tapes, b: Tapes, c: Tapes)
    ensures a.Then(b).Then(c) == a.Then(b.Then(c))
  {
    assert a.ints + b.ints + c.ints == a.ints + (b.ints + c.ints);
    assert a.shorts + b.shorts + c.shorts == a.shorts + (b.shorts + c.shorts);
    assert a.errnos + b.errnos + c.errnos == a.errnos + (b.errnos + c.errnos);
    assert a.data + b.data + c.data == a.data + (b.data + c.data);
  }
}
