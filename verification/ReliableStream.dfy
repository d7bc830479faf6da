/** The client's end of the reliable data stream (src/client/netclient.c): what
    runs of the protocol keep, and the packet handler that takes its steps. */
module ReliableStream {
  import opened Bytes
  import opened Sockbufs

  // ------------------------------------------------------- the stream's steps

  datatype Ack = Ack(offset: int, loops: int)

  /** What the client holds: its place in the stream, the bytes it has copied
      but not used yet, and the acknowledgements it has sent. */
  datatype Stream = Stream(offset: int, unread: seq<Byte>, acks: seq<Ack>)

  /** The part of a segment that continues the stream at the given place. */
  function Accepted(offset: int, rel: int, data: seq<Byte>): seq<Byte> {
    if rel > offset || rel + |data| <= offset then [] else data[offset - rel..]
  }

  /** A segment arrives; the buffer holds at most size bytes, and printed tells
      how writing the acknowledgement went. */
  function Receive(s: Stream, size: int, rel: int, data: seq<Byte>, loops: int, printed: int): Stream {
    var more := Accepted(s.offset, rel, data);
    if |more| > 0 && |more| > size - |s.unread| then s
    else
      var offset := s.offset + |more|;
      Stream(offset, s.unread + more, if printed > 0 then s.acks + [Ack(offset, loops)] else s.acks)
  }

  datatype Event =
    | Segment(rel: int, data: seq<Byte>, loops: int, printed: int)
    | Use(n: nat)  // the client uses up to n of the bytes it holds

  /** What arrives is some part of what the server has put into the stream. */
  ghost predicate PartOf(e: Event, sent: seq<Byte>) {
    e.Segment? ==>
      |e.data| > 0 && 0 <= e.rel && e.rel + |e.data| <= |sent| && e.data == sent[e.rel..e.rel + |e.data|]
  }

  datatype Run = Run(stream: Stream, used: seq<Byte>)

  function Next(r: Run, size: int, e: Event): Run {
    match e
    case Segment(rel, data, loops, printed) =>
      r.(stream := Receive(r.stream, size, rel, data, loops, printed))
    case Use(n) =>
      var k := if n <= |r.stream.unread| then n else |r.stream.unread|;
      Run(r.stream.(unread := r.stream.unread[k..]), r.used + r.stream.unread[..k])
  }

  function RunOf(size: int, events: seq<Event>): Run {
    if events == [] then Run(Stream(0, [], []), [])
    else Next(RunOf(size, events[..|events| - 1]), size, events[|events| - 1])
  }

  // ------------------------------------------------------ what every run keeps

  /** The bytes used and the bytes held are together a prefix of what was sent. */
  ghost predicate InOrder(r: Run, sent: seq<Byte>) {
    0 <= r.stream.offset <= |sent| && r.used + r.stream.unread == sent[..r.stream.offset]
  }

  lemma AcceptedContinues(sent: seq<Byte>, offset: int, rel: int, data: seq<Byte>)
    requires 0 <= offset <= |sent| && 0 <= rel && rel + |data| <= |sent| && data == sent[rel..rel + |data|]
    ensures var more := Accepted(offset, rel, data);
            offset + |more| <= |sent| && sent[..offset] + more == sent[..offset + |more|]
  {
    var more := Accepted(offset, rel, data);
    assert more == sent[offset..offset + |more|];
  }

  lemma NextInOrder(r: Run, size: int, e: Event, sent: seq<Byte>)
    requires InOrder(r, sent) && PartOf(e, sent)
    ensures InOrder(Next(r, size, e), sent)
  {
    match e
    case Segment(rel, data, loops, printed) =>
      AcceptedContinues(sent, r.stream.offset, rel, data);
      var more := Accepted(r.stream.offset, rel, data);
      assert r.used + (r.stream.unread + more) == (r.used + r.stream.unread) + more;
    case Use(n) =>
      var k := if n <= |r.stream.unread| then n else |r.stream.unread|;
      assert (r.used + r.stream.unread[..k]) + r.stream.unread[k..] == r.used + r.stream.unread;
  }

  /** Whatever is lost, repeated or reordered, the client uses the bytes of the
      stream in order, without gaps and without repeats. */
  lemma {:induction false} RunInOrder(size: int, events: seq<Event>, sent: seq<Byte>)
    requires forall i | 0 <= i < |events| :: PartOf(events[i], sent)
    ensures InOrder(RunOf(size, events), sent)
  {
    if events != [] {
      RunInOrder(size, events[..|events| - 1], sent);
      NextInOrder(RunOf(size, events[..|events| - 1]), size, events[|events| - 1], sent);
    }
  }

  /** Byte b was part of one of the segments that arrived. */
  ghost predicate Arrived(events: seq<Event>, b: int) {
    exists i :: 0 <= i < |events| && events[i].Segment? && events[i].rel <= b < events[i].rel + |events[i].data|
  }

  /** Acknowledgements never go back, and none covers a byte that did not arrive. */
  ghost predicate AcksSound(s: Stream, events: seq<Event>) {
    && (forall i | 0 <= i < |s.acks| :: s.acks[i].offset <= s.offset)
    && (forall i, j | 0 <= i < j < |s.acks| :: s.acks[i].offset <= s.acks[j].offset)
    && (forall b | 0 <= b < s.offset :: Arrived(events, b))
  }

  lemma {:induction false} RunAcksSound(size: int, events: seq<Event>)
    ensures AcksSound(RunOf(size, events).stream, events)
  {
    if events != [] {
      var front, e := events[..|events| - 1], events[|events| - 1];
      RunAcksSound(size, front);
      var before, s := RunOf(size, front).stream, RunOf(size, events).stream;
      forall b | 0 <= b < s.offset
        ensures Arrived(events, b)
      {
        if b < before.offset {
          assert Arrived(front, b);
          var i :| 0 <= i < |front| && front[i].Segment? && front[i].rel <= b < front[i].rel + |front[i].data|;
          assert events[i] == front[i];
        } else {
          assert events[|events| - 1].rel <= b < e.rel + |e.data|;
        }
      }
    }
  }

  // ------------------------------------------------------------------ progress

  /** The client has room for what segment e would add. */
  predicate Room(s: Stream, size: int, e: Event)
    requires e.Segment?
  {
    e.rel + |e.data| - s.offset <= size - |s.unread|
  }

  /** Of a run, the segments picked out continue one another from the start of the
      stream up to place end, and each finds room when it arrives; anything may
      happen in between. */
  ghost predicate Delivered(size: int, events: seq<Event>, picks: seq<nat>, end: int) {
    if picks == [] then end <= 0
    else
      var last := picks[|picks| - 1];
      && last < |events| && events[last].Segment?
      && end <= events[last].rel + |events[last].data|
      && Room(RunOf(size, events[..last]).stream, size, events[last])
      && Delivered(size, events[..last], picks[..|picks| - 1], events[last].rel)
  }

  lemma NextGoesOn(r: Run, size: int, e: Event)
    ensures r.stream.offset <= Next(r, size, e).stream.offset
    ensures e.Segment? && e.rel <= r.stream.offset && Room(r.stream, size, e) ==>
              e.rel + |e.data| <= Next(r, size, e).stream.offset
  {
  }

  /** The client's place never falls. */
  lemma {:induction false} PlaceRises(size: int, events: seq<Event>, n: nat)
    requires n <= |events|
    ensures RunOf(size, events[..n]).stream.offset <= RunOf(size, events).stream.offset
    decreases |events| - n
  {
    if n == |events| {
      assert events[..n] == events;
    } else {
      PlaceRises(size, events, n + 1);
      assert events[..n + 1][..n] == events[..n];
      NextGoesOn(RunOf(size, events[..n]), size, events[n]);
    }
  }

  /** If each next segment is sent until it arrives when there is room for it, the
      client gets past all of them, whatever else arrives, in whatever order. */
  lemma {:induction false} RunProgress(size: int, events: seq<Event>, picks: seq<nat>, end: int)
    requires Delivered(size, events, picks, end)
    ensures RunOf(size, events).stream.offset >= end
    decreases |picks|
  {
    hide RunOf, Room;
    if picks == [] {
      StartsAtZero(size, events);
    } else {
      var last := picks[|picks| - 1];
      RunProgress(size, events[..last], picks[..|picks| - 1], events[last].rel);
      RunNext(size, events, last);
      NextGoesOn(RunOf(size, events[..last]), size, events[last]);
      PlaceRises(size, events, last + 1);
    }
  }

  lemma StartsAtZero(size: int, events: seq<Event>)
    ensures RunOf(size, events).stream.offset >= 0
  {
    PlaceRises(size, events, 0);
  }

  lemma RunNext(size: int, events: seq<Event>, n: nat)
    requires n < |events|
    ensures RunOf(size, events[..n + 1]) == Next(RunOf(size, events[..n]), size, events[n])
  {
    assert events[..n + 1][..n] == events[..n];
  }

  // -------------------------------------------------------- the packet handler

  function Unsigned16(u: seq<Byte>): int
    requires |u| == 2
  {
    u[0] as int * 256 + u[1] as int
  }

  function Short(u: seq<Byte>): int
    requires |u| == 2
  {
    if u[0] >= 128 then Unsigned16(u) - 0x1_0000 else Unsigned16(u)
  }

  function Long(u: seq<Byte>): int
    requires |u| == 4
  {
    Short(u[..2]) * 0x1_0000 + Unsigned16(u[2..])
  }

  datatype Header = Incomplete | Header(len: int, rel: int, loops: int)

  const HEADER_SIZE := 11

  /** The header of a reliable data packet: type, length, offset and frame number. */
  function ScanHeader(u: seq<Byte>): Header {
    if |u| < HEADER_SIZE then Incomplete else Header(Short(u[1..3]), Long(u[3..7]), Long(u[7..11]))
  }

  /** The bytes of a number, the highest first. */
  function Bytes2(x: int): (u: seq<Byte>)
    requires 0 <= x < 0x1_0000
    ensures |u| == 2
  {
    [x / 256, x % 256]
  }

  /** The number in 16 or 32 bits whose two's complement the bytes hold. */
  lemma ShortOf(x: int)
    requires -0x8000 <= x < 0x8000
    ensures Short(Bytes2(x % 0x1_0000)) == x
  {
  }

  lemma LongOf(x: int)
    requires -0x8000_0000 <= x < 0x8000_0000
    ensures Long(Bytes2(x % 0x1_0000_0000 / 0x1_0000) + Bytes2(x % 0x1_0000)) == x
  {
  }

  /** A packet that begins with the bytes of a header is scanned for what they say. */
  lemma HeaderScanned(kind: Byte, len: int, rel: int, loops: int, rest: seq<Byte>)
    requires -0x8000 <= len < 0x8000
    requires -0x8000_0000 <= rel < 0x8000_0000 && -0x8000_0000 <= loops < 0x8000_0000
    ensures ScanHeader([kind] + Bytes2(len % 0x1_0000)
                       + Bytes2(rel % 0x1_0000_0000 / 0x1_0000) + Bytes2(rel % 0x1_0000)
                       + Bytes2(loops % 0x1_0000_0000 / 0x1_0000) + Bytes2(loops % 0x1_0000) + rest)
         == Header(len, rel, loops)
  {
    var u := [kind] + Bytes2(len % 0x1_0000)
             + Bytes2(rel % 0x1_0000_0000 / 0x1_0000) + Bytes2(rel % 0x1_0000)
             + Bytes2(loops % 0x1_0000_0000 / 0x1_0000) + Bytes2(loops % 0x1_0000) + rest;
    ShortOf(len);
    LongOf(rel);
    LongOf(loops);
    hide Short, Long, Bytes2;
    assert u[1..3] == Bytes2(len % 0x1_0000);
    assert u[3..7] == Bytes2(rel % 0x1_0000_0000 / 0x1_0000) + Bytes2(rel % 0x1_0000);
    assert u[7..11] == Bytes2(loops % 0x1_0000_0000 / 0x1_0000) + Bytes2(loops % 0x1_0000);
  }

  class Client {
    const rbuf: Sockbuf
    const cbuf: Sockbuf
    var reliableOffset: int
    var acks: seq<Ack>

    ghost predicate Valid()
      reads this, rbuf, cbuf
    {
      && rbuf.Valid() && cbuf.Valid()
      && rbuf != cbuf && rbuf.buf != cbuf.buf
    }

    /** What the client holds, in the terms of the protocol. */
    ghost function State(): Stream
      requires Valid()
      reads this, rbuf, cbuf, cbuf.buf
    {
      Stream(reliableOffset, cbuf.Unread(), acks)
    }

    constructor (size: nat)
      ensures Valid() && fresh(rbuf) && fresh(cbuf) && fresh(rbuf.buf) && fresh(cbuf.buf)
      ensures State() == RunOf(size, []).stream && rbuf.Unread() == []
    {
      rbuf := new Sockbuf(size);
      cbuf := new Sockbuf(size);
      reliableOffset := 0;
      acks := [];
    }

    /** Acknowledges the client's place in the stream; printed is what writing
        the acknowledgement into the send buffer returns. */
    method SendAck(loops: int, printed: int) returns (n: int)
      modifies `acks
      ensures acks == if printed > 0 then old(acks) + [Ack(reliableOffset, loops)] else old(acks)
      ensures n == if printed > 0 then 1 else if printed == 0 then 0 else -1
    {
      if printed <= 0 {
        return if printed == 0 then 0 else -1;
      }
      acks := acks + [Ack(reliableOffset, loops)];
      return 1;
    }

    /** Skips n bytes of the packet buffer and drops what has been read. */
    method DropPacket(n: int)
      requires rbuf.Valid() && n >= 0
      modifies rbuf, rbuf.buf
      ensures rbuf.Valid()
      ensures rbuf.Unread() == if n <= |old(rbuf.Unread())| then old(rbuf.Unread())[n..] else []
    {
      rbuf.ptr := rbuf.ptr + n;
      rbuf.Advance(rbuf.ptr);
    }

    /** Takes over the part of a complete segment that continues the stream. */
    method TakeSegment(len0: int, rel0: int, loops: int, printed: int) returns (result: int)
      requires Valid() && 0 < len0 <= |rbuf.Unread()|
      modifies `reliableOffset, `acks, rbuf, rbuf.buf, cbuf, cbuf.buf
      ensures Valid()
      ensures var s, size := old(State()), cbuf.buf.Length;
              var data := old(rbuf.Unread())[..len0];
              var more := Accepted(s.offset, rel0, data);
              && State() == Receive(s, size, rel0, data, loops, printed)
              && rbuf.Unread() == old(rbuf.Unread())[len0..]
              && (result == -1 || result == 1)
              && (result == -1 <==> printed < 0 || (|more| > 0 && |more| > size - |s.unread|))
    {
      hide Receive, Accepted, Sockbuf.Unread;
      var len, rel := len0, rel0;
      ghost var u, s := rbuf.Unread(), State();
      ReceiveCases(s, cbuf.buf.Length, rel0, u[..len0], loops, printed);
      if rel > reliableOffset {
        DropPacket(len);
        var n := SendAck(loops, printed);
        return if n == -1 then -1 else 1;
      }
      if rel + len <= reliableOffset {
        DropPacket(len);
        var n := SendAck(loops, printed);
        return if n == -1 then -1 else 1;
      }
      ghost var skip := reliableOffset - rel;
      if rel < reliableOffset {
        len := len - (reliableOffset - rel);
        rbuf.Skip(reliableOffset - rel);
        rel := reliableOffset;
      }
      Slices(u, skip, len);
      assert u[..len0][skip..] == u[skip..len0];
      result := CopySegment(len, loops, printed);
    }

    /** Copies the next len bytes of the packet to the end of the stream. */
    method CopySegment(len: int, loops: int, printed: int) returns (result: int)
      requires Valid() && 0 < len <= |rbuf.Unread()|
      modifies `reliableOffset, `acks, rbuf, rbuf.buf, cbuf, cbuf.buf
      ensures Valid()
      ensures rbuf.Unread() == old(rbuf.Unread())[len..]
      ensures var s, more := old(State()), old(rbuf.Unread())[..len];
              if len > cbuf.buf.Length - |s.unread| then State() == s && result == -1
              else
                && reliableOffset == s.offset + len
                && cbuf.Unread() == s.unread + more
                && acks == (if printed > 0 then s.acks + [Ack(reliableOffset, loops)] else s.acks)
                && result == if printed < 0 then -1 else 1
    {
      hide Sockbuf.Unread;
      if cbuf.ptr > 0 {
        cbuf.Advance(cbuf.ptr);
      }
      var more := rbuf.Peek(len);
      var written := cbuf.Write(more);
      if written != len {
        DropPacket(len);
        return -1;
      }
      reliableOffset := reliableOffset + len;
      DropPacket(len);
      var n := SendAck(loops, printed);
      return if n == -1 then -1 else 1;
    }

    /** Handles the reliable data packet at the reading position. */
    method ReceiveReliable(printed: int) returns (result: int)
      requires Valid()
      modifies `reliableOffset, `acks, rbuf, rbuf.buf, cbuf, cbuf.buf
      ensures Valid()
      ensures var u, s, size := old(rbuf.Unread()), old(State()), cbuf.buf.Length;
              match ScanHeader(u)
              case Incomplete => result == 0 && State() == s && rbuf.Unread() == u
              case Header(len, rel, loops) =>
                if len <= 0 || HEADER_SIZE + len > |u| then result == -1 && State() == s
                else
                  var data := u[HEADER_SIZE..HEADER_SIZE + len];
                  var more := Accepted(s.offset, rel, data);
                  && State() == Receive(s, size, rel, data, loops, printed)
                  && rbuf.Unread() == u[HEADER_SIZE + len..]
                  && (result == -1 || result == 1)
                  && (result == -1 <==> printed < 0 || (|more| > 0 && |more| > size - |s.unread|))
    {
      var u := rbuf.Peek(rbuf.len - rbuf.ptr);
      assert u == rbuf.Unread();
      var header := ScanHeader(u);
      hide ScanHeader, Receive, Accepted;
      if header.Incomplete? {
        return 0;
      }
      ScanLength(u);
      rbuf.Skip(HEADER_SIZE);
      var len := header.len;
      if len <= 0 {
        return -1;
      }
      if rbuf.ptr + len > rbuf.len {
        DropPacket(len);
        return -1;
      }
      Slices(u, HEADER_SIZE, len);
      result := TakeSegment(len, header.rel, header.loops, printed);
    }
  }

  lemma ReceiveCases(s: Stream, size: int, rel: int, data: seq<Byte>, loops: int, printed: int)
    ensures var more := Accepted(s.offset, rel, data);
            var r := Receive(s, size, rel, data, loops, printed);
            && (rel > s.offset || rel + |data| <= s.offset ==>
                  && more == []
                  && r == s.(acks := if printed > 0 then s.acks + [Ack(s.offset, loops)] else s.acks))
            && (rel <= s.offset < rel + |data| ==>
                  && more == data[s.offset - rel..]
                  && r == (if |more| > size - |s.unread| then s
                           else Stream(s.offset + |more|, s.unread + more,
                                       if printed > 0 then s.acks + [Ack(s.offset + |more|, loops)] else s.acks)))
  {
  }

  lemma Slices<T>(u: seq<T>, a: nat, n: nat)
    requires a + n <= |u|
    ensures u[a..][..n] == u[a..a + n]
    ensures u[a..][n..] == u[a + n..]
  {
  }

  lemma ScanLength(u: seq<Byte>)
    requires ScanHeader(u).Header?
    ensures |u| >= HEADER_SIZE
  {
  }
}
