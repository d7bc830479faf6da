/** The run of Net_setup (src/client/netclient.c) as a function of what the network brings:
    when it succeeds, what it has received then, and why it fails. */
module SetupRun {
  import opened Bytes
  import opened ReliableStream
  import MapCodec

  const PKT_RELIABLE := 42

  /** The size of the setup structure, with 32-bit longs. */
  const SETUP_SIZE := 448

  /** How often the client waits for a datagram before it gives up. */
  const TRIES := 10

  // --------------------------------------------------------------- the network

  datatype Arrival = ReadError | Silence | Datagram(data: seq<Byte>)

  /** How writing an acknowledgement goes, and sending it off. */
  datatype Sending = Sending(printed: int, flushed: bool)

  /** The client's end of the line: the stream, the packet in the packet buffer, the
      arrivals still to come, and how the next acknowledgements go. */
  datatype Line = Line(stream: Stream, packet: seq<Byte>, inbox: seq<Arrival>, sends: seq<Sending>)

  datatype Cause =
    | NotReliable | BadSegment | NoRoom | AckFailed | FlushFailed | ReadFailed | TooSilent | BadHeader | BadSpecs

  datatype Fate = Went(line: Line) | GaveUp(cause: Cause)

  function NextSending(sends: seq<Sending>): Sending {
    if sends == [] then Sending(1, true) else sends[0]
  }

  function LaterSendings(sends: seq<Sending>): seq<Sending> {
    if sends == [] then [] else sends[1..]
  }

  /** What claims to be reliable data is one segment with its header, and nothing behind it. */
  predicate Tidy(d: seq<Byte>) {
    d != [] && d[0] == PKT_RELIABLE ==>
      ScanHeader(d).Header? && (ScanHeader(d).len > 0 ==> |d| <= HEADER_SIZE + ScanHeader(d).len)
  }

  /** Handling the packet in the packet buffer, if there is one. */
  function Handle(l: Line, size: int): (f: Fate)
    ensures f.Went? ==> f.line.inbox == l.inbox && |f.line.packet| <= |l.packet|
    ensures f.Went? && l.stream.unread == [] && f.line.stream.unread != [] ==> |f.line.packet| < |l.packet|
    ensures f.Went? && Tidy(l.packet) ==> f.line.packet == []
  {
    if l.packet == [] then Went(l)
    else if l.packet[0] != PKT_RELIABLE then GaveUp(NotReliable)
    else
      match ScanHeader(l.packet)
      case Incomplete =>
        if NextSending(l.sends).flushed then Went(l.(sends := LaterSendings(l.sends))) else GaveUp(FlushFailed)
      case Header(len, rel, loops) =>
        if len <= 0 || HEADER_SIZE + len > |l.packet| then GaveUp(BadSegment)
        else
          var data := l.packet[HEADER_SIZE..HEADER_SIZE + len];
          var more := Accepted(l.stream.offset, rel, data);
          var sending := NextSending(l.sends);
          if |more| > 0 && |more| > size - |l.stream.unread| then GaveUp(NoRoom)
          else if sending.printed < 0 then GaveUp(AckFailed)
          else if !sending.flushed then GaveUp(FlushFailed)
          else
            Went(Line(Receive(l.stream, size, rel, data, loops, sending.printed), l.packet[HEADER_SIZE + len..],
                      l.inbox, LaterSendings(l.sends)))
  }

  datatype Polled = Polled(n: int, rest: seq<Arrival>, data: seq<Byte>)

  /** Waiting once: -1 after an error, 0 after silence, 1 with a datagram. Empty datagrams
      are read and forgotten. */
  function Poll(inbox: seq<Arrival>): (p: Polled)
    ensures |p.rest| <= |inbox| && (p.n == 1 ==> |p.rest| < |inbox| && p.data != [])
    ensures p.n == -1 || p.n == 0 || p.n == 1
    ensures p.n != 1 ==> p.data == []
    ensures forall a <- p.rest :: a in inbox
    ensures p.n == 1 ==> Datagram(p.data) in inbox
  {
    if inbox == [] then Polled(0, [], [])
    else
      match inbox[0]
      case ReadError => Polled(-1, inbox[1..], [])
      case Silence => Polled(0, inbox[1..], [])
      case Datagram(data) => if data == [] then Poll(inbox[1..]) else Polled(1, inbox[1..], data)
  }

  function Wait(l: Line, tries: nat): (f: Fate)
    ensures f.Went? ==> |f.line.inbox| < |l.inbox|
    ensures f.Went? ==> forall a <- f.line.inbox :: a in l.inbox
    ensures f.Went? ==> f.line.packet != [] && Datagram(f.line.packet) in l.inbox
    decreases tries
  {
    if tries == 0 then GaveUp(TooSilent)
    else
      var p := Poll(l.inbox);
      if p.n == -1 then GaveUp(ReadFailed)
      else if p.n == 1 then Went(l.(inbox := p.rest, packet := p.data))
      else Wait(l.(inbox := p.rest), tries - 1)
  }

  /** Handling what has arrived and, if there is still nothing to use, waiting for more. */
  function Await(l: Line, size: int): (f: Fate)
    ensures f.Went? ==> |f.line.inbox| <= |l.inbox| && forall a <- f.line.inbox :: a in l.inbox
    ensures f.Went? && l.stream.unread == [] ==>
              |f.line.inbox| < |l.inbox| || (f.line.inbox == l.inbox && |f.line.packet| < |l.packet|)
    ensures f.Went? && Tidy(l.packet) ==> f.line.packet == [] || Datagram(f.line.packet) in l.inbox
  {
    match Handle(l, size)
    case GaveUp(c) => GaveUp(c)
    case Went(m) => if m.stream.unread != [] then Went(m) else Wait(m, TRIES)
  }

  // ----------------------------------------------------------------- the setup

  datatype Specs = Specs(mapDataLen: int, width: int, height: int, x: int, y: int, mapOrder: int)

  /** Reading the setup header from the front of some bytes: the specifications
      and how many bytes they took. */
  type Scan = seq<Byte> -> Option<(Specs, nat)>

  /** No scan takes more bytes than there are. */
  ghost predicate Fits(scan: Scan) {
    forall u: seq<Byte> :: scan(u).Some? ==> scan(u).value.1 <= |u|
  }

  predicate SpecsGood(specs: Specs, oldServer: bool) {
    && specs.mapDataLen > 0
    && specs.width > 0
    && specs.height > 0
    && (oldServer ==> 0 < specs.mapDataLen <= specs.x * specs.y)
    && (oldServer ==>
          specs.mapOrder == MapCodec.SETUP_MAP_ORDER_XY || specs.mapOrder == MapCodec.SETUP_MAP_UNCOMPRESSED)
  }

  /** What has been received so far. */
  datatype Progress = NoSetup | Got(specs: Specs, got: seq<Byte>)

  function Todo(p: Progress): int {
    if p.NoSetup? then SETUP_SIZE else p.specs.mapDataLen - |p.got|
  }

  datatype Intake = Taken(line: Line, progress: Progress) | Refused(cause: Cause)

  /** Taking in what is held of the stream. */
  ghost function TakeIn(scan: Scan, oldServer: bool, l: Line, p: Progress): (t: Intake)
    requires Fits(scan) && Todo(p) > 0
    ensures t.Taken? && l.stream.unread == [] ==> t.line == l && t.progress == p
    ensures t.Taken? && l.stream.unread != [] ==>
              t.progress.Got? && (p.Got? ==> Todo(t.progress) < Todo(p))
    ensures t.Taken? ==> t.line.inbox == l.inbox && t.line.packet == l.packet && Todo(t.progress) >= 0
  {
    var u := l.stream.unread;
    if u == [] then Taken(l, p)
    else
      match p
      case NoSetup =>
        (match scan(u)
         case None => Refused(BadHeader)
         case Some(header) =>
           if !SpecsGood(header.0, oldServer) then Refused(BadSpecs)
           else Taken(l.(stream := l.stream.(unread := u[header.1..])), Got(header.0, [])))
      case Got(specs, m) =>
        var n := if |u| > Todo(p) then Todo(p) else |u|;
        Taken(l.(stream := l.stream.(unread := u[n..])), Got(specs, m + u[..n]))
  }

  datatype Final = Failed(cause: Cause) | Received(specs: Specs, got: seq<Byte>, line: Line)

  /** The whole run. */
  ghost function Setup(scan: Scan, oldServer: bool, size: int, l: Line, p: Progress): Final
    requires Fits(scan) && Todo(p) > 0
    decreases if p.NoSetup? then 1 else 0, Todo(p), |l.inbox|, |l.packet|
  {
    match TakeIn(scan, oldServer, l, p)
    case Refused(c) => Failed(c)
    case Taken(m, q) =>
      if Todo(q) == 0 then Received(q.specs, q.got, m)
      else
        match Await(m, size)
        case GaveUp(c) => Failed(c)
        case Went(n) => Setup(scan, oldServer, size, n, q)
  }

  // ------------------------------------------------- what is received is in order

  /** A reliable data packet that holds some part of the stream. */
  ghost predicate PacketOf(sent: seq<Byte>, d: seq<Byte>) {
    var header := ScanHeader(d);
    && header.Header?
    && header.len > 0
    && |d| == HEADER_SIZE + header.len
    && PartOf(Segment(header.rel, d[HEADER_SIZE..], header.loops, 0), sent)
  }

  /** What the client may find on the network: if it claims to be reliable
      data, it is some part of the stream. */
  ghost predicate DatagramOf(sent: seq<Byte>, d: seq<Byte>) {
    d != [] && d[0] == PKT_RELIABLE ==> PacketOf(sent, d)
  }

  /** The client's part of the stream, with what it used of it so far. */
  ghost predicate OnStream(l: Line, sent: seq<Byte>, used: seq<Byte>) {
    && InOrder(Run(l.stream, used), sent)
    && DatagramOf(sent, l.packet)
    && (forall a <- l.inbox :: a.Datagram? ==> DatagramOf(sent, a.data))
  }

  lemma PacketKeepsOrder(sent: seq<Byte>, s: Stream, used: seq<Byte>, size: int, d: seq<Byte>, printed: int)
    requires InOrder(Run(s, used), sent) && PacketOf(sent, d)
    ensures var header := ScanHeader(d);
            InOrder(Run(Receive(s, size, header.rel, d[HEADER_SIZE..], header.loops, printed), used), sent)
  {
    hide ScanHeader;
    var header := ScanHeader(d);
    NextInOrder(Run(s, used), size, Segment(header.rel, d[HEADER_SIZE..], header.loops, printed), sent);
  }

  lemma UseKeepsOrder(s: Stream, used: seq<Byte>, sent: seq<Byte>, n: nat)
    requires InOrder(Run(s, used), sent) && n <= |s.unread|
    ensures InOrder(Run(s.(unread := s.unread[n..]), used + s.unread[..n]), sent)
  {
    NextInOrder(Run(s, used), 0, Use(n), sent);
  }

  lemma HeldIsNext(s: Stream, used: seq<Byte>, sent: seq<Byte>)
    requires InOrder(Run(s, used), sent)
    ensures |used| + |s.unread| == s.offset <= |sent|
    ensures s.unread == sent[|used|..|used| + |s.unread|]
    ensures forall n | 0 <= n <= |s.unread| :: s.unread[..n] == sent[|used|..|used| + n]
  {
    var all := sent[..s.offset];
    assert all == used + s.unread;
    assert s.unread == all[|used|..];
  }

  lemma HandleInOrder(l: Line, size: int, sent: seq<Byte>, used: seq<Byte>)
    requires OnStream(l, sent, used) && Handle(l, size).Went?
    ensures OnStream(Handle(l, size).line, sent, used)
  {
    hide ScanHeader, InOrder, Receive, PartOf;
    var d := l.packet;
    if d != [] {
      var header := ScanHeader(d);
      PacketKeepsOrder(sent, l.stream, used, size, d, NextSending(l.sends).printed);
      assert d[HEADER_SIZE..] == d[HEADER_SIZE..HEADER_SIZE + header.len];
      assert d[HEADER_SIZE + header.len..] == [];
    }
  }

  lemma AwaitInOrder(l: Line, size: int, sent: seq<Byte>, used: seq<Byte>)
    requires OnStream(l, sent, used) && Await(l, size).Went?
    ensures OnStream(Await(l, size).line, sent, used)
  {
    hide InOrder, Handle, DatagramOf;
    HandleInOrder(l, size, sent, used);
    var m := Handle(l, size).line;
    if m.stream.unread == [] {
      WaitKeepsStream(m, TRIES);
    }
  }

  lemma {:induction false} WaitKeepsStream(l: Line, tries: nat)
    requires Wait(l, tries).Went?
    ensures Wait(l, tries).line.stream == l.stream && Wait(l, tries).line.sends == l.sends
    decreases tries
  {
    hide Poll;
    var p := Poll(l.inbox);
    if p.n == 0 {
      WaitKeepsStream(l.(inbox := p.rest), tries - 1);
    }
  }

  /** The header was read from the stream at place start, and ends at place end. */
  ghost predicate ReadFrom(scan: Scan, sent: seq<Byte>, start: int, specs: Specs, end: int) {
    exists n: int ::
      0 <= start <= n <= |sent| && scan(sent[start..n]).Some? && scan(sent[start..n]).value.0 == specs
      && end == start + scan(sent[start..n]).value.1
  }

  /** The header was read from the stream at place start, and the map data
      that follows it in the stream is m. */
  ghost predicate Announced(scan: Scan, sent: seq<Byte>, start: int, specs: Specs, m: seq<Byte>) {
    exists end: int ::
      && ReadFrom(scan, sent, start, specs, end)
      && 0 <= end <= end + specs.mapDataLen <= |sent|
      && m == sent[end..end + specs.mapDataLen]
  }

  /** What has been received is the stream from the header on. */
  ghost predicate Receiving(scan: Scan, oldServer: bool, sent: seq<Byte>, start: int, used: seq<Byte>, p: Progress) {
    match p
    case NoSetup => start == |used|
    case Got(specs, m) =>
      && SpecsGood(specs, oldServer) && |m| <= |used| <= |sent|
      && 0 <= start <= |used| - |m|
      && ReadFrom(scan, sent, start, specs, |used| - |m|)
      && m == sent[|used| - |m|..|used|]
  }

  lemma HeaderInOrder(scan: Scan, l: Line, sent: seq<Byte>, used: seq<Byte>)
    requires Fits(scan) && OnStream(l, sent, used) && scan(l.stream.unread).Some?
    ensures var u := l.stream.unread;
            var (specs, k) := scan(u).value;
            && k <= |u| && |used| + |u| <= |sent|
            && OnStream(l.(stream := l.stream.(unread := u[k..])), sent, used + u[..k])
            && ReadFrom(scan, sent, |used|, specs, |used| + k)
  {
    hide InOrder, DatagramOf, ReadFrom;
    var u := l.stream.unread;
    HeldIsNext(l.stream, used, sent);
    UseKeepsOrder(l.stream, used, sent, scan(u).value.1);
    ReadAt(scan, sent, |used|, |used| + |u|);
  }

  lemma BytesInOrder(l: Line, sent: seq<Byte>, used: seq<Byte>, m: seq<Byte>, n: nat)
    requires OnStream(l, sent, used) && n <= |l.stream.unread| && |m| <= |used| <= |sent|
    requires m == sent[|used| - |m|..|used|]
    ensures var u := l.stream.unread;
            var more := used + u[..n];
            && |more| <= |sent| && OnStream(l.(stream := l.stream.(unread := u[n..])), sent, more)
            && m + u[..n] == sent[|used| - |m|..|more|]
  {
    hide InOrder, DatagramOf;
    var u := l.stream.unread;
    HeldIsNext(l.stream, used, sent);
    UseKeepsOrder(l.stream, used, sent, n);
    assert sent[|used| - |m|..|used|] + sent[|used|..|used| + n] == sent[|used| - |m|..|used| + n];
  }

  /** Taking in keeps the stream in order; what is used more is what was taken. */
  lemma TakeInOrder(scan: Scan, oldServer: bool, l: Line, p: Progress, sent: seq<Byte>, start: int, used: seq<Byte>)
    returns (more: seq<Byte>)
    requires Fits(scan) && Todo(p) > 0 && OnStream(l, sent, used) && Receiving(scan, oldServer, sent, start, used, p)
    requires TakeIn(scan, oldServer, l, p).Taken?
    ensures var t := TakeIn(scan, oldServer, l, p);
            && OnStream(t.line, sent, more) && Receiving(scan, oldServer, sent, start, more, t.progress)
            && (p.Got? ==> t.progress.Got? && t.progress.specs == p.specs)
            && |more| + |t.line.stream.unread| == |used| + |l.stream.unread|
            && (l.stream.unread == [] ==> more == used)
            && |t.line.stream.unread| <= |l.stream.unread|
  {
    hide OnStream, SpecsGood, ReadFrom, Fits;
    var u := l.stream.unread;
    if u == [] {
      more := used;
    } else if p.NoSetup? {
      var k := scan(u).value.1;
      HeaderInOrder(scan, l, sent, used);
      more := used + u[..k];
      assert sent[|more|..|more|] == [];
    } else {
      var n := if |u| > Todo(p) then Todo(p) else |u|;
      BytesInOrder(l, sent, used, p.got, n);
      more := used + u[..n];
    }
  }

  lemma ReadAt(scan: Scan, sent: seq<Byte>, start: int, n: int)
    requires 0 <= start <= n <= |sent| && scan(sent[start..n]).Some?
    ensures ReadFrom(scan, sent, start, scan(sent[start..n]).value.0, start + scan(sent[start..n]).value.1)
  {
  }

  /** What is received in the end is the map that the stream has after the header. */
  lemma {:induction false} SetupInOrder(scan: Scan, oldServer: bool, size: int, l: Line, p: Progress, sent: seq<Byte>,
                                        start: int, used: seq<Byte>)
    requires Fits(scan) && Todo(p) > 0 && OnStream(l, sent, used) && Receiving(scan, oldServer, sent, start, used, p)
    ensures var f := Setup(scan, oldServer, size, l, p);
            f.Received? ==>
              && SpecsGood(f.specs, oldServer) && Announced(scan, sent, start, f.specs, f.got)
              && |f.got| == f.specs.mapDataLen
    decreases if p.NoSetup? then 1 else 0, Todo(p), |l.inbox|, |l.packet|
  {
    hide InOrder, DatagramOf, SpecsGood, ReadFrom, TakeIn, Await, OnStream, Fits;
    var t := TakeIn(scan, oldServer, l, p);
    if t.Taken? {
      var more := TakeInOrder(scan, oldServer, l, p, sent, start, used);
      if Todo(t.progress) > 0 && Await(t.line, size).Went? {
        AwaitInOrder(t.line, size, sent, more);
        SetupInOrder(scan, oldServer, size, Await(t.line, size).line, t.progress, sent, start, more);
      }
    }
  }

  // ------------------------------------------------------------- when it succeeds

  /** The datagrams that are still to come, without the empty ones. */
  function Data(inbox: seq<Arrival>): seq<seq<Byte>> {
    if inbox == [] then []
    else (if inbox[0].Datagram? && inbox[0].data != [] then [inbox[0].data] else []) + Data(inbox[1..])
  }

  function Coming(l: Line): seq<seq<Byte>> {
    (if l.packet == [] then [] else [l.packet]) + Data(l.inbox)
  }

  /** The place in the stream after a packet: its segment counts if it covers the place before. */
  function PlaceAfter(place: int, d: seq<Byte>): int {
    match ScanHeader(d)
    case Incomplete => place
    case Header(len, rel, _) => if rel <= place < rel + len then rel + len else place
  }

  /** The place that all packets together lead to. */
  function Reach(place: int, ds: seq<seq<Byte>>): int
    decreases |ds|
  {
    if ds == [] then place else Reach(PlaceAfter(place, ds[0]), ds[1..])
  }

  /** The place that the first packet leads to that adds something. */
  function First(place: int, ds: seq<seq<Byte>>): int {
    if ds == [] then place
    else if PlaceAfter(place, ds[0]) != place then PlaceAfter(place, ds[0])
    else First(place, ds[1..])
  }

  /** There are never ten silences in a row; n is how many there were just before. */
  predicate Lively(inbox: seq<Arrival>, n: nat) {
    inbox == [] ||
    match inbox[0]
    case ReadError => false
    case Silence => n + 1 < TRIES && Lively(inbox[1..], n + 1)
    case Datagram(data) => Lively(inbox[1..], if data == [] then n else 0)
  }

  /** A reliable packet whose segment fits into the empty stream buffer. */
  ghost predicate GoodPacket(sent: seq<Byte>, size: int, d: seq<Byte>) {
    d != [] && d[0] == PKT_RELIABLE && PacketOf(sent, d) && |d| - HEADER_SIZE <= size
  }

  /** The network serves the client: no error, no long silence, reliable packets only, and
      sending acknowledgements works. */
  ghost predicate Served(l: Line, sent: seq<Byte>, size: int) {
    && (forall a <- l.inbox :: a.Datagram? && a.data != [] ==> GoodPacket(sent, size, a.data))
    && (l.packet != [] ==>
          GoodPacket(sent, size, l.packet) && |l.stream.unread| + |l.packet| - HEADER_SIZE <= size)
    && (forall x <- l.sends :: x.printed >= 0 && x.flushed)
    && Lively(l.inbox, 0)
  }

  lemma {:induction false} PollServed(inbox: seq<Arrival>, n: nat)
    requires Lively(inbox, n) && Data(inbox) != []
    ensures var p := Poll(inbox);
            && (p.n == 1 || p.n == 0)
            && (p.n == 1 ==> Data(inbox) == [p.data] + Data(p.rest) && Lively(p.rest, 0))
            && (p.n == 0 ==> Data(p.rest) == Data(inbox) && n + 1 < TRIES && Lively(p.rest, n + 1))
  {
    if inbox[0].Datagram? && inbox[0].data == [] {
      PollServed(inbox[1..], n);
    }
  }

  lemma {:induction false} WaitServed(l: Line, tries: nat)
    requires tries <= TRIES && Lively(l.inbox, TRIES - tries) && Data(l.inbox) != [] && tries > 0
    ensures var f := Wait(l, tries);
            && f.Went?
            && Data(l.inbox) == [f.line.packet] + Data(f.line.inbox) && Lively(f.line.inbox, 0)
            && f.line.stream == l.stream && f.line.sends == l.sends
    decreases tries
  {
    hide Poll, Lively, Data;
    PollServed(l.inbox, TRIES - tries);
    var p := Poll(l.inbox);
    if p.n == 0 {
      WaitServed(l.(inbox := p.rest), tries - 1);
    }
  }

  lemma HandleServed(l: Line, sent: seq<Byte>, size: int)
    requires Served(l, sent, size)
    ensures var f := Handle(l, size);
            && f.Went? && f.line.packet == [] && f.line.inbox == l.inbox
            && f.line.stream.offset ==
                 (if l.packet == [] then l.stream.offset else PlaceAfter(l.stream.offset, l.packet))
            && (f.line.stream.unread == [] <==> l.stream.unread == [] && f.line.stream.offset == l.stream.offset)
            && (forall x <- f.line.sends :: x.printed >= 0 && x.flushed)
  {
    hide ScanHeader, PartOf, Lively;
    if l.packet != [] {
      var header := ScanHeader(l.packet);
      var data := l.packet[HEADER_SIZE..HEADER_SIZE + header.len];
      assert l.packet[HEADER_SIZE + header.len..] == [];
      assert l.sends != [] ==> NextSending(l.sends) in l.sends;
    }
  }

  lemma ComingIs(l: Line, m: Line)
    requires m.packet == [] && m.inbox == l.inbox
    ensures Coming(l) == (if l.packet == [] then [] else [l.packet]) + Coming(m)
  {
  }

  lemma ReachAfter(place: int, d: seq<Byte>, ds: seq<seq<Byte>>)
    ensures Reach(place, [d] + ds) == Reach(PlaceAfter(place, d), ds)
    ensures First(place, [d] + ds) == if PlaceAfter(place, d) != place then PlaceAfter(place, d) else First(place, ds)
  {
    assert ([d] + ds)[1..] == ds;
  }

  /** A client that is served gets on, and nothing of what is still to come is lost. */
  lemma AwaitServed(l: Line, sent: seq<Byte>, size: int)
    requires Served(l, sent, size) && (l.stream.unread != [] || Reach(l.stream.offset, Coming(l)) > l.stream.offset)
    ensures var f := Await(l, size);
            && f.Went? && Served(f.line, sent, size)
            && Reach(f.line.stream.offset, Coming(f.line)) == Reach(l.stream.offset, Coming(l))
            && (l.stream.unread == [] ==>
                  First(l.stream.offset, Coming(l)) ==
                  if f.line.stream.unread != [] then f.line.stream.offset
                  else First(f.line.stream.offset, Coming(f.line)))
  {
    hide Handle, PlaceAfter, GoodPacket, Lively, Reach, First;
    HandleServed(l, sent, size);
    var m := Handle(l, size).line;
    ComingIs(l, m);
    ReachAfter(l.stream.offset, l.packet, Coming(m));
    assert [] + Coming(m) == Coming(m);
    if m.stream.unread == [] {
      NothingComes(m.stream.offset);
      NoData(m);
      WaitServed(m, TRIES);
      var f := Wait(m, TRIES).line;
      assert Coming(f) == Coming(m);
      PacketFits(sent, size, f.packet);
    }
  }

  lemma PacketFits(sent: seq<Byte>, size: int, d: seq<Byte>)
    ensures GoodPacket(sent, size, d) ==> |d| - HEADER_SIZE <= size
  {
  }

  lemma NothingComes(place: int)
    ensures Reach(place, []) == place
  {
  }

  lemma NoData(l: Line)
    requires l.packet == []
    ensures Coming(l) == Data(l.inbox)
  {
  }

  /** Once the header is there, the rest of the map is received. */
  lemma {:induction false} GotServed(scan: Scan, oldServer: bool, size: int, l: Line, p: Progress, sent: seq<Byte>,
                                     start: int, used: seq<Byte>)
    requires Fits(scan) && Todo(p) > 0 && p.Got? && OnStream(l, sent, used) && Served(l, sent, size)
    requires Receiving(scan, oldServer, sent, start, used, p)
    requires |used| + Todo(p) <= Reach(l.stream.offset, Coming(l))
    ensures Setup(scan, oldServer, size, l, p).Received?
    decreases Todo(p), |l.inbox|, |l.packet|
  {
    hide OnStream, Fits, Await, Reach, Coming, Receiving, Lively, GoodPacket;
    HeldNext(l, sent, used);
    var more := TakeInOrder(scan, oldServer, l, p, sent, start, used);
    var t := TakeIn(scan, oldServer, l, p);
    if Todo(t.progress) > 0 {
      SameComing(l, t.line);
      AwaitServed(t.line, sent, size);
      AwaitInOrder(t.line, size, sent, more);
      GotServed(scan, oldServer, size, Await(t.line, size).line, t.progress, sent, start, more);
    }
  }

  lemma HeldNext(l: Line, sent: seq<Byte>, used: seq<Byte>)
    requires OnStream(l, sent, used)
    ensures |used| + |l.stream.unread| == l.stream.offset <= |sent|
    ensures l.stream.unread == sent[|used|..l.stream.offset]
  {
    HeldIsNext(l.stream, used, sent);
    hide InOrder;
  }

  lemma SameComing(l: Line, m: Line)
    requires l.packet == m.packet && l.inbox == m.inbox
    ensures Coming(l) == Coming(m)
  {
  }

  /** The first bytes to be held begin with the header, and the map behind it is within reach. */
  ghost predicate MapComes(scan: Scan, oldServer: bool, l: Line, sent: seq<Byte>, start: int, specs: Specs) {
    var n := if l.stream.unread != [] then l.stream.offset else First(l.stream.offset, Coming(l));
    && 0 <= start <= n <= |sent| && scan(sent[start..n]).Some? && scan(sent[start..n]).value.0 == specs
    && SpecsGood(specs, oldServer)
    && start + scan(sent[start..n]).value.1 + specs.mapDataLen <= Reach(l.stream.offset, Coming(l))
  }

  /** A client that is served receives the map, whatever is lost, repeated or reordered on the way. */
  lemma {:induction false} SetupServed(scan: Scan, oldServer: bool, size: int, l: Line, sent: seq<Byte>,
                                       used: seq<Byte>, specs: Specs)
    requires Fits(scan) && OnStream(l, sent, used) && Served(l, sent, size)
    requires MapComes(scan, oldServer, l, sent, |used|, specs)
    ensures Setup(scan, oldServer, size, l, NoSetup).Received?
    decreases |l.inbox|, |l.packet|
  {
    hide OnStream, Fits, Await, Reach, First, Coming, Lively, GoodPacket, SpecsGood, ReadFrom;
    HeldNext(l, sent, used);
    if l.stream.unread == [] {
      PositiveLength(specs, oldServer);
      AwaitServed(l, sent, size);
      AwaitInOrder(l, size, sent, used);
      SetupServed(scan, oldServer, size, Await(l, size).line, sent, used, specs);
    } else {
      PositiveLength(specs, oldServer);
      var more := TakeInOrder(scan, oldServer, l, NoSetup, sent, |used|, used);
      var t := TakeIn(scan, oldServer, l, NoSetup);
      SameComing(l, t.line);
      HeldNext(t.line, sent, more);
      AwaitServed(t.line, sent, size);
      AwaitInOrder(t.line, size, sent, more);
      GotServed(scan, oldServer, size, Await(t.line, size).line, t.progress, sent, |used|, more);
    }
  }

  lemma PositiveLength(specs: Specs, oldServer: bool)
    requires SpecsGood(specs, oldServer)
    ensures specs.mapDataLen > 0
  {
  }

  lemma {:induction false} ReachRises(place: int, ds: seq<seq<Byte>>)
    ensures place <= Reach(place, ds)
    decreases |ds|
  {
    hide ScanHeader;
    if ds != [] {
      ReachRises(PlaceAfter(place, ds[0]), ds[1..]);
    }
  }

  /** A segment that is not ahead of the place reached before it takes the client past itself. */
  lemma {:induction false} ReachPast(place: int, ds: seq<seq<Byte>>, i: nat)
    requires i < |ds| && ScanHeader(ds[i]).Header?
    requires ScanHeader(ds[i]).rel <= Reach(place, ds[..i])
    ensures ScanHeader(ds[i]).rel + ScanHeader(ds[i]).len <= Reach(place, ds)
    decreases i
  {
    hide ScanHeader;
    if i == 0 {
      ReachRises(PlaceAfter(place, ds[0]), ds[1..]);
    } else {
      assert ds[..i][1..] == ds[1..][..i - 1];
      ReachPast(PlaceAfter(place, ds[0]), ds[1..], i - 1);
    }
  }

  // ------------------------------------------------------------------ why it fails

  predicate Arrives(l: Line, d: seq<Byte>) {
    d != [] && (d == l.packet || Datagram(d) in l.inbox)
  }

  function Silences(s: seq<Arrival>): nat {
    if s == [] then 0 else (if s[0].Silence? then 1 else 0) + Silences(s[1..])
  }

  /** No datagram but empty ones. */
  predicate Quiet(s: seq<Arrival>) {
    forall a <- s :: a.Silence? || a == Datagram([])
  }

  /** From some arrival on there are n silences before a datagram or an error, or nothing comes any more. */
  ghost predicate LongSilence(inbox: seq<Arrival>, n: nat) {
    exists i, j :: 0 <= i <= j <= |inbox| && SilentFrom(inbox, i, j, n)
  }

  ghost predicate SilentFrom(inbox: seq<Arrival>, i: nat, j: nat, n: nat)
    requires i <= j <= |inbox|
  {
    Quiet(inbox[i..j]) && (Silences(inbox[i..j]) >= n || j == |inbox|)
  }

  /** What must be so if the run fails for cause c; b bounds what is held when the packet is handled. */
  ghost predicate Blamed(c: Cause, scan: Scan, oldServer: bool, size: int, l: Line, sent: seq<Byte>, start: int,
                         b: int)
  {
    match c
    case NotReliable => exists d :: Arrives(l, d) && d[0] != PKT_RELIABLE
    case BadSegment =>
      exists d :: Arrives(l, d) && d[0] == PKT_RELIABLE && ScanHeader(d).Header?
                  && (ScanHeader(d).len <= 0 || |d| < HEADER_SIZE + ScanHeader(d).len)
    case NoRoom =>
      exists d :: Arrives(l, d) && d[0] == PKT_RELIABLE && ScanHeader(d).Header? && ScanHeader(d).len > size - b
    case AckFailed => exists x <- l.sends :: x.printed < 0
    case FlushFailed => exists x <- l.sends :: !x.flushed
    case ReadFailed => ReadError in l.inbox
    case TooSilent => LongSilence(l.inbox, TRIES)
    case BadHeader => exists n :: 0 <= start < n <= |sent| && scan(sent[start..n]).None?
    case BadSpecs =>
      exists n :: 0 <= start < n <= |sent| && scan(sent[start..n]).Some?
                  && !SpecsGood(scan(sent[start..n]).value.0, oldServer)
  }

  /** These are the later ones of the arrivals. */
  predicate Later(was: seq<Arrival>, now: seq<Arrival>) {
    |now| <= |was| && now == was[|was| - |now|..]
  }

  lemma LaterTrans(a: seq<Arrival>, b: seq<Arrival>, c: seq<Arrival>)
    requires Later(a, b) && Later(b, c)
    ensures Later(a, c)
  {
  }

  lemma {:induction false} PollLater(inbox: seq<Arrival>)
    ensures Later(inbox, Poll(inbox).rest)
  {
    if inbox != [] && inbox[0] == Datagram([]) {
      PollLater(inbox[1..]);
      LaterTrans(inbox, inbox[1..], Poll(inbox).rest);
    }
  }

  lemma {:induction false} WaitLater(l: Line, tries: nat)
    requires Wait(l, tries).Went?
    ensures Later(l.inbox, Wait(l, tries).line.inbox)
    decreases tries
  {
    hide Later, Poll;
    PollLater(l.inbox);
    var p := Poll(l.inbox);
    if p.n == 0 {
      WaitLater(l.(inbox := p.rest), tries - 1);
      LaterTrans(l.inbox, p.rest, Wait(l, tries).line.inbox);
    }
  }

  lemma LaterSilence(was: seq<Arrival>, now: seq<Arrival>, n: nat)
    requires Later(was, now) && LongSilence(now, n)
    ensures LongSilence(was, n)
  {
    var k := |was| - |now|;
    var i, j :| 0 <= i <= j <= |now| && SilentFrom(now, i, j, n);
    assert now[i..j] == was[k + i..k + j];
    assert SilentFrom(was, k + i, k + j, n);
  }

  /** One more silence, after which there are n more. */
  lemma {:induction false} PollSilent(inbox: seq<Arrival>) returns (k: nat)
    requires Poll(inbox).n == 0
    ensures k <= |inbox| && inbox[k..] == Poll(inbox).rest && Quiet(inbox[..k])
    ensures Silences(inbox[..k]) == 1 || k == |inbox|
  {
    if inbox == [] {
      k := 0;
    } else if inbox[0].Silence? {
      k := 1;
      assert inbox[..1][1..] == [];
    } else {
      var n := PollSilent(inbox[1..]);
      k := n + 1;
      assert inbox[..k] == [inbox[0]] + inbox[1..][..n];
      assert inbox[..k][1..] == inbox[1..][..n];
    }
  }

  lemma {:induction false} SilencesAdd(a: seq<Arrival>, b: seq<Arrival>)
    ensures Silences(a + b) == Silences(a) + Silences(b)
  {
    if a == [] {
      assert a + b == b;
    } else {
      assert (a + b)[1..] == a[1..] + b;
      SilencesAdd(a[1..], b);
    }
  }

  lemma {:induction false} WaitSilent(l: Line, tries: nat) returns (j: nat)
    requires Wait(l, tries) == GaveUp(TooSilent)
    ensures j <= |l.inbox| && SilentFrom(l.inbox, 0, j, tries)
    decreases tries
  {
    hide Poll, Quiet, Silences;
    if tries == 0 {
      NoSilenceYet(l.inbox);
      j := 0;
    } else {
      var p := Poll(l.inbox);
      var k := PollSilent(l.inbox);
      var n := WaitSilent(l.(inbox := p.rest), tries - 1);
      j := k + n;
      SilentOn(l.inbox, k, n, tries - 1);
    }
  }

  lemma NoSilenceYet(inbox: seq<Arrival>)
    ensures SilentFrom(inbox, 0, 0, 0)
  {
  }

  lemma SilentOn(inbox: seq<Arrival>, k: nat, n: nat, tries: nat)
    requires k <= |inbox| && Quiet(inbox[..k]) && (Silences(inbox[..k]) == 1 || k == |inbox|)
    requires n <= |inbox| - k && SilentFrom(inbox[k..], 0, n, tries)
    ensures SilentFrom(inbox, 0, k + n, tries + 1)
  {
    var j := k + n;
    assert inbox[k..][0..n] == inbox[k..j];
    assert inbox[0..j] == inbox[..k] + inbox[k..j];
    SilencesAdd(inbox[..k], inbox[k..j]);
  }

  lemma TidyPackets(l: Line, sent: seq<Byte>, used: seq<Byte>)
    requires OnStream(l, sent, used)
    ensures Tidy(l.packet)
  {
    hide ScanHeader, InOrder, PartOf;
  }

  lemma HandleBlamed(scan: Scan, oldServer: bool, size: int, l: Line, sent: seq<Byte>, start: int, b: int)
    requires Handle(l, size).GaveUp? && |l.stream.unread| <= b
    ensures Blamed(Handle(l, size).cause, scan, oldServer, size, l, sent, start, b)
  {
    hide ScanHeader, Receive;
    var d := l.packet;
    assert Arrives(l, d);
    var x := NextSending(l.sends);
    assert l.sends != [] ==> x in l.sends;
    AcceptedSize(l.stream.offset, ScanHeader(d), d);
  }

  lemma AcceptedSize(offset: int, h: Header, d: seq<Byte>)
    requires h == ScanHeader(d)
    ensures h.Header? && h.len > 0 && HEADER_SIZE + h.len <= |d| ==>
              |Accepted(offset, h.rel, d[HEADER_SIZE..HEADER_SIZE + h.len])| <= h.len
  {
    hide ScanHeader;
  }

  lemma {:induction false} PollError(inbox: seq<Arrival>)
    ensures Poll(inbox).n == -1 ==> ReadError in inbox
  {
    if inbox != [] {
      PollError(inbox[1..]);
    }
  }

  lemma {:induction false} WaitBlamed(l: Line, tries: nat)
    requires Wait(l, tries).GaveUp?
    ensures Wait(l, tries).cause == TooSilent || (Wait(l, tries).cause == ReadFailed && ReadError in l.inbox)
    decreases tries
  {
    hide Poll;
    var p := Poll(l.inbox);
    PollError(l.inbox);
    if tries > 0 && p.n == 0 {
      WaitBlamed(l.(inbox := p.rest), tries - 1);
    }
  }

  lemma AwaitBlamed(scan: Scan, oldServer: bool, size: int, l: Line, sent: seq<Byte>, start: int, b: int)
    requires Await(l, size).GaveUp? && (l.packet != [] ==> |l.stream.unread| <= b)
    ensures Blamed(Await(l, size).cause, scan, oldServer, size, l, sent, start, b)
  {
    hide Handle, Blamed, LongSilence;
    if Handle(l, size).GaveUp? {
      HandleNeedsPacket(l, size);
      HandleBlamed(scan, oldServer, size, l, sent, start, b);
    } else {
      var m := Handle(l, size).line;
      WaitBlamed(m, TRIES);
      if Wait(m, TRIES).cause == TooSilent {
        var j := WaitSilent(m, TRIES);
        SilenceFrom(m.inbox, j, TRIES);
      }
      NetworkBlamed(Wait(m, TRIES).cause, scan, oldServer, size, l, sent, start, b);
    }
  }

  lemma SilenceFrom(inbox: seq<Arrival>, j: nat, n: nat)
    requires j <= |inbox| && SilentFrom(inbox, 0, j, n)
    ensures LongSilence(inbox, n)
  {
  }

  lemma HandleNeedsPacket(l: Line, size: int)
    requires Handle(l, size).GaveUp?
    ensures l.packet != []
  {
  }

  lemma NetworkBlamed(c: Cause, scan: Scan, oldServer: bool, size: int, l: Line, sent: seq<Byte>, start: int, b: int)
    requires (c == TooSilent && LongSilence(l.inbox, TRIES)) || (c == ReadFailed && ReadError in l.inbox)
    ensures Blamed(c, scan, oldServer, size, l, sent, start, b)
  {
    hide LongSilence;
  }

  /** What is to blame later was there before. */
  lemma BlamedBefore(c: Cause, scan: Scan, oldServer: bool, size: int, l: Line, n: Line, sent: seq<Byte>, start: int,
                     b: int)
    requires Blamed(c, scan, oldServer, size, n, sent, start, b)
    requires Later(l.inbox, n.inbox) && (n.packet == [] || Datagram(n.packet) in l.inbox)
    requires forall x <- n.sends :: x in l.sends
    ensures Blamed(c, scan, oldServer, size, l, sent, start, b)
  {
    hide ScanHeader, LongSilence, SpecsGood;
    if c == TooSilent {
      LaterSilence(l.inbox, n.inbox, TRIES);
    }
    assert forall a <- n.inbox :: a in l.inbox;
    assert forall d :: Arrives(n, d) ==> Arrives(l, d);
  }

  lemma AwaitLater(l: Line, size: int)
    requires Await(l, size).Went? && Tidy(l.packet)
    ensures var n := Await(l, size).line;
            && Later(l.inbox, n.inbox) && (n.packet == [] || Datagram(n.packet) in l.inbox)
            && (n.packet != [] ==> n.stream.unread == []) && forall x <- n.sends :: x in l.sends
  {
    hide ScanHeader, Receive;
    var m := Handle(l, size).line;
    assert forall x <- m.sends :: x in l.sends;
    hide Handle;
    if m.stream.unread == [] {
      WaitLater(m, TRIES);
      WaitKeepsStream(m, TRIES);
    }
  }

  lemma TakeInBlamed(scan: Scan, oldServer: bool, size: int, l: Line, p: Progress, sent: seq<Byte>, start: int,
                     used: seq<Byte>, b: int)
    requires Fits(scan) && Todo(p) > 0 && OnStream(l, sent, used) && Receiving(scan, oldServer, sent, start, used, p)
    requires TakeIn(scan, oldServer, l, p).Refused?
    ensures Blamed(TakeIn(scan, oldServer, l, p).cause, scan, oldServer, size, l, sent, start, b)
  {
    HeldNext(l, sent, used);
    hide OnStream, SpecsGood, Fits;
    assert sent[start..l.stream.offset] == l.stream.unread;
  }

  /** A run fails only for one of these reasons. */
  lemma {:induction false} SetupBlamed(scan: Scan, oldServer: bool, size: int, l: Line, p: Progress, sent: seq<Byte>,
                                       start: int, used: seq<Byte>, b: int)
    requires Fits(scan) && Todo(p) > 0 && OnStream(l, sent, used) && Receiving(scan, oldServer, sent, start, used, p)
    requires 0 <= b && (l.packet != [] ==> |l.stream.unread| <= b)
    ensures var f := Setup(scan, oldServer, size, l, p);
            f.Failed? ==> Blamed(f.cause, scan, oldServer, size, l, sent, start, b)
    decreases if p.NoSetup? then 1 else 0, Todo(p), |l.inbox|, |l.packet|
  {
    hide OnStream, Fits, Await, Receiving, Blamed, Later, Tidy;
    var t := TakeIn(scan, oldServer, l, p);
    if t.Refused? {
      TakeInBlamed(scan, oldServer, size, l, p, sent, start, used, b);
    } else if Todo(t.progress) > 0 {
      var more := TakeInOrder(scan, oldServer, l, p, sent, start, used);
      TidyPackets(t.line, sent, more);
      if Await(t.line, size).GaveUp? {
        AwaitBlamed(scan, oldServer, size, t.line, sent, start, b);
        SameBlame(Await(t.line, size).cause, scan, oldServer, size, l, t.line, sent, start, b);
      } else {
        var n := Await(t.line, size).line;
        AwaitInOrder(t.line, size, sent, more);
        AwaitLater(t.line, size);
        SetupBlamed(scan, oldServer, size, n, t.progress, sent, start, more, b);
        var f := Setup(scan, oldServer, size, n, t.progress);
        if f.Failed? {
          BlamedBefore(f.cause, scan, oldServer, size, l, n, sent, start, b);
        }
      }
    }
  }

  lemma SameBlame(c: Cause, scan: Scan, oldServer: bool, size: int, l: Line, n: Line, sent: seq<Byte>, start: int,
                  b: int)
    requires Blamed(c, scan, oldServer, size, n, sent, start, b)
    requires l.inbox == n.inbox && l.packet == n.packet && l.sends == n.sends
    ensures Blamed(c, scan, oldServer, size, l, sent, start, b)
  {
    hide ScanHeader, LongSilence, SpecsGood;
    assert forall d :: Arrives(n, d) ==> Arrives(l, d);
  }

  /** On a client whose stream is in order: what is received is the announced map, failure has
      one of the named causes, and a client that is served receives the map. */
  lemma RunPromises(scan: Scan, oldServer: bool, size: int, l: Line)
    requires Fits(scan)
    ensures var f := Setup(scan, oldServer, size, l, NoSetup);
            forall sent, used | OnStream(l, sent, used) ::
              && (f.Received? ==> Announced(scan, sent, |used|, f.specs, f.got))
              && (f.Failed? ==> Blamed(f.cause, scan, oldServer, size, l, sent, |used|, |l.stream.unread|))
              && (forall specs | Served(l, sent, size) && MapComes(scan, oldServer, l, sent, |used|, specs) ::
                    f.Received?)
  {
    hide OnStream, Served, MapComes, Blamed, Announced, Setup, Fits;
    forall sent, used | OnStream(l, sent, used)
      ensures var f := Setup(scan, oldServer, size, l, NoSetup);
              && (f.Received? ==> Announced(scan, sent, |used|, f.specs, f.got))
              && (f.Failed? ==> Blamed(f.cause, scan, oldServer, size, l, sent, |used|, |l.stream.unread|))
              && (forall specs | Served(l, sent, size) && MapComes(scan, oldServer, l, sent, |used|, specs) ::
                    f.Received?)
    {
      SetupInOrder(scan, oldServer, size, l, NoSetup, sent, |used|, used);
      SetupBlamed(scan, oldServer, size, l, NoSetup, sent, |used|, used, |l.stream.unread|);
      forall specs | Served(l, sent, size) && MapComes(scan, oldServer, l, sent, |used|, specs)
        ensures Setup(scan, oldServer, size, l, NoSetup).Received?
      {
        SetupServed(scan, oldServer, size, l, sent, used, specs);
      }
    }
  }
}
