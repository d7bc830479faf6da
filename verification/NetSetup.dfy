/** Receiving the map at the start of a game (Net_setup in src/client/netclient.c)
    over the reliable data stream. */
module NetSetup {
  import opened Bytes
  import opened Sockbufs
  import opened ReliableStream
  import opened SetupRun
  import MapCode
  import MapCodec

  /** The arrivals still to come, in whatever order the network brings them. */
  class Network {
    var inbox: seq<Arrival>

    /** Datagrams fit into the buffer, and reliable ones hold one segment. */
    ghost predicate Orderly(size: int)
      reads this
    {
      forall a <- inbox :: a.Datagram? ==> Tidy(a.data) && |a.data| <= size
    }

    constructor (inbox: seq<Arrival>)
      ensures this.inbox == inbox
    {
      this.inbox := inbox;
    }

    /** Waits for a datagram and reads it into the buffer. */
    method Poll(rbuf: Sockbuf) returns (n: int)
      requires rbuf.Valid() && rbuf.Unread() == [] && Orderly(rbuf.buf.Length)
      modifies this, rbuf, rbuf.buf
      ensures rbuf.Valid() && Orderly(rbuf.buf.Length) && Tidy(rbuf.Unread())
      ensures Polled(n, inbox, rbuf.Unread()) == SetupRun.Poll(old(inbox))
    {
      NothingIsTidy();
      hide Tidy;
      while inbox != []
        invariant rbuf.Valid() && rbuf.Unread() == [] && Orderly(rbuf.buf.Length)
        invariant SetupRun.Poll(inbox) == SetupRun.Poll(old(inbox))
        decreases |inbox|
      {
        var a := inbox[0];
        assert a in inbox;
        inbox := inbox[1..];
        match a
        case ReadError =>
          return -1;
        case Silence =>
          return 0;
        case Datagram(data) =>
          rbuf.Clear();
          rbuf.Read(data);
          if data != [] {
            return 1;
          }
      }
      return 0;
    }
  }

  lemma NothingIsTidy()
    ensures Tidy([])
  {
  }

  class Receiver {
    const client: Client
    const net: Network
    var sends: seq<Sending>  // how sending the next acknowledgements goes

    constructor (client: Client, net: Network, sends: seq<Sending>)
      ensures this.client == client && this.net == net && this.sends == sends
    {
      this.client, this.net, this.sends := client, net, sends;
    }

    ghost predicate Valid()
      reads this, client, client.rbuf, client.cbuf, client.rbuf.buf, net
    {
      && client.Valid()
      && net.Orderly(client.rbuf.buf.Length)
      && Tidy(client.rbuf.Unread())
    }

    /** The state of client and network in the terms of the run. */
    ghost function LineNow(): Line
      requires client.Valid()
      reads this, client, client.rbuf, client.cbuf, client.rbuf.buf, client.cbuf.buf, net
    {
      Line(client.State(), client.rbuf.Unread(), net.inbox, sends)
    }

    ghost function Size(): int {
      client.cbuf.buf.Length
    }

    /** How sending the next acknowledgement goes. */
    method SendNext() returns (x: Sending)
      modifies `sends
      ensures x == NextSending(old(sends)) && sends == LaterSendings(old(sends))
    {
      x := if sends == [] then Sending(1, true) else sends[0];
      sends := if sends == [] then [] else sends[1..];
    }

    /** Handles the packet in the packet buffer, if there is one. */
    method HandlePacket() returns (ok: bool)
      requires Valid()
      modifies `sends, client`reliableOffset, client`acks, client.rbuf, client.rbuf.buf, client.cbuf, client.cbuf.buf
      ensures client.Valid()
      ensures match Handle(old(LineNow()), Size())
              case GaveUp(_) => !ok
              case Went(l) => ok && LineNow() == l && Valid()
    {
      hide Sockbuf.Unread, ScanHeader, Receive;
      var rbuf := client.rbuf;
      if rbuf.ptr != 0 {
        rbuf.Advance(rbuf.ptr);
      }
      if rbuf.len == 0 {
        return true;
      }
      var kind := rbuf.Peek(1);
      if kind[0] != PKT_RELIABLE {
        return false;
      }
      var x := SendNext();
      var result := client.ReceiveReliable(x.printed);
      if result == -1 {
        return false;
      }
      return x.flushed;
    }

    /** Handles what has arrived and, if there is still nothing to use, waits
        for more, in at most ten tries. */
    method AwaitData() returns (ok: bool)
      requires Valid()
      modifies `sends, net, client`reliableOffset, client`acks
      modifies client.rbuf, client.rbuf.buf, client.cbuf, client.cbuf.buf
      ensures client.Valid()
      ensures match Await(old(LineNow()), Size())
              case GaveUp(_) => !ok
              case Went(l) => ok && LineNow() == l && Valid()
    {
      hide Sockbuf.Unread, Handle, Tidy;
      ok := HandlePacket();
      if !ok {
        return false;
      }
      EmptyPacket(old(LineNow()), Size());
      if client.cbuf.ptr != 0 {
        client.cbuf.Advance(client.cbuf.ptr);
      }
      if client.cbuf.len > 0 {
        return true;
      }
      ok := WaitForData();
    }

    /** Waits for a datagram, in at most ten tries. */
    method WaitForData() returns (ok: bool)
      requires Valid() && client.rbuf.Unread() == []
      modifies net, client.rbuf, client.rbuf.buf
      ensures client.Valid()
      ensures match Wait(old(LineNow()), TRIES)
              case GaveUp(_) => !ok
              case Went(l) => ok && LineNow() == l && Valid()
    {
      hide Sockbuf.Unread, Tidy, SetupRun.Poll;
      var retries := 0;
      while retries < 10
        invariant 0 <= retries <= 10
        invariant Valid() && client.rbuf.Unread() == [] && client.State() == old(client.State())
        invariant Wait(LineNow(), TRIES - retries) == Wait(old(LineNow()), TRIES)
      {
        var n := net.Poll(client.rbuf);
        if n == -1 {
          return false;
        }
        if n == 1 {
          return true;
        }
        retries := retries + 1;
      }
      return false;
    }

    lemma EmptyPacket(l: Line, size: int)
      requires Tidy(l.packet) && Handle(l, size).Went?
      ensures Handle(l, size).line.packet == []
    {
    }

    /** Drops what has been used from the front of the stream buffer. */
    method Compact()
      requires Valid()
      modifies client.cbuf, client.cbuf.buf
      ensures Valid() && LineNow() == old(LineNow())
      ensures client.cbuf.ptr == 0 && client.cbuf.len == |client.cbuf.Unread()|
    {
      hide Sockbuf.Unread, Tidy;
      if client.cbuf.ptr != 0 {
        client.cbuf.Advance(client.cbuf.ptr);
      }
    }

    /** Reads the setup header from what has arrived of the stream. */
    method ReadHeader(scan: Scan, oldServer: bool) returns (found: Option<Specs>)
      requires Valid() && Fits(scan)
      modifies client.cbuf
      ensures client.Valid()
      ensures match scan(old(client.cbuf.Unread()))
              case None => found.None?
              case Some(header) =>
                if !SpecsGood(header.0, oldServer) then found.None?
                else
                  && found == Some(header.0) && Valid()
                  && LineNow() == old(LineNow()).(
                       stream := old(LineNow()).stream.(unread := old(client.cbuf.Unread())[header.1..]))
    {
      hide Sockbuf.Unread, SpecsGood, Tidy;
      var u := client.cbuf.Peek(client.cbuf.len - client.cbuf.ptr);
      assert u == client.cbuf.Unread();
      match scan(u)
      case None =>
        return None;
      case Some(header) =>
        client.cbuf.Skip(header.1);
        if !SpecsGood(header.0, oldServer) {
          return None;
        }
        return Some(header.0);
    }

    /** Moves the next bytes of the stream to the place where the map is received. */
    method CopyData(data: array<Byte>, done: int, len: int)
      requires Valid()
      requires 0 < len <= |client.cbuf.Unread()| && client.cbuf.ptr == 0
      requires 0 <= done && done + len <= data.Length && data != client.cbuf.buf && data != client.rbuf.buf
      modifies client.cbuf, client.cbuf.buf, data
      ensures Valid()
      ensures data[..done + len] == old(data[..done]) + old(client.cbuf.Unread())[..len]
      ensures LineNow() == old(LineNow()).(stream := old(LineNow()).stream.(unread := old(client.cbuf.Unread())[len..]))
    {
      hide Sockbuf.Unread, Tidy;
      var u := client.cbuf.Peek(len);
      for i := 0 to len
        modifies data
        invariant forall k | 0 <= k < done :: data[k] == old(data[k])
        invariant forall k | done <= k < done + i :: data[k] == u[k - done]
      {
        data[done + i] := u[i];
      }
      assert data[..done + len] == old(data[..done]) + u;
      client.cbuf.Advance(len);
    }

    method NewSetup(specs: Specs, oldServer: bool) returns (setup: MapCodec.Setup)
      requires specs.mapDataLen > 0 && (oldServer ==> specs.mapDataLen <= specs.x * specs.y)
      ensures fresh(setup) && fresh(setup.mapData)
      ensures Stores(setup, oldServer, specs)
    {
      var size := if oldServer then specs.x * specs.y else specs.mapDataLen;
      setup := new MapCodec.Setup(specs.mapOrder, specs.x, specs.y, specs.mapDataLen, size);
    }

    /** The structure is made for these specifications. */
    ghost predicate Stores(setup: MapCodec.Setup, oldServer: bool, specs: Specs)
      reads setup
    {
      && setup.mapOrder == specs.mapOrder && setup.x == specs.x && setup.y == specs.y
      && setup.mapDataLen == specs.mapDataLen
      && setup.mapData.Length == (if oldServer then specs.x * specs.y else specs.mapDataLen)
      && specs.mapDataLen <= setup.mapData.Length
    }

    /** How far the setup structure has been filled. */
    ghost predicate Holds(setup: MapCodec.Setup?, oldServer: bool, done: int, todo: int, p: Progress)
      reads setup, if setup != null then {setup.mapData} else {}
    {
      match p
      case NoSetup => setup == null && done == 0 && todo == SETUP_SIZE
      case Got(specs, got) =>
        && setup != null && Stores(setup, oldServer, specs)
        && 0 <= done <= specs.mapDataLen && todo == specs.mapDataLen - done && |got| == done
        && setup.mapData[..done] == got
        && SpecsGood(specs, oldServer)
    }

    /** Reads the header and makes a structure for it. */
    method TakeHeader(scan: Scan, oldServer: bool) returns (setup: MapCodec.Setup?, ghost q: Progress)
      requires Valid() && Fits(scan) && client.cbuf.Unread() != []
      modifies client.cbuf
      ensures client.Valid() && Todo(NoSetup) > 0
      ensures match TakeIn(scan, oldServer, old(LineNow()), NoSetup)
              case Refused(_) => setup == null
              case Taken(l, t) =>
                && setup != null && fresh(setup) && fresh(setup.mapData)
                && Valid() && LineNow() == l && q == t
                && Holds(setup, oldServer, 0, Todo(q), q) && Todo(q) == setup.mapDataLen
    {
      hide Sockbuf.Unread, SpecsGood, Tidy;
      setup := null;
      q := NoSetup;
      var found := ReadHeader(scan, oldServer);
      if found.None? {
        return;
      }
      SizeGood(found.value, oldServer);
      setup := NewSetup(found.value, oldServer);
      q := Got(found.value, []);
    }

    /** Stores the next bytes of the map. */
    method TakeBytes(scan: Scan, oldServer: bool, setup: MapCodec.Setup, done: int, todo: int, len: int,
                     ghost p: Progress)
      returns (ghost q: Progress)
      requires Valid() && Fits(scan) && p.Got? && Holds(setup, oldServer, done, todo, p) && todo > 0
      requires client.cbuf.ptr == 0 && client.cbuf.Unread() != []
      requires len == if |client.cbuf.Unread()| > todo then todo else |client.cbuf.Unread()|
      requires setup.mapData != client.cbuf.buf && setup.mapData != client.rbuf.buf
      modifies client.cbuf, client.cbuf.buf, setup.mapData
      ensures Valid() && Todo(p) > 0
      ensures TakeIn(scan, oldServer, old(LineNow()), p) == Taken(LineNow(), q)
      ensures Holds(setup, oldServer, done + len, todo - len, q) && todo - len == Todo(q)
    {
      hide Sockbuf.Unread, SpecsGood, Tidy;
      ghost var u := client.cbuf.Unread();
      CopyData(setup.mapData, done, len);
      q := Got(p.specs, p.got + u[..len]);
    }

    lemma NothingHeld(scan: Scan, oldServer: bool, l: Line, p: Progress)
      requires Fits(scan) && Todo(p) > 0 && l.stream.unread == []
      ensures TakeIn(scan, oldServer, l, p) == Taken(l, p)
    {
    }

    /** Takes in what is held of the stream: the header first, then the map. */
    method TakeHeld(scan: Scan, oldServer: bool, setup0: MapCodec.Setup?, done0: int, todo0: int, ghost p: Progress)
      returns (ok: bool, setup: MapCodec.Setup?, done: int, todo: int, ghost q: Progress)
      requires Valid() && Fits(scan) && Holds(setup0, oldServer, done0, todo0, p) && todo0 > 0
      requires setup0 != null ==> setup0.mapData != client.cbuf.buf && setup0.mapData != client.rbuf.buf
      modifies client.cbuf, client.cbuf.buf, if setup0 != null then {setup0.mapData} else {}
      ensures client.Valid() && Todo(p) > 0
      ensures match TakeIn(scan, oldServer, old(LineNow()), p)
              case Refused(_) => !ok
              case Taken(l, t) =>
                ok && Valid() && LineNow() == l && q == t && Holds(setup, oldServer, done, todo, q) && todo == Todo(q)
      ensures ok ==> setup == setup0 || (setup != null && fresh(setup) && fresh(setup.mapData))
    {
      hide Sockbuf.Unread, SpecsGood, Tidy, TakeIn, Fits;
      ok, setup, done, todo, q := true, setup0, done0, todo0, p;
      Compact();
      var len := if client.cbuf.len > todo then todo else client.cbuf.len;
      if len > 0 {
        if setup == null {
          setup, q := TakeHeader(scan, oldServer);
          ok := setup != null;
          todo := if ok then setup.mapDataLen else todo;
        } else {
          q := TakeBytes(scan, oldServer, setup, done, todo, len, p);
          done := done + len;
          todo := todo - len;
        }
      } else {
        NothingHeld(scan, oldServer, LineNow(), p);
      }
    }

    /** Receives the setup header and the map data, and uncompresses the map if
        the server is an old one that sent it compressed. */
    method NetSetup(scan: Scan, oldServer: bool)
      returns (result: int, setup: MapCodec.Setup?, ghost specs: Specs, ghost m: seq<Byte>)
      requires Valid() && Fits(scan)
      modifies `sends, net, client`reliableOffset, client`acks
      modifies client.rbuf, client.rbuf.buf, client.cbuf, client.cbuf.buf
      ensures client.Valid()
      ensures match Setup(scan, oldServer, Size(), old(LineNow()), NoSetup)
              case Failed(_) => result == -1 && setup == null
              case Received(s, g, l) =>
                setup != null && fresh(setup) && specs == s && m == g && Valid() && LineNow() == l
      // What is received is what the stream has, failure before that has a cause, and a client that
      // is served receives the map.
      ensures forall sent, used | OnStream(old(LineNow()), sent, used) ::
                && (setup != null ==> Announced(scan, sent, |used|, specs, m))
                && (setup == null ==>
                      exists c :: Blamed(c, scan, oldServer, Size(), old(LineNow()), sent, |used|,
                                         |old(LineNow()).stream.unread|))
                && (forall s | Served(old(LineNow()), sent, Size()) &&
                               MapComes(scan, oldServer, old(LineNow()), sent, |used|, s) :: setup != null)
      // With all of the map received, it fails exactly if an old server's coded map is no map of its size.
      ensures setup != null ==>
                && |m| == setup.mapDataLen == specs.mapDataLen
                && var coded := oldServer && specs.mapOrder == MapCodec.SETUP_MAP_ORDER_XY;
                   && result == (if !coded || MapCodec.Good(m, specs.x * specs.y) then 0 else -1)
                   && (result == 0 ==>
                         if coded then MapCode.Taken(m) == Some(setup.mapData[..]) else m <= setup.mapData[..])
    {
      hide Tidy, TakeIn, Await, Handle, SpecsGood, Fits, MapCode.Taken, MapCodec.Good, Sockbuf.Unread, Holds, Setup;
      hide OnStream, Served, MapComes, Blamed, Announced;
      setup := null;
      specs, m := Specs(0, 0, 0, 0, 0, 0), [];
      ghost var p := NoSetup;
      var done := 0;
      var todo := SETUP_SIZE;
      NothingYet(oldServer);
      RunPromises(scan, oldServer, Size(), LineNow());
      ghost var whole := Setup(scan, oldServer, Size(), LineNow(), p);
      while todo > 0
        invariant Valid() && Holds(setup, oldServer, done, todo, p) && todo == Todo(p) >= 0
        invariant setup != null ==> fresh(setup) && fresh(setup.mapData)
        invariant if todo > 0 then Setup(scan, oldServer, Size(), LineNow(), p) == whole
                  else p.Got? && whole == Received(p.specs, p.got, LineNow())
        decreases if p.NoSetup? then 1 else 0, todo, |net.inbox|, |client.rbuf.Unread()|
      {
        OneRound(scan, oldServer, Size(), LineNow(), p);
        var ok;
        ok, setup, done, todo, p := TakeHeld(scan, oldServer, setup, done, todo, p);
        if !ok {
          return -1, null, specs, m;
        }
        if todo > 0 {
          ok := AwaitData();
          if !ok {
            return -1, null, specs, m;
          }
        }
      }
      specs, m := p.specs, p.got;
      StoredAll(setup, oldServer, done, specs, m);
      result := FinishSetup(setup, oldServer, specs, m);
    }

    lemma NothingYet(oldServer: bool)
      ensures Holds(null, oldServer, 0, SETUP_SIZE, NoSetup)
    {
    }

    lemma StoredAll(setup: MapCodec.Setup?, oldServer: bool, done: int, specs: Specs, m: seq<Byte>)
      requires Holds(setup, oldServer, done, 0, Got(specs, m))
      ensures setup != null && done == |m| && Holds(setup, oldServer, |m|, 0, Got(specs, m))
    {
    }

    lemma OneRound(scan: Scan, oldServer: bool, size: int, l: Line, p: Progress)
      requires Fits(scan) && Todo(p) > 0
      ensures var t, whole := TakeIn(scan, oldServer, l, p), Setup(scan, oldServer, size, l, p);
              if t.Refused? then whole == Failed(t.cause)
              else if Todo(t.progress) == 0 then
                t.progress.Got? && whole == Received(t.progress.specs, t.progress.got, t.line)
              else
                var f := Await(t.line, size);
                whole == if f.GaveUp? then Failed(f.cause) else Setup(scan, oldServer, size, f.line, t.progress)
    {
      hide TakeIn, Await;
    }

    /** Uncompresses the map if that is needed. */
    method FinishSetup(setup: MapCodec.Setup, oldServer: bool, ghost specs: Specs, ghost m: seq<Byte>)
      returns (result: int)
      requires Holds(setup, oldServer, |m|, 0, Got(specs, m))
      modifies setup, setup.mapData
      ensures |m| == setup.mapDataLen == specs.mapDataLen
      ensures var coded := oldServer && specs.mapOrder == MapCodec.SETUP_MAP_ORDER_XY;
              && result == (if !coded || MapCodec.Good(m, specs.x * specs.y) then 0 else -1)
              && (result == 0 ==>
                    if coded then MapCode.Taken(m) == Some(setup.mapData[..]) else m <= setup.mapData[..])
    {
      hide MapCode.Taken, MapCodec.Good, SpecsGood;
      SizeGood(specs, oldServer);
      if oldServer && setup.mapOrder != MapCodec.SETUP_MAP_UNCOMPRESSED {
        result := setup.UncompressMap();
        GoodIsTaken(m, specs.x * specs.y);
        assert setup.mapData[..] == setup.mapData[..specs.x * specs.y];
        return;
      }
      result := 0;
    }

    lemma GoodIsTaken(m: seq<Byte>, n: int)
      ensures MapCodec.Good(m, n) ==> MapCode.Taken(m) == Some(MapCode.Taken(m).value)
    {
    }
  }

  lemma SizeGood(specs: Specs, oldServer: bool)
    requires SpecsGood(specs, oldServer)
    ensures specs.mapDataLen > 0 && (oldServer ==> specs.mapDataLen <= specs.x * specs.y)
    ensures oldServer ==>
              specs.mapOrder == MapCodec.SETUP_MAP_ORDER_XY || specs.mapOrder == MapCodec.SETUP_MAP_UNCOMPRESSED
  {
  }
}
