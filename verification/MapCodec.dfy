/** In-place run-length coding of the block map: forwards on the server,
    backwards on the client. */
module MapCodec {
  import opened Bytes
  import opened MapCode

  const SETUP_MAP_ORDER_XY := 1
  const SETUP_MAP_UNCOMPRESSED := 3

  // ---------------------------------------------------- the client's decoder

  /** A map that is decoded from position ump down while its code is still
      whole up to position cmp: the tokens ts are left to be decoded. */
  ghost predicate Decoding(data: seq<Byte>, d: seq<Byte>, cmp: int, ump: int, ts: seq<Code>) {
    && Loose(ts)
    && cmp + 1 == |CodeOf(ts)|
    && ump + 1 == |Cells(ts)|
    && ump + 1 <= |d| <= |data|
    && (forall n | 0 <= n <= cmp :: data[n] == CodeOf(ts)[n])
    && (forall n | 0 <= n <= ump :: d[n] == Cells(ts)[n])
    && (forall n | ump < n < |d| :: data[n] == d[n])
  }

  /** The last token's bytes and cells lie at the end of the code and of the cells. */
  lemma SplitLast(ts: seq<Code>)
    requires ts != []
    ensures var front, t := ts[..|ts| - 1], ts[|ts| - 1];
            && |CodeOf(ts)| == |CodeOf(front)| + |BytesOf(t)|
            && |Cells(ts)| == |Cells(front)| + |CellsOf(t)|
            && |Cells(front)| >= |CodeOf(front)|
            && (forall n | 0 <= n < |CodeOf(front)| :: CodeOf(ts)[n] == CodeOf(front)[n])
            && (forall n | 0 <= n < |Cells(front)| :: Cells(ts)[n] == Cells(front)[n])
            && (forall n | |CodeOf(front)| <= n < |CodeOf(ts)| :: CodeOf(ts)[n] == BytesOf(t)[n - |CodeOf(front)|])
            && (forall n | |Cells(front)| <= n < |Cells(ts)| :: Cells(ts)[n] == t.b)
  {
  }

  /** Copying one cell undoes a last token of one cell. */
  lemma UndoOne(data: seq<Byte>, d: seq<Byte>, cmp: int, ump: int, ts: seq<Code>)
    requires Decoding(data, d, cmp, ump, ts) && ts != [] && ts[|ts| - 1].One?
    ensures 0 <= cmp <= ump
    ensures Decoding(data[ump := data[cmp]], d, cmp - 1, ump - 1, ts[..|ts| - 1])
  {
    SplitLast(ts);
    hide CodeOf, Cells;
    assert BytesOf(ts[|ts| - 1])[0] == CodeOf(ts)[cmp];
  }

  /** Copying the block type count times undoes a last token that is a run. */
  lemma UndoRun(data: seq<Byte>, f: seq<Byte>, d: seq<Byte>, cmp: int, ump: int, k: Byte, b: Byte, ts: seq<Code>)
    requires Decoding(data, d, cmp, ump, ts) && ts != [] && ts[|ts| - 1] == Run(b, k)
    requires |f| == |data| && cmp >= 1 && ump - k + 1 >= cmp - 1
    requires forall i | 0 <= i < |f| :: f[i] == if ump - k < i <= ump || i == cmp - 1 then b else data[i]
    ensures Decoding(f, d, cmp - 2, ump - k, ts[..|ts| - 1])
  {
    SplitLast(ts);
    hide CodeOf, Cells;
  }

  lemma RunFits(data: seq<Byte>, d: seq<Byte>, cmp: int, ump: int, ts: seq<Code>)
    requires Decoding(data, d, cmp, ump, ts) && ts != [] && ts[|ts| - 1].Run?
    ensures 1 <= cmp <= ump && data[cmp] >= 2
    ensures ts[|ts| - 1] == Run(data[cmp - 1] % 128, data[cmp])
    ensures cmp - 1 <= ump - data[cmp] + 1
  {
    var t := ts[|ts| - 1];
    SplitLast(ts);
    hide CodeOf, Cells;
    assert BytesOf(t)[0] == CodeOf(ts)[cmp - 1] && BytesOf(t)[1] == CodeOf(ts)[cmp];
  }

  lemma DecodingMeets(data: seq<Byte>, d: seq<Byte>, cmp: int, ump: int, ts: seq<Code>)
    requires Decoding(data, d, cmp, ump, ts)
    ensures -1 <= cmp <= ump < |d| <= |data|
    ensures cmp >= 0 <==> ts != []
    ensures ts == [] ==> cmp == ump == -1 && data[..|d|] == d
  {
    if ts != [] {
      SplitLast(ts);
    }
  }

  lemma TailParity(data: seq<Byte>, d: seq<Byte>, cmp: int, ump: int, ts: seq<Code>)
    requires Decoding(data, d, cmp, ump, ts) && ts != []
    ensures 0 <= cmp < |data|
    ensures HighTail(data[..cmp]) % 2 == 0 <==> ts[|ts| - 1].One?
  {
    hide HighTail, CodeOf, Cells;
    LastToken(ts);
    assert data[..cmp] == CodeOf(ts)[..cmp];
  }

  lemma DecodingStarts(data: seq<Byte>, e: seq<Byte>, ts: seq<Code>, d: seq<Byte>)
    requires e <= data && CodeOf(ts) == e && Cells(ts) == d && |d| <= |data| && Loose(ts)
    ensures Decoding(data, d, |e| - 1, |d| - 1, ts)
  {
  }

  lemma {:induction false} TailShortens(e: seq<Byte>, k: nat)
    requires k <= HighTail(e)
    ensures HighTail(e[..|e| - k]) == HighTail(e) - k
  {
    if k > 0 {
      TailShortens(e[..|e| - 1], k - 1);
      assert e[..|e| - 1][..|e| - k] == e[..|e| - k];
    } else {
      assert e[..|e|] == e;
    }
  }

  /** The decoder takes e for n cells. */
  predicate Good(e: seq<Byte>, n: int) {
    Taken(e).Some? && |Taken(e).value| == n
  }

  /** Code e has been undone down to position cmp, into the cells above position ump of
      n: the tokens done are the code and the cells so far. */
  ghost predicate Undone(data: seq<Byte>, e: seq<Byte>, n: int, cmp: int, ump: int, done: seq<Code>) {
    && -1 <= cmp <= ump < n <= |data| && cmp < |e| <= n
    && data[..cmp + 1] == e[..cmp + 1]
    && e[cmp + 1..] == CodeOf(done)
    && data[ump + 1..n] == Cells(done)
    && Loose(done)
  }

  /** What the decoder keeps: what it has done is right, and if the whole is a map, it
      is on the way to it. */
  ghost predicate Working(data: seq<Byte>, e: seq<Byte>, n: int, cmp: int, ump: int, ts: seq<Code>, done: seq<Code>) {
    && Undone(data, e, n, cmp, ump, done)
    && (Good(e, n) ==> Decoding(data, Taken(e).value, cmp, ump, ts))
  }

  lemma WorkStarts(data: seq<Byte>, e: seq<Byte>, n: int) returns (ts: seq<Code>)
    requires e <= data && |e| <= n <= |data| && e != []
    ensures Working(data, e, n, |e| - 1, n - 1, ts, [])
  {
    hide Decode;
    ts := [];
    if Good(e, n) {
      ts := TakenTokens(e);
      DecodingStarts(data, e, ts, Taken(e).value);
    }
  }

  lemma WorkBounds(data: seq<Byte>, e: seq<Byte>, n: int, cmp: int, ump: int, ts: seq<Code>, done: seq<Code>)
    requires Working(data, e, n, cmp, ump, ts, done)
    ensures -1 <= cmp <= ump < n <= |data| && cmp < |e| <= n
    ensures data[..cmp + 1] == e[..cmp + 1]
  {
  }

  function Front(ts: seq<Code>): seq<Code> {
    if ts == [] then [] else ts[..|ts| - 1]
  }

  /** The new token goes in front of those done. */
  lemma DoneMore(t: Code, done: seq<Code>)
    requires Loose(done) && (done == [] || t.b < 128)
    ensures Loose([t] + done)
    ensures CodeOf([t] + done) == BytesOf(t) + CodeOf(done)
    ensures Cells([t] + done) == CellsOf(t) + Cells(done)
  {
    BytesCons(t, done);
    hide CodeOf, Cells, BytesOf, CellsOf;
    var all := [t] + done;
    assert done != [] ==> all[..|all| - 1] == [t] + done[..|done| - 1];
  }

  /** One cell is copied. */
  lemma WorkOne(data: seq<Byte>, e: seq<Byte>, n: int, cmp: int, ump: int, ts: seq<Code>, done: seq<Code>)
    requires Working(data, e, n, cmp, ump, ts, done) && cmp >= 0 && HighTail(data[..cmp]) % 2 == 0
    requires done == [] || data[cmp] < 128
    ensures Working(data[ump := data[cmp]], e, n, cmp - 1, ump - 1, Front(ts), [One(data[cmp])] + done)
  {
    hide Taken, CodeOf, Cells, HighTail, Decoding;
    WorkBounds(data, e, n, cmp, ump, ts, done);
    var f := data[ump := data[cmp]];
    var t := One(data[cmp]);
    DoneMore(t, done);
    assert e[cmp..] == [e[cmp]] + e[cmp + 1..] && data[..cmp + 1][cmp] == e[..cmp + 1][cmp];
    assert f[ump..n] == [f[ump]] + data[ump + 1..n];
    assert f[..cmp] == data[..cmp + 1][..cmp] == e[..cmp];
    Singles(data[cmp]);
    if Good(e, n) {
      var d := Taken(e).value;
      DecodingMeets(data, d, cmp, ump, ts);
      TailParity(data, d, cmp, ump, ts);
      UndoOne(data, d, cmp, ump, ts);
    }
  }

  lemma Singles(b: Byte)
    ensures BytesOf(One(b)) == [b] && CellsOf(One(b)) == [b]
  {
  }

  lemma RunCells(data: seq<Byte>, f: seq<Byte>, n: int, ump: int, k: Byte, b: Byte)
    requires 0 <= ump - k + 1 <= ump + 1 <= n <= |data| == |f|
    requires (forall i | ump - k < i <= ump :: f[i] == b) && forall i | ump < i < n :: f[i] == data[i]
    ensures f[ump - k + 1..n] == Repeat(b, k) + data[ump + 1..n]
  {
    var all := Repeat(b, k) + data[ump + 1..n];
    forall i | 0 <= i < |all|
      ensures f[ump - k + 1..n][i] == all[i]
    {
    }
  }

  /** A run is expanded. */
  lemma WorkRun(data: seq<Byte>, f: seq<Byte>, e: seq<Byte>, n: int, cmp: int, ump: int, ts: seq<Code>, done: seq<Code>)
    requires Working(data, e, n, cmp, ump, ts, done) && cmp >= 1 && HighTail(data[..cmp]) % 2 == 1
    requires data[cmp] >= 2 && data[cmp - 1] >= 128 && ump - data[cmp] >= cmp - 2 && |f| == |data|
    requires forall i | 0 <= i < |f| ::
               f[i] == if ump - data[cmp] < i <= ump || i == cmp - 1 then data[cmp - 1] % 128 else data[i]
    ensures Working(f, e, n, cmp - 2, ump - data[cmp], Front(ts), [Run(data[cmp - 1] % 128, data[cmp])] + done)
  {
    hide Taken, CodeOf, Cells, HighTail, Decoding;
    WorkBounds(data, e, n, cmp, ump, ts, done);
    var k, b := data[cmp], data[cmp - 1] % 128;
    var t: Code := Run(b, k);
    DoneMore(t, done);
    assert data[..cmp + 1][cmp] == e[..cmp + 1][cmp] && data[..cmp + 1][cmp - 1] == e[..cmp + 1][cmp - 1];
    assert e[cmp - 1..] == [b + 128, k] + e[cmp + 1..];
    RunCells(data, f, n, ump, k, b);
    assert f[..cmp - 1] == data[..cmp + 1][..cmp - 1] == e[..cmp - 1];
    if Good(e, n) {
      var d := Taken(e).value;
      DecodingMeets(data, d, cmp, ump, ts);
      TailParity(data, d, cmp, ump, ts);
      RunFits(data, d, cmp, ump, ts);
      UndoRun(data, f, d, cmp, ump, k, b, ts);
    }
  }

  /** A count below two, or a run longer than the room left, shows that it is no map. */
  lemma WorkFails(data: seq<Byte>, e: seq<Byte>, n: int, cmp: int, ump: int, ts: seq<Code>, done: seq<Code>)
    requires Working(data, e, n, cmp, ump, ts, done) && cmp >= 1 && HighTail(data[..cmp]) % 2 == 1
    requires data[cmp] < 2 || ump - data[cmp] < cmp - 2
    ensures !Good(e, n)
  {
    hide Decode, CodeOf, Cells, HighTail, Decoding;
    if Good(e, n) {
      var d := Taken(e).value;
      DecodingMeets(data, d, cmp, ump, ts);
      TailParity(data, d, cmp, ump, ts);
      RunFits(data, d, cmp, ump, ts);
    }
  }

  lemma WorkEnds(data: seq<Byte>, e: seq<Byte>, n: int, ump: int, ts: seq<Code>, done: seq<Code>)
    requires Working(data, e, n, -1, ump, ts, done)
    ensures Good(e, n) <==> ump == -1
    ensures ump == -1 ==> 0 <= n <= |data| && data[..n] == Taken(e).value
  {
    hide Decode, CodeOf, Cells, Decoding;
    if Good(e, n) {
      DecodingMeets(data, Taken(e).value, -1, ump, ts);
    }
    if ump == -1 {
      TokensTaken(done);
      assert e[0..] == e && data[0..n] == data[..n];
    }
  }

  class Setup {
    var mapOrder: int
    var x: int
    var y: int
    var mapDataLen: int
    const mapData: array<Byte>

    constructor (mapOrder: int, x: int, y: int, mapDataLen: int, size: nat)
      ensures this.mapOrder == mapOrder && this.x == x && this.y == y && this.mapDataLen == mapDataLen
      ensures fresh(mapData) && mapData.Length == size
    {
      this.mapOrder, this.x, this.y, this.mapDataLen := mapOrder, x, y, mapDataLen;
      mapData := new Byte[size](_ => 0);
    }

    /** Finds where the bytes with the high bit set before position cmp start. */
    method FindRunStart(cmp: int) returns (p: int)
      requires 0 <= cmp < mapData.Length
      ensures 0 <= p <= cmp && cmp - p == HighTail(mapData[..cmp])
    {
      p := cmp;
      while p > 0
        invariant 0 <= p <= cmp
        invariant cmp - p + HighTail(mapData[..p]) == HighTail(mapData[..cmp])
      {
        assert mapData[..p][..p - 1] == mapData[..p - 1];
        if mapData[p - 1] < 128 {
          break;
        }
        p := p - 1;
      }
    }

    /** Copies the block type below a count to as many cells, as far as there are any. */
    method ExpandRun(cmp: int, ump: int, count: int)
      requires 0 < cmp <= ump < mapData.Length && count >= 2
      modifies mapData
      ensures forall i | 0 <= i < mapData.Length :: mapData[i] ==
                if ump - count < i <= ump || i == cmp - 1 then old(mapData[cmp - 1]) % 128
                else old(mapData[i])
    {
      mapData[cmp - 1] := mapData[cmp - 1] % 128;
      for i := 0 to count
        invariant forall k | 0 <= k < mapData.Length :: mapData[k] ==
                    if ump - i < k <= ump || k == cmp - 1 then old(mapData[cmp - 1]) % 128
                    else old(mapData[k])
      {
        if ump - i >= 0 {
          mapData[ump - i] := mapData[cmp - 1];
        }
      }
    }

    method CopyOne(cmp: int, ump: int, ghost e: seq<Byte>, ghost n: int, ghost ts: seq<Code>, ghost done: seq<Code>)
      requires 0 <= cmp <= ump < mapData.Length
      requires Working(mapData[..], e, n, cmp, ump, ts, done) && HighTail(mapData[..cmp]) % 2 == 0
      requires done == [] || mapData[cmp] < 128
      modifies mapData
      ensures Working(mapData[..], e, n, cmp - 1, ump - 1, Front(ts), [One(old(mapData[cmp]))] + done)
    {
      hide Working, HighTail;
      ghost var after := mapData[..][ump := mapData[cmp]];
      WorkOne(mapData[..], e, n, cmp, ump, ts, done);
      mapData[ump] := mapData[cmp];
      assert mapData[..] == after;
    }

    /** Undoes the run whose count is at position cmp0. */
    method UndoOneRun(cmp0: int, ump0: int, ghost e: seq<Byte>, ghost n: int, ghost ts0: seq<Code>,
                      ghost done0: seq<Code>)
      returns (ok: bool, cmp: int, ump: int, ghost ts: seq<Code>, ghost done: seq<Code>)
      requires 1 <= cmp0 <= ump0 < mapData.Length && HighTail(mapData[..cmp0]) % 2 == 1 && mapData[cmp0 - 1] >= 128
      requires Working(mapData[..], e, n, cmp0, ump0, ts0, done0)
      modifies mapData
      ensures ok ==> cmp == cmp0 - 2 && Working(mapData[..], e, n, cmp, ump, ts, done)
      ensures !ok ==> !Good(e, n)
    {
      hide Working, Good, HighTail;
      ok, cmp, ump, ts, done := true, cmp0, ump0, Front(ts0), done0;
      ghost var before := mapData[..];
      var count := mapData[cmp];
      if count < 2 {
        WorkFails(before, e, n, cmp0, ump0, ts0, done0);
        ok := false;
        return;
      }
      ExpandRun(cmp, ump, count);
      cmp, ump := cmp - 2, ump - count;
      if ump < cmp {
        WorkFails(before, e, n, cmp0, ump0, ts0, done0);
        ok := false;
        return;
      }
      WorkRun(before, mapData[..], e, n, cmp0, ump0, ts0, done0);
      done := [Run(before[cmp0 - 1] % 128, count)] + done0;
    }

    /** Undoes the runs whose code starts at position p. */
    method ExpandRuns(p: int, cmp0: int, ump0: int, ghost e: seq<Byte>, ghost n: int, ghost ts0: seq<Code>,
                      ghost done0: seq<Code>)
      returns (ok: bool, cmp: int, ump: int, ghost ts: seq<Code>, ghost done: seq<Code>)
      requires 0 <= p < cmp0 <= ump0 < mapData.Length && (cmp0 - p) % 2 == 1
      requires Working(mapData[..], e, n, cmp0, ump0, ts0, done0) && HighTail(e[..cmp0]) == cmp0 - p
      modifies mapData
      ensures ok ==> cmp == p - 1 && Working(mapData[..], e, n, cmp, ump, ts, done)
      ensures !ok ==> !Good(e, n)
    {
      hide Working, Good, HighTail;
      ok, cmp, ump, ts, done := true, cmp0, ump0, ts0, done0;
      WorkBounds(mapData[..], e, n, cmp, ump, ts, done);
      while p < cmp && ok
        invariant ok ==> p - 1 <= cmp < |e| && cmp <= cmp0 && (cmp - p) % 2 == 1
        invariant ok ==> Working(mapData[..], e, n, cmp, ump, ts, done)
        invariant !ok ==> !Good(e, n)
        decreases ok, cmp
      {
        WorkBounds(mapData[..], e, n, cmp, ump, ts, done);
        RunAt(mapData[..], e, p, cmp, cmp0);
        ok, cmp, ump, ts, done := UndoOneRun(cmp, ump, e, n, ts, done);
      }
    }

    /** Undoes the code that follows the last complete token known to end in a
        byte with the high bit clear. */
    method ExpandTail(cmp0: int, ump0: int, ghost e: seq<Byte>, ghost n: int, ghost ts0: seq<Code>,
                      ghost done0: seq<Code>)
      returns (ok: bool, cmp: int, ump: int, ghost ts: seq<Code>, ghost done: seq<Code>)
      requires Working(mapData[..], e, n, cmp0, ump0, ts0, done0) && 0 <= cmp0 < |e|
      requires done0 == [] || e[cmp0] < 128
      modifies mapData
      ensures ok ==> -1 <= cmp < cmp0 && Working(mapData[..], e, n, cmp, ump, ts, done) && (cmp >= 0 ==> e[cmp] < 128)
      ensures !ok ==> !Good(e, n)
    {
      hide Working, Good, HighTail;
      ok, cmp, ump, ts, done := true, cmp0, ump0, ts0, done0;
      WorkBounds(mapData[..], e, n, cmp, ump, ts, done);
      SameBelow(mapData[..], e, cmp);
      HighTailBytes(e[..cmp]);
      var p := FindRunStart(cmp);
      if p == cmp {
        CopyOne(cmp, ump, e, n, ts, done);
        ts, done := Front(ts), [One(e[cmp])] + done;
        cmp, ump := cmp - 1, ump - 1;
        return;
      }
      if (cmp - p) % 2 == 0 {
        CopyOne(cmp, ump, e, n, ts, done);
        ts, done := Front(ts), [One(e[cmp])] + done;
        TailShortens(e[..cmp], 1);
        assert e[..cmp][..cmp - 1] == e[..cmp - 1];
        cmp, ump := cmp - 1, ump - 1;
      }
      WorkBounds(mapData[..], e, n, cmp, ump, ts, done);
      ok, cmp, ump, ts, done := ExpandRuns(p, cmp, ump, e, n, ts, done);
    }

    /** Uncompresses the map backwards in its own buffer: it succeeds exactly if the code
        is taken for a map of the right size. */
    method UncompressMap() returns (result: int)
      requires 0 < mapDataLen <= x * y <= mapData.Length
      modifies `mapOrder, mapData
      ensures old(mapOrder) != SETUP_MAP_ORDER_XY ==> result == -1 && mapData[..] == old(mapData[..])
      ensures old(mapOrder) == SETUP_MAP_ORDER_XY ==>
                (result == 0 <==> Good(old(mapData[..mapDataLen]), x * y)) && (result == 0 || result == -1)
      ensures result == 0 ==> mapData[..x * y] == Taken(old(mapData[..mapDataLen])).value
      ensures mapOrder == if result == 0 then SETUP_MAP_UNCOMPRESSED else old(mapOrder)
    {
      hide Good, Working, Taken;
      if mapOrder != SETUP_MAP_ORDER_XY {
        return -1;
      }
      ghost var e, n := mapData[..mapDataLen], x * y;
      ghost var ts := WorkStarts(mapData[..], e, n);
      ghost var done: seq<Code> := [];
      var cmp := mapDataLen - 1;
      var ump := x * y - 1;
      var ok;
      while cmp >= 0
        invariant mapOrder == SETUP_MAP_ORDER_XY
        invariant -1 <= cmp < |e| && Working(mapData[..], e, n, cmp, ump, ts, done)
        invariant cmp >= 0 ==> done == [] || e[cmp] < 128
        decreases cmp
      {
        ok, cmp, ump, ts, done := ExpandTail(cmp, ump, e, n, ts, done);
        if !ok {
          return -1;
        }
      }
      WorkEnds(mapData[..], e, n, ump, ts, done);
      if ump != cmp {
        return -1;
      }
      mapOrder := SETUP_MAP_UNCOMPRESSED;
      return 0;
    }
  }

  lemma SameBelow(data: seq<Byte>, e: seq<Byte>, cmp: int)
    requires 0 <= cmp < |e| && cmp < |data| && data[..cmp + 1] == e[..cmp + 1]
    ensures data[cmp] == e[cmp] && data[..cmp] == e[..cmp]
  {
    assert data[..cmp + 1][cmp] == e[..cmp + 1][cmp];
    assert data[..cmp] == data[..cmp + 1][..cmp] == e[..cmp + 1][..cmp] == e[..cmp];
  }

  /** Between p and cmp0 there are high bytes only, and an odd number of them before cmp. */
  lemma RunAt(data: seq<Byte>, e: seq<Byte>, p: int, cmp: int, cmp0: int)
    requires 0 <= p < cmp <= cmp0 < |e| && cmp < |data| && data[..cmp + 1] == e[..cmp + 1]
    requires HighTail(e[..cmp0]) == cmp0 - p && (cmp - p) % 2 == 1
    ensures HighTail(data[..cmp]) % 2 == 1 && data[cmp - 1] >= 128
  {
    SameBelow(data, e, cmp);
    TailShortens(e[..cmp0], cmp0 - cmp);
    assert e[..cmp0][..cmp] == e[..cmp];
    HighTailBytes(e[..cmp]);
    assert data[..cmp][cmp - 1] == e[..cmp][cmp - 1];
  }

  // ---------------------------------------------------- the server's encoder

  /** The first i cells of map m are coded in the first j bytes of the buffer,
      and the cells from i on have not been overwritten. */
  ghost predicate Encoding(data: seq<Byte>, m: seq<Byte>, i: int, j: int, ts: seq<Code>) {
    && Proper(ts)
    && 0 <= j <= i <= |m| <= |data|
    && (i > 0 ==> j > 0)
    && |CodeOf(ts)| == j
    && |Cells(ts)| == i
    && (forall n | 0 <= n < j :: data[n] == CodeOf(ts)[n])
    && (forall n | 0 <= n < i :: m[n] == Cells(ts)[n])
    && (forall n | i <= n < |m| :: data[n] == m[n])
  }

  lemma EncodeToken(data: seq<Byte>, f: seq<Byte>, m: seq<Byte>, i: int, j: int, ts: seq<Code>, t: Code, k: nat)
    requires Encoding(data, m, i, j, ts) && t.b < 128
    requires i + k <= |m| && |CellsOf(t)| == k && forall n | i <= n < i + k :: m[n] == t.b
    requires |f| == |data| && j + |BytesOf(t)| <= |f|
    requires forall n | j <= n < j + |BytesOf(t)| :: f[n] == BytesOf(t)[n - j]
    requires forall n | 0 <= n < j || i + k <= n < |m| :: f[n] == data[n]
    ensures Encoding(f, m, i + k, j + |BytesOf(t)|, ts + [t])
  {
    assert (ts + [t])[..|ts|] == ts;
    SplitLast(ts + [t]);
    assert 1 <= |BytesOf(t)| <= k;
    hide CodeOf, Cells, BytesOf, CellsOf;
    forall n | 0 <= n < j + |BytesOf(t)|
      ensures f[n] == CodeOf(ts + [t])[n]
    {
      if n < j {
        assert CodeOf(ts + [t])[n] == CodeOf(ts)[n];
      }
    }
    forall n | 0 <= n < i + k
      ensures m[n] == Cells(ts + [t])[n]
    {
      if n < i {
        assert Cells(ts + [t])[n] == Cells(ts)[n];
      }
    }
  }

  /** How many cells from i on hold the same block type, at most 255. */
  method RunLength(buf: array<Byte>, size: int, i: int) returns (k: int)
    requires 0 <= i && i + 1 < size <= buf.Length && buf[i] == buf[i + 1]
    ensures 2 <= k <= 255 && i + k <= size
    ensures forall n | i <= n < i + k :: buf[n] == buf[i]
    ensures k == 255 || i + k == size || buf[i + k] != buf[i]
  {
    k := 2;
    while i + k < size
      invariant 2 <= k <= 255 && i + k <= size
      invariant forall n | i <= n < i + k :: buf[n] == buf[i]
    {
      if buf[i] != buf[i + k] {
        break;
      }
      if k == 255 {
        break;
      }
      k := k + 1;
    }
  }

  method PutRun(buf: array<Byte>, ghost m: seq<Byte>, i: int, j: int, k: int, ghost ts: seq<Code>)
    returns (ghost more: seq<Code>)
    requires Encoding(buf[..], m, i, j, ts) && 0 <= j <= i && 2 <= k <= 255 && i + k <= |m| <= buf.Length
    requires buf[i] < 128 && forall n | i <= n < i + k :: buf[n] == buf[i]
    modifies buf
    ensures Encoding(buf[..], m, i + k, j + 2, more)
  {
    EncodingBounds(buf[..], m, i, j, ts);
    ghost var before := buf[..];
    ghost var t: Code := Run(buf[i], k);
    buf[j] := buf[i] + 128;
    buf[j + 1] := k;
    hide Encoding;
    EncodeToken(before, buf[..], m, i, j, ts, t, k);
    more := ts + [t];
  }

  method PutOne(buf: array<Byte>, ghost m: seq<Byte>, i: int, j: int, ghost ts: seq<Code>)
    returns (ghost more: seq<Code>)
    requires Encoding(buf[..], m, i, j, ts) && 0 <= j <= i < |m| <= buf.Length && buf[i] < 128
    modifies buf
    ensures Encoding(buf[..], m, i + 1, j + 1, more)
  {
    EncodingBounds(buf[..], m, i, j, ts);
    ghost var before := buf[..];
    ghost var t: Code := One(buf[i]);
    buf[j] := buf[i];
    hide Encoding;
    EncodeToken(before, buf[..], m, i, j, ts, t, 1);
    more := ts + [t];
  }

  /** Compresses the map forwards in its own buffer. */
  method CompressMap(buf: array<Byte>, size: int) returns (j: int)
    requires 0 <= size <= buf.Length
    requires forall n | 0 <= n < size :: buf[n] < 128
    modifies buf
    ensures 0 <= j <= size && (size > 0 ==> j > 0)
    ensures Decode(buf[..j]) == Some(old(buf[..size]))
  {
    hide CodeOf, Cells, Encoding, Decode;
    ghost var m := buf[..size];
    ghost var ts: seq<Code> := [];
    var i := 0;
    j := 0;
    EncodingStarts(buf[..], m);
    while i < size
      invariant Encoding(buf[..], m, i, j, ts)
    {
      EncodingBounds(buf[..], m, i, j, ts);
      if i + 1 < size && buf[i] == buf[i + 1] {
        var k := RunLength(buf, size, i);
        ts := PutRun(buf, m, i, j, k, ts);
        j := j + 1;
        i := i + (k - 1);
      } else {
        ts := PutOne(buf, m, i, j, ts);
      }
      i, j := i + 1, j + 1;
    }
    EncodingBounds(buf[..], m, i, j, ts);
    EncodingEnds(buf[..], m, i, j, ts);
    TokensDecode(ts);
  }

  lemma EncodingStarts(data: seq<Byte>, m: seq<Byte>)
    requires m <= data
    ensures Encoding(data, m, 0, 0, [])
  {
  }

  lemma EncodingBounds(data: seq<Byte>, m: seq<Byte>, i: int, j: int, ts: seq<Code>)
    requires Encoding(data, m, i, j, ts)
    ensures 0 <= j <= i <= |m| <= |data| && (i > 0 ==> j > 0)
    ensures forall n | i <= n < |m| :: data[n] == m[n]
  {
    hide CodeOf, Cells;
  }

  lemma EncodingEnds(data: seq<Byte>, m: seq<Byte>, i: int, j: int, ts: seq<Code>)
    requires Encoding(data, m, i, j, ts) && i == |m|
    ensures 0 <= j <= |data| && data[..j] == CodeOf(ts) && m == Cells(ts) && Proper(ts)
  {
    hide CodeOf, Cells;
  }

  /** What the server compresses the client uncompresses, in one buffer. */
  method CompressThenUncompress(setup: Setup)
    requires 0 < setup.x * setup.y <= setup.mapData.Length && setup.mapOrder == SETUP_MAP_ORDER_XY
    requires forall n | 0 <= n < setup.x * setup.y :: setup.mapData[n] < 128
    modifies setup, setup.mapData
    ensures setup.mapOrder == SETUP_MAP_UNCOMPRESSED
    ensures var n := old(setup.x * setup.y); setup.mapData[..n] == old(setup.mapData[..n])
  {
    setup.mapDataLen := CompressMap(setup.mapData, setup.x * setup.y);
    TakenIff(setup.mapData[..setup.mapDataLen]);
    var result := setup.UncompressMap();
  }
}
