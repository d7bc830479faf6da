/** The run-length code in which the server (src/server/xpmap.c) sends a block
    map and which the client (src/client/netclient.c) undoes. */
module MapCode {
  import opened Bytes
  import opened Sequences

  /** A byte with the high bit clear is one cell; with the high bit set it is
      a block type whose number of cells follows in the next byte. */
  function Decode(e: seq<Byte>): (d: Option<seq<Byte>>)
  {
    if e == [] then Some([])
    else if e[0] < 128 then
      var rest := Decode(e[1..]);
      if rest.None? then None else Some([e[0]] + rest.value)
    else if |e| < 2 || e[1] < 2 then None
    else
      var rest := Decode(e[2..]);
      if rest.None? then None else Some(Repeat(e[0] - 128, e[1]) + rest.value)
  }

  function Repeat(b: Byte, n: nat): (s: seq<Byte>)
    ensures |s| == n && forall i | 0 <= i < n :: s[i] == b
  {
    seq(n, _ => b)
  }

  // The same code as a list of tokens, which can be taken apart from the end.
  datatype Token = One(b: Byte) | Run(b: Byte, count: Byte)

  type Code = t: Token | t.Run? ==> t.b < 128 && t.count >= 2 witness One(0)

  /** Tokens as they are meant to be: cells without the high bit. */
  predicate Proper(ts: seq<Code>) {
    forall t <- ts :: t.b < 128
  }

  function BytesOf(t: Code): seq<Byte> {
    match t
    case One(b) => [b]
    case Run(b, count) => [b + 128, count]
  }

  function CellsOf(t: Code): (s: seq<Byte>)
    ensures |s| >= |BytesOf(t)|
  {
    match t
    case One(b) => [b]
    case Run(b, count) => Repeat(b, count)
  }

  function CodeOf(ts: seq<Code>): seq<Byte> {
    if ts == [] then [] else CodeOf(ts[..|ts| - 1]) + BytesOf(ts[|ts| - 1])
  }

  function Cells(ts: seq<Code>): (s: seq<Byte>)
    ensures |s| >= |CodeOf(ts)|
  {
    if ts == [] then [] else Cells(ts[..|ts| - 1]) + CellsOf(ts[|ts| - 1])
  }

  lemma BytesSnoc(ts: seq<Code>, t: Code)
    ensures CodeOf(ts + [t]) == CodeOf(ts) + BytesOf(t)
    ensures Cells(ts + [t]) == Cells(ts) + CellsOf(t)
  {
    assert (ts + [t])[..|ts|] == ts;
  }

  lemma {:induction false} BytesCons(t: Code, ts: seq<Code>)
    ensures CodeOf([t] + ts) == BytesOf(t) + CodeOf(ts)
    ensures Cells([t] + ts) == CellsOf(t) + Cells(ts)
  {
    hide CodeOf, Cells, BytesOf, CellsOf;
    if ts == [] {
      NoTokens();
      assert [t] + ts == [] + [t];
      BytesSnoc([], t);
    } else {
      var front, last := ts[..|ts| - 1], ts[|ts| - 1];
      BytesCons(t, front);
      BytesConsSnoc(t, front, last);
      assert ts == front + [last];
    }
  }

  lemma BytesConsSnoc(t: Code, front: seq<Code>, last: Code)
    requires CodeOf([t] + front) == BytesOf(t) + CodeOf(front)
    requires Cells([t] + front) == CellsOf(t) + Cells(front)
    ensures CodeOf([t] + (front + [last])) == BytesOf(t) + CodeOf(front + [last])
    ensures Cells([t] + (front + [last])) == CellsOf(t) + Cells(front + [last])
  {
    hide CodeOf, Cells, BytesOf, CellsOf;
    Regroup([t], front, [last]);
    BytesSnoc(front, last);
    BytesSnoc([t] + front, last);
    Regroup(BytesOf(t), CodeOf(front), BytesOf(last));
    Regroup(CellsOf(t), Cells(front), CellsOf(last));
  }

  /** What can be decoded is the code of some tokens. */
  lemma {:induction false} DecodeTokens(e: seq<Byte>) returns (ts: seq<Code>)
    requires Decode(e).Some?
    ensures CodeOf(ts) == e && Cells(ts) == Decode(e).value && Proper(ts)
    decreases |e|
  {
    hide CodeOf, Cells;
    ts := [];
    NoTokens();
    if e != [] {
      var t := if e[0] < 128 then One(e[0]) else Run(e[0] - 128, e[1]);
      var rest := DecodeTokens(e[|BytesOf(t)|..]);
      ts := [t] + rest;
      BytesCons(t, rest);
      assert e == BytesOf(t) + e[|BytesOf(t)|..];
    }
  }

  lemma NoTokens()
    ensures CodeOf([]) == [] && Cells([]) == []
  {
  }

  /** The code of tokens decodes to their cells. */
  lemma {:induction false} TokensDecode(ts: seq<Code>)
    requires Proper(ts)
    ensures Decode(CodeOf(ts)) == Some(Cells(ts))
  {
    if ts != [] {
      var t, rest := ts[0], ts[1..];
      assert ts == [t] + rest;
      BytesCons(t, rest);
      TokensDecode(rest);
      match t
      case One(b) =>
        assert CodeOf(ts)[1..] == CodeOf(rest);
      case Run(b, count) =>
        assert CodeOf(ts)[2..] == CodeOf(rest);
    }
  }

  /** How many bytes at the end of e have the high bit set. */
  function HighTail(e: seq<Byte>): (n: nat)
    ensures n <= |e|
  {
    if e == [] || e[|e| - 1] < 128 then 0 else 1 + HighTail(e[..|e| - 1])
  }

  lemma HighTailSnoc(e: seq<Byte>, b: Byte)
    ensures HighTail(e + [b]) == if b < 128 then 0 else 1 + HighTail(e)
  {
    assert (e + [b])[..|e|] == e;
  }

  lemma {:induction false} HighTailBytes(e: seq<Byte>)
    ensures var p := |e| - HighTail(e);
            (forall k | p <= k < |e| :: e[k] >= 128) && (p > 0 ==> e[p - 1] < 128)
  {
    if e != [] && e[|e| - 1] >= 128 {
      HighTailBytes(e[..|e| - 1]);
    }
  }

  /** A complete code ends in an even number of bytes with the high bit set. */
  lemma {:induction false} HighTailEven(ts: seq<Code>)
    requires Proper(ts)
    ensures HighTail(CodeOf(ts)) % 2 == 0
  {
    hide HighTail;
    if ts == [] {
      EmptyTail();
    } else {
      var front := ts[..|ts| - 1];
      HighTailEven(front);
      match ts[|ts| - 1]
      case One(b) =>
        HighTailSnoc(CodeOf(front), b);
      case Run(b, count) =>
        assert CodeOf(front) + [b + 128, count] == CodeOf(front) + [b + 128] + [count];
        HighTailSnoc(CodeOf(front), b + 128);
        HighTailSnoc(CodeOf(front) + [b + 128], count);
    }
  }

  lemma EmptyTail()
    ensures HighTail([]) == 0
  {
  }

  /** So the number of such bytes before the last byte tells what the last byte is. */
  lemma LastToken(ts: seq<Code>)
    requires ts != [] && Proper(ts[..|ts| - 1])
    ensures var e := CodeOf(ts);
            e != [] && (HighTail(e[..|e| - 1]) % 2 == 0 <==> ts[|ts| - 1].One?)
  {
    hide HighTail;
    var front, t := ts[..|ts| - 1], ts[|ts| - 1];
    var e := CodeOf(front) + BytesOf(t);
    assert CodeOf(ts) == e;
    HighTailEven(front);
    hide CodeOf;
    match t
    case One(b) =>
      assert e[..|e| - 1] == CodeOf(front);
    case Run(b, count) =>
      assert e[..|e| - 1] == CodeOf(front) + [b + 128];
      HighTailSnoc(CodeOf(front), b + 128);
  }

  /** Each cell of a decoded map is a block type. */
  lemma {:induction false} DecodedCells(e: seq<Byte>)
    requires Decode(e).Some?
    ensures forall i | 0 <= i < |Decode(e).value| :: Decode(e).value[i] < 128
    ensures |Decode(e).value| >= |e|
    decreases |e|
  {
    if e == [] {
    } else if e[0] < 128 {
      DecodedCells(e[1..]);
    } else {
      DecodedCells(e[2..]);
    }
  }

  /** What the client's decoder takes e for: it also takes a block type at the very end,
      where the number of cells is missing, for one cell that keeps its high bit. */
  function Taken(e: seq<Byte>): Option<seq<Byte>> {
    if Decode(e).Some? then Decode(e)
    else if e == [] || e[|e| - 1] < 128 then None
    else
      var rest := Decode(e[..|e| - 1]);
      if rest.None? then None else Some(rest.value + [e[|e| - 1]])
  }

  /** A lone block type is no code of a map, but the decoder takes it for one. */
  lemma LoneTypeTaken()
    ensures Decode([129]).None? && Taken([129]) == Some([129])
  {
    assert Decode([]) == Some([]);
    assert [129][..0] == [];
    assert Decode([129][..0]).value + [129] == [129];
  }

  /** Tokens of which all but the last one are as they are meant to be. */
  predicate Loose(ts: seq<Code>) {
    ts != [] ==> Proper(ts[..|ts| - 1])
  }

  lemma TakenTokens(e: seq<Byte>) returns (ts: seq<Code>)
    requires Taken(e).Some?
    ensures CodeOf(ts) == e && Cells(ts) == Taken(e).value && Loose(ts)
  {
    hide CodeOf, Cells, Decode;
    if Decode(e).Some? {
      ts := DecodeTokens(e);
    } else {
      var front := DecodeTokens(e[..|e| - 1]);
      ts := front + [One(e[|e| - 1])];
      BytesSnoc(front, One(e[|e| - 1]));
      assert e == e[..|e| - 1] + [e[|e| - 1]];
      assert ts[..|front|] == front;
    }
  }

  /** A code that goes on with a lone block type is no code of a map, but taken for one. */
  lemma TypeAtEnd(e: seq<Byte>, b: Byte)
    requires Decode(e).Some? && b >= 128
    ensures Decode(e + [b]).None? && Taken(e + [b]) == Some(Decode(e).value + [b])
  {
    hide Decode, HighTail, CodeOf, Cells;
    assert (e + [b])[..|e|] == e;
    var front := DecodeTokens(e);
    HighTailEven(front);
    HighTailSnoc(e, b);
    if Decode(e + [b]).Some? {
      var others := DecodeTokens(e + [b]);
      HighTailEven(others);
      assert false;
    }
  }

  lemma TokensTaken(ts: seq<Code>)
    requires Loose(ts)
    ensures Taken(CodeOf(ts)) == Some(Cells(ts))
  {
    hide Decode;
    if Proper(ts) {
      TokensDecode(ts);
    } else {
      var front, last := ts[..|ts| - 1], ts[|ts| - 1];
      assert ts == front + [last];
      TokensDecode(front);
      BytesSnoc(front, last);
      hide CodeOf, Cells;
      TypeAtEnd(CodeOf(front), last.b);
      assert CodeOf(ts)[..|CodeOf(ts)| - 1] == CodeOf(front);
    }
  }

  /** The decoder takes every well-formed map for what it is, and of the others exactly
      those that are well-formed but for a block type at the end. */
  lemma TakenIff(e: seq<Byte>)
    ensures Decode(e).Some? ==> Taken(e) == Decode(e)
    ensures Taken(e).Some? <==>
            Decode(e).Some? || (e != [] && e[|e| - 1] >= 128 && Decode(e[..|e| - 1]).Some?)
  {
  }
}
