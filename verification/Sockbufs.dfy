/** The socket buffers of src/common/net.c, as far as the reliable data stream uses them. */
module Sockbufs {

  import opened Bytes

  class Sockbuf {
    const buf: array<Byte>
    var len: int  // amount of data in the buffer
    var ptr: int  // current reading position

    ghost predicate Valid()
      reads this
    {
      0 <= ptr <= len <= buf.Length
    }

    ghost function Unread(): (u: seq<Byte>)
      requires Valid()
      reads this, buf
      ensures |u| == len - ptr
    {
      buf[ptr..len]
    }

    constructor (size: nat)
      ensures Valid() && fresh(buf) && buf.Length == size && Unread() == []
    {
      buf := new Byte[size](_ => 0);
      len, ptr := 0, 0;
    }

    method Clear()
      modifies this
      ensures Valid() && Unread() == [] && ptr == 0
    {
      len := 0;
      ptr := 0;
    }

    /** The next n bytes to be read. */
    method Peek(n: int) returns (s: seq<Byte>)
      requires Valid() && 0 <= n <= |Unread()|
      ensures s == Unread()[..n]
    {
      s := buf[ptr..ptr + n];
    }

    /** Moves the reading position. */
    method Skip(n: int)
      requires Valid() && 0 <= n <= |Unread()|
      modifies this`ptr
      ensures Valid() && Unread() == old(Unread())[n..]
    {
      ptr := ptr + n;
    }

    /** Drops the first n bytes of the buffer. */
    method Advance(n: int)
      requires 0 <= len <= buf.Length && 0 <= ptr
      modifies this, buf
      ensures Valid()
      ensures old(Valid()) && n == old(ptr) ==> ptr == 0 && Unread() == old(Unread())
      ensures old(Valid()) && old(ptr) == 0 && 0 <= n <= old(len) ==> ptr == 0 && Unread() == old(Unread())[n..]
      ensures n > 0 && n >= old(len) ==> Unread() == []
    {
      if ptr > len {
        ptr := len;
      }
      if n <= 0 {
      } else if n >= len {
        len := 0;
        ptr := 0;
      } else {
        for i := 0 to len - n
          modifies buf
          invariant forall k | 0 <= k < i :: buf[k] == old(buf[k + n])
          invariant forall k | i <= k < buf.Length :: buf[k] == old(buf[k])
        {
          buf[i] := buf[i + n];
        }
        len := len - n;
        if ptr <= n {
          ptr := 0;
        } else {
          ptr := ptr - n;
        }
      }
    }

    /** Appends to a buffer that is locked against kernel i/o. */
    method Write(src: seq<Byte>) returns (written: int)
      requires Valid()
      modifies this`len, buf
      ensures Valid()
      ensures if |src| <= buf.Length - old(len)
              then written == |src| && Unread() == old(Unread()) + src
              else written == -1 && Unread() == old(Unread())
    {
      if buf.Length - len < |src| {
        return -1;
      }
      for i := 0 to |src|
        modifies buf
        invariant forall k | 0 <= k < len :: buf[k] == old(buf[k])
        invariant forall k | len <= k < len + i :: buf[k] == src[k - len]
      {
        buf[len + i] := src[i];
      }
      len := len + |src|;
      return |src|;
    }

    /** Reads one datagram into the buffer, as much of it as fits behind what is there. */
    method Read(datagram: seq<Byte>)
      requires Valid() && Unread() == [] && ptr == 0
      modifies this`len, buf
      ensures Valid() && ptr == 0
      ensures Unread() == if |datagram| <= buf.Length then datagram else datagram[..buf.Length]
    {
      var n := if |datagram| <= buf.Length then |datagram| else buf.Length;
      for i := 0 to n
        modifies buf
        invariant forall k | 0 <= k < i :: buf[k] == datagram[k]
      {
        buf[i] := datagram[i];
      }
      len := n;
    }
  }
}
