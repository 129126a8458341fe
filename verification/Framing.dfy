/** Packets on a socket: a packed header of 29 bytes and `size` bytes of data
    (src/comm/comm_remote.h, src/comm/comm_remote.c), with the integers as the x86-64 ABI lays
    them out: little-endian, two's complement. */
module Framing {
  import opened Wrappers

  type Byte = b: int | 0 <= b < 256

  const HEADER: nat := 29

  datatype Packet = Packet(handler: int, origin: int, requestIndex: int, heapOffset: int, data: seq<Byte>)

  // ---- Integers ----

  function Range(width: nat): (r: int)
    ensures r >= 1 && (width > 0 ==> r % 2 == 0)
  {
    if width == 0 then 1 else 256 * Range(width - 1)
  }

  predicate Fits(x: int, width: nat)
  {
    -Range(width) <= 2 * x < Range(width)
  }

  function Bytes(x: int, width: nat): (r: seq<Byte>)
    ensures |r| == width
    decreases width
  {
    if width == 0 then [] else [x % 256] + Bytes(x / 256, width - 1)
  }

  function Unsigned(bytes: seq<Byte>): (r: int)
    ensures r >= 0
  {
    if bytes == [] then 0 else bytes[0] + 256 * Unsigned(bytes[1..])
  }

  function Signed(bytes: seq<Byte>): int
  {
    var x := Unsigned(bytes);
    if 2 * x >= Range(|bytes|) then x - Range(|bytes|) else x
  }

  lemma {:induction false} UnsignedBytes(x: int, width: nat)
    requires 0 <= x < Range(width)
    ensures Unsigned(Bytes(x, width)) == x
  {
    if width > 0 {
      UnsignedBytes(x / 256, width - 1);
      assert Bytes(x, width)[1..] == Bytes(x / 256, width - 1);
    }
  }

  /** A negative number has the bytes of its two's complement. */
  lemma {:induction false} BytesWrap(x: int, width: nat)
    ensures Bytes(x, width) == Bytes(x + Range(width), width)
    decreases width
  {
    if width > 0 {
      BytesWrap(x / 256, width - 1);
      assert (x + 256 * Range(width - 1)) / 256 == x / 256 + Range(width - 1);
    }
  }

  lemma SignedBytes(x: int, width: nat)
    requires Fits(x, width) && width > 0
    ensures Signed(Bytes(x, width)) == x
  {
    if x >= 0 {
      UnsignedBytes(x, width);
    } else {
      BytesWrap(x, width);
      UnsignedBytes(x + Range(width), width);
    }
  }

  // ---- Packets ----

  /** The fields fit the types of the struct. */
  predicate Sendable(p: Packet)
  {
    Fits(p.handler, 1) && Fits(p.origin, 4) && Fits(p.requestIndex, 8) && Fits(p.heapOffset, 8) && |p.data| < Range(8)
  }

  function Header(p: Packet): (r: seq<Byte>)
    ensures |r| == HEADER
  {
    Bytes(p.handler, 1) + Bytes(p.origin, 4) + Bytes(p.requestIndex, 8) + Bytes(|p.data|, 8) + Bytes(p.heapOffset, 8)
  }

  /** What one network_send of sizeof(packet_t) + size bytes writes. */
  function Frame(p: Packet): seq<Byte>
  {
    Header(p) + p.data
  }

  function Frames(packets: seq<Packet>): seq<Byte>
  {
    if packets == [] then [] else Frame(packets[0]) + Frames(packets[1..])
  }

  function SizeField(header: seq<Byte>): int
    requires |header| == HEADER
  {
    Unsigned(header[13..21])
  }

  /** The packet a header and a body make. */
  function Parsed(header: seq<Byte>, body: seq<Byte>): Packet
    requires |header| == HEADER
  {
    Packet(Signed(header[..1]), Signed(header[1..5]), Signed(header[5..13]), Signed(header[21..]), body)
  }

  /** One turn of the receive loop on a stream, if the whole packet has arrived. */
  function Next(stream: seq<Byte>): Option<(Packet, seq<Byte>)>
  {
    if |stream| < HEADER then None
    else
      var header, rest := stream[..HEADER], stream[HEADER..];
      var size := SizeField(header);
      if |rest| < size then None
      else Some((Parsed(header, rest[..size]), rest[size..]))
  }

  /** All whole packets of a stream, and what is left over. */
  function ParseAll(stream: seq<Byte>): (seq<Packet>, seq<Byte>)
    decreases |stream|
  {
    match Next(stream)
    case None => ([], stream)
    case Some((packet, rest)) =>
      if |rest| < |stream| then
        var (packets, left) := ParseAll(rest);
        ([packet] + packets, left)
      else ([], stream)
  }

  /** Reading a fixed header and then `size` bytes, again and again. */
  method ReadPackets(stream: seq<Byte>) returns (packets: seq<Packet>, rest: seq<Byte>)
    ensures packets == ParseAll(stream).0 && rest == ParseAll(stream).1
  {
    packets, rest := [], stream;
    while |rest| >= HEADER
      invariant ParseAll(stream).0 == packets + ParseAll(rest).0 && ParseAll(stream).1 == ParseAll(rest).1
      decreases |rest|
    {
      var header := rest[..HEADER];
      var size := SizeField(header);
      if |rest| - HEADER < size {
        return;
      }
      var body := rest[HEADER..HEADER + size];
      assert rest[HEADER..][..size] == body && rest[HEADER..][size..] == rest[HEADER + size..];
      rest := rest[HEADER + size..];
      packets := packets + [Parsed(header, body)];
    }
  }

  /** The fields of a header, one by one. */
  lemma HeaderFields(p: Packet)
    ensures var h := Header(p);
            && h[..1] == Bytes(p.handler, 1) && h[1..5] == Bytes(p.origin, 4) && h[5..13] == Bytes(p.requestIndex, 8)
            && h[13..21] == Bytes(|p.data|, 8) && h[21..] == Bytes(p.heapOffset, 8)
  {
    hide Bytes;
    Fields(Bytes(p.handler, 1), Bytes(p.origin, 4), Bytes(p.requestIndex, 8),
           Bytes(|p.data|, 8), Bytes(p.heapOffset, 8));
  }

  lemma Fields(a: seq<Byte>, b: seq<Byte>, c: seq<Byte>, d: seq<Byte>, e: seq<Byte>)
    requires |a| == 1 && |b| == 4 && |c| == 8 && |d| == 8 && |e| == 8
    ensures var h := a + b + c + d + e;
            h[..1] == a && h[1..5] == b && h[5..13] == c && h[13..21] == d && h[21..] == e
  {}

  /** Digit k of an integer to base 256, in two's complement. */
  function Digit(x: int, k: nat): Byte
    decreases k
  {
    if k == 0 then x % 256 else Digit(x / 256, k - 1)
  }

  /** The lowest digit comes first. */
  lemma {:induction false} ByteOf(x: int, width: nat, k: nat)
    requires k < width
    ensures Bytes(x, width)[k] == Digit(x, k)
    decreases width
  {
    if k > 0 { ByteOf(x / 256, width - 1, k - 1); }
  }

  /** Where every field of a packet is on the socket: 29 bytes of header, and the data. */
  lemma FrameLayout(p: Packet)
    ensures |Frame(p)| == 29 + |p.data| && Frame(p)[29..] == p.data && Frame(p)[0] == Digit(p.handler, 0)
    ensures forall k: nat :: k < 4 ==> Frame(p)[1 + k] == Digit(p.origin, k)
    ensures forall k: nat :: k < 8 ==> Frame(p)[5 + k] == Digit(p.requestIndex, k)
    ensures forall k: nat :: k < 8 ==> Frame(p)[13 + k] == Digit(|p.data|, k)
    ensures forall k: nat :: k < 8 ==> Frame(p)[21 + k] == Digit(p.heapOffset, k)
  {
    ByteOf(p.handler, 1, 0);
    forall k: nat | k < 4 ensures Bytes(p.origin, 4)[k] == Digit(p.origin, k) { ByteOf(p.origin, 4, k); }
    forall x: int, k: nat | k < 8 ensures Bytes(x, 8)[k] == Digit(x, k) { ByteOf(x, 8, k); }
    hide Bytes, Digit;
  }

  lemma HeaderReadsBack(p: Packet)
    requires Sendable(p)
    ensures SizeField(Header(p)) == |p.data| && Parsed(Header(p), p.data) == p
  {
    HeaderFields(p);
    SignedBytes(p.handler, 1);
    SignedBytes(p.origin, 4);
    SignedBytes(p.requestIndex, 8);
    SignedBytes(p.heapOffset, 8);
    UnsignedBytes(|p.data|, 8);
  }

  /** A packet in front of anything is read back, and nothing else is taken. */
  lemma FrameReadsBack(p: Packet, rest: seq<Byte>)
    requires Sendable(p)
    ensures Next(Frame(p) + rest) == Some((p, rest))
  {
    HeaderReadsBack(p);
    Split(Header(p), p.data, rest);
  }

  lemma FrameFirst(p: Packet, rest: seq<Byte>)
    requires Sendable(p)
    ensures ParseAll(Frame(p) + rest).0 == [p] + ParseAll(rest).0 && ParseAll(Frame(p) + rest).1 == ParseAll(rest).1
  {
    FrameReadsBack(p, rest);
  }

  lemma Split(header: seq<Byte>, body: seq<Byte>, rest: seq<Byte>)
    requires |header| == HEADER
    ensures var stream := header + body + rest;
            && stream[..HEADER] == header && |stream[HEADER..]| >= |body|
            && stream[HEADER..][..|body|] == body && stream[HEADER..][|body|..] == rest
  {}

  /** Packets written back to back are read back as that list, with nothing left over. */
  lemma {:induction false} RoundTrip(packets: seq<Packet>)
    requires forall i :: 0 <= i < |packets| ==> Sendable(packets[i])
    ensures ParseAll(Frames(packets)).0 == packets && ParseAll(Frames(packets)).1 == []
  {
    if packets != [] {
      FrameFirst(packets[0], Frames(packets[1..]));
      RoundTrip(packets[1..]);
    }
  }

  /** A packet of which not all bytes are there yet is left alone. */
  lemma PartialFrame(p: Packet, n: nat)
    requires Sendable(p) && n < |Frame(p)|
    ensures Next(Frame(p)[..n]) == None
  {
    HeaderReadsBack(p);
    hide Header, Sendable, Parsed, SizeField;
    if n >= HEADER {
      assert Frame(p)[..n][..HEADER] == Header(p);
    }
  }

  /** So packets in front of an incomplete one are read, and its bytes stay. */
  lemma {:induction false} PartialStream(packets: seq<Packet>, tail: seq<Byte>)
    requires (forall i :: 0 <= i < |packets| ==> Sendable(packets[i])) && Next(tail) == None
    ensures ParseAll(Frames(packets) + tail).0 == packets && ParseAll(Frames(packets) + tail).1 == tail
  {
    if packets == [] {
      assert Frames(packets) + tail == tail;
    } else {
      FrameInFront(packets, tail);
      hide *;
      FrameFirst(packets[0], Frames(packets[1..]) + tail);
      PartialStream(packets[1..], tail);
      assert packets == [packets[0]] + packets[1..];
    }
  }

  lemma FrameInFront(packets: seq<Packet>, tail: seq<Byte>)
    requires packets != []
    ensures Frames(packets) + tail == Frame(packets[0]) + (Frames(packets[1..]) + tail)
  {}

  /** Different lists of packets never put the same bytes on a socket. */
  lemma FramesInjective(a: seq<Packet>, b: seq<Packet>)
    requires forall i :: 0 <= i < |a| ==> Sendable(a[i])
    requires forall i :: 0 <= i < |b| ==> Sendable(b[i])
    requires Frames(a) == Frames(b)
    ensures a == b
  {
    RoundTrip(a);
    RoundTrip(b);
  }

  lemma {:induction false} FramesAppend(a: seq<Packet>, b: seq<Packet>)
    ensures Frames(a + b) == Frames(a) + Frames(b)
  {
    if a == [] {
      assert a + b == b;
    } else {
      assert (a + b)[0] == a[0] && (a + b)[1..] == a[1..] + b;
      FramesAppend(a[1..], b);
      assert Frame(a[0]) + (Frames(a[1..]) + Frames(b)) == (Frame(a[0]) + Frames(a[1..])) + Frames(b);
    }
  }
}
