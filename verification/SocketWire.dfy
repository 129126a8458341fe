/** The wire of the delivery model is the socket: barrier signals are packets like any other, of
    one int into the pSync array, which is the first block of every symmetric heap
    (src/comm/comm.c:78-80, 96-114, src/comm/comm_remote.c:108-150). */
module SocketWire {
  import opened Delivery
  import opened HeapTheorems
  import opened Memory
  import opened SymmetricPut
  import Framing
  import HeapLayout
  import PutPath
  import SendThread

  const INT_SIZE: nat := 4

  /** The bytes of a pSync slot: the int 1 or 0. */
  function IntOf(flag: bool): (r: seq<Framing.Byte>)
    ensures |r| == INT_SIZE
  {
    Framing.Bytes(if flag then 1 else 0, INT_SIZE)
  }

  ghost predicate AllBytes(s: seq<nat>)
  {
    forall i :: 0 <= i < |s| ==> s[i] < 256
  }

  // ---- Where pSync is ----

  /** The layout of a symmetric heap of a job of n PEs: pSync is allocated before any call of the
      user. */
  ghost function Layout(base: nat, size: nat, n: nat, calls: seq<Call>): HeapLayout.Heap
  {
    InitValid(base, size);
    Run(HeapLayout.Init(base, size), [Allocate(INT_SIZE * n)] + calls).0
  }

  /** pSync has 4 bytes for each PE and stays at offset 0 while nobody releases it. */
  lemma PSyncFirst(base: nat, size: nat, n: nat, calls: seq<Call>)
    requires 4 * n <= size && forall k :: 0 <= k < |calls| ==> calls[k] != Call.Release(0)
    ensures HeapLayout.Block(base, 4 * n) in Layout(base, size, n, calls).blocks
  {
    var h, first := HeapLayout.Init(base, size), Allocate(INT_SIZE * n);
    StepValid(h, first);
    assert Step(h, first).0.blocks[1] == HeapLayout.Block(base, INT_SIZE * n);
    BlockStays(Step(h, first).0, calls, HeapLayout.Block(base, INT_SIZE * n));
    assert ([first] + calls)[1..] == calls;
  }

  /** A put through a pointer into any other block misses the pSync slots. */
  lemma UserPutsMissFlags(base: nat, size: nat, n: nat, calls: seq<Call>, j: nat, dest: nat, bytes: seq<nat>)
    requires 4 * n <= size && forall k :: 0 <= k < |calls| ==> calls[k] != Call.Release(0)
    requires var h := Layout(base, size, n, calls);
             && 0 < j < |h.blocks| && h.blocks[j] != HeapLayout.Block(base, 4 * n)
             && h.blocks[j].start <= dest && dest + |bytes| <= h.blocks[j].End() && AllBytes(bytes)
    ensures var offset := Offset(Layout(base, size, n, calls), dest);
            && 0 <= offset && offset + |bytes| <= size && (bytes == [] || 4 * n <= offset)
            && Fitting(n, size, Data(offset, bytes))
  {
    PSyncFirst(base, size, n, calls);
    RunInvariant(HeapLayout.Init(base, size), [Allocate(INT_SIZE * n)] + calls);
  }

  // ---- What a put does to the bytes ----

  /** A put that comm_remote_put can send and that keeps off the slots, unless it is a signal. */
  ghost predicate Fitting(n: nat, size: nat, put: Put)
  {
    match put
    case Flag(slot) => slot < n
    case Data(offset, bytes) => offset + |bytes| <= size && AllBytes(bytes) && (bytes == [] || INT_SIZE * n <= offset)
  }

  ghost predicate AllFitting(n: nat, size: nat, puts: seq<Put>)
  {
    forall k :: 0 <= k < |puts| ==> Fitting(n, size, puts[k])
  }

  /** The packet comm_remote_put makes of a put. */
  ghost function PacketOf(origin: nat, put: Put): Framing.Packet
    requires put.Data? ==> AllBytes(put.bytes)
  {
    match put
    case Flag(slot) => Framing.Packet(SendThread.HANDLER_PUT, origin, 0, INT_SIZE * slot, IntOf(true))
    case Data(offset, bytes) => Framing.Packet(SendThread.HANDLER_PUT, origin, 0, offset, bytes)
  }

  ghost function PacketsOf(n: nat, size: nat, origin: nat, puts: seq<Put>): (r: seq<Framing.Packet>)
    requires AllFitting(n, size, puts)
    ensures |r| == |puts| && forall k :: 0 <= k < |r| ==> Fitting(n, size, puts[k]) && r[k] == PacketOf(origin, puts[k])
  {
    if puts == [] then []
    else
      assert Fitting(n, size, puts[|puts| - 1]);
      PacketsOf(n, size, origin, puts[..|puts| - 1]) + [PacketOf(origin, puts[|puts| - 1])]
  }

  /** The record after the worker has written these puts of one PE, one after the other. */
  ghost function Delivered(pe: Pe, origin: nat, puts: seq<Put>): (r: Pe)
    requires origin < |pe.got| && AllFitting(|pe.flags|, |pe.heap|, puts)
    ensures |r.got| == |pe.got| && |r.heap| == |pe.heap| && |r.flags| == |pe.flags|
  {
    if puts == [] then pe
    else
      assert Fitting(|pe.flags|, |pe.heap|, puts[|puts| - 1]);
      Written(Delivered(pe, origin, puts[..|puts| - 1]), origin, puts[|puts| - 1])
  }

  /** The bytes of the symmetric heap: the pSync slots, and behind them the rest. */
  ghost predicate HasImage(pe: Pe)
  {
    INT_SIZE * |pe.flags| <= |pe.heap| && AllBytes(pe.heap)
  }

  ghost function Image(pe: Pe): (r: seq<Framing.Byte>)
    requires HasImage(pe)
    ensures |r| == |pe.heap|
  {
    seq(|pe.heap|, x requires 0 <= x < |pe.heap| =>
      if x < INT_SIZE * |pe.flags| then IntOf(pe.flags[x / INT_SIZE])[x % INT_SIZE] else pe.heap[x])
  }

  /** The spin loop on a slot reads its flag, and behind the slots the image is the heap. */
  lemma ImageReads(pe: Pe)
    requires HasImage(pe)
    ensures forall i :: 0 <= i < |pe.flags| ==> SlotIs(Image(pe), i, if pe.flags[i] then 1 else 0)
    ensures forall x :: 4 * |pe.flags| <= x < |pe.heap| ==> Image(pe)[x] == pe.heap[x]
  {
    forall i | 0 <= i < |pe.flags| ensures SlotIs(Image(pe), i, if pe.flags[i] then 1 else 0) {
      SlotReads(pe, i);
    }
  }

  /** Slot i of the pSync array holds this int. */
  ghost predicate SlotIs(memory: seq<Framing.Byte>, i: nat, value: int)
  {
    4 * i + 4 <= |memory| && Framing.Signed(memory[4 * i..4 * i + 4]) == value
  }

  lemma SlotReads(pe: Pe, i: nat)
    requires HasImage(pe) && i < |pe.flags|
    ensures SlotIs(Image(pe), i, if pe.flags[i] then 1 else 0)
  {
    IntReads(pe.flags[i]);
    forall c: nat | c < 4 ensures Image(pe)[4 * i + c] == IntOf(pe.flags[i])[c] { SlotByte(pe, i, c); }
    hide IntOf, Framing.Signed, Image;
    assert Image(pe)[4 * i..4 * i + 4] == IntOf(pe.flags[i]);
  }

  lemma SlotByte(pe: Pe, i: nat, c: nat)
    requires HasImage(pe) && i < |pe.flags| && c < 4
    ensures Image(pe)[4 * i + c] == IntOf(pe.flags[i])[c]
  {
    hide IntOf;
    assert (4 * i + c) / 4 == i && (4 * i + c) % 4 == c;
  }

  lemma IntReads(flag: bool)
    ensures Framing.Signed(IntOf(flag)) == if flag then 1 else 0
  {
    assert Framing.Fits(if flag then 1 else 0, 4) by { assert Framing.Range(1) == 256; }
    Framing.SignedBytes(if flag then 1 else 0, 4);
  }

  /** The packet of a put: handler 0, its origin, and the bytes at their place. A signal is the four
      bytes of the int 1 for the slot's place in pSync. */
  lemma PutPacket(origin: nat, put: Put)
    requires put.Data? ==> AllBytes(put.bytes)
    ensures var p := PacketOf(origin, put);
            && p.handler == 0 && p.origin == origin
            && if put.Flag? then p.heapOffset == 4 * put.slot && p.data == [1, 0, 0, 0]
               else p.heapOffset == put.offset && p.data == put.bytes
  {
    assert Framing.Bytes(1, 4) == [1] + Framing.Bytes(0, 3);
    assert Framing.Bytes(0, 3) == [0] + Framing.Bytes(0, 2) && Framing.Bytes(0, 2) == [0] + Framing.Bytes(0, 1);
    assert Framing.Bytes(0, 1) == [0] + Framing.Bytes(0, 0);
  }

  /** One put: memcpy of its packet's bytes. */
  lemma OnePut(pe: Pe, origin: nat, put: Put)
    requires HasImage(pe) && origin < |pe.got| && Fitting(|pe.flags|, |pe.heap|, put)
    ensures PutPath.PutFits(|pe.heap|, PacketOf(origin, put))
    ensures HasImage(Written(pe, origin, put))
    ensures Image(Written(pe, origin, put)) ==
              Memcpy(Image(pe), PacketOf(origin, put).heapOffset, PacketOf(origin, put).data)
  {
    hide IntOf;
    var after := Written(pe, origin, put);
    var packet := PacketOf(origin, put);
    MemcpyExactly(Image(pe), packet.heapOffset, packet.data);
    if put.Data? { MemcpyExactly(pe.heap, put.offset, put.bytes); }
    assert HasImage(after);
    forall x | 0 <= x < |pe.heap|
      ensures Image(after)[x] == Memcpy(Image(pe), packet.heapOffset, packet.data)[x]
    {}
  }

  lemma {:induction false} DeliveredIsMemcpy(pe: Pe, origin: nat, puts: seq<Put>)
    requires HasImage(pe) && origin < |pe.got| && AllFitting(|pe.flags|, |pe.heap|, puts)
    ensures var packets := PacketsOf(|pe.flags|, |pe.heap|, origin, puts);
            && (forall k :: 0 <= k < |packets| ==> PutPath.PutFits(|pe.heap|, packets[k]))
            && HasImage(Delivered(pe, origin, puts))
            && Image(Delivered(pe, origin, puts)) == PutPath.LocalPuts(Image(pe), packets)
  {
    var n, size := |pe.flags|, |pe.heap|;
    if puts != [] {
      var init, last := puts[..|puts| - 1], puts[|puts| - 1];
      DeliveredIsMemcpy(pe, origin, init);
      assert Fitting(n, size, last);
      OnePut(Delivered(pe, origin, init), origin, last);
      assert PacketsOf(n, size, origin, puts)[..|init|] == PacketsOf(n, size, origin, init);
    }
  }

  /** The numbers of this PE, its heap and its puts fit the header of a packet. */
  predicate Numbers(origin: nat, size: nat, puts: nat)
  {
    Framing.Fits(origin, 4) && Framing.Fits(size, 8) && Framing.Fits(puts, 8)
  }

  lemma PacketsSendable(n: nat, size: nat, origin: nat, puts: seq<Put>)
    requires AllFitting(n, size, puts) && INT_SIZE * n <= size && Numbers(origin, size, |puts|)
    ensures forall k :: 0 <= k < |puts| ==>
              Framing.Sendable(SendThread.Numbered(PacketsOf(n, size, origin, puts))[k])
  {
    var packets := PacketsOf(n, size, origin, puts);
    assert Framing.Fits(0, 1) by { assert Framing.Range(1) == 256; }
    forall k | 0 <= k < |puts| ensures Framing.Sendable(SendThread.Numbered(packets)[k]) {
      assert Fitting(n, size, puts[k]) && packets[k] == PacketOf(origin, puts[k]);
      hide Framing.Range, AllFitting;
    }
  }

  /** What the delivery model does with the puts on a wire, barrier signals included, the bytes on
      a socket do: framed, read back, queued as jobs and run, they leave the same memory. */
  lemma WireIsSocket(pe: Pe, origin: nat, puts: seq<Put>)
    requires HasImage(pe) && origin < |pe.got| && AllFitting(|pe.flags|, |pe.heap|, puts)
    requires Numbers(origin, |pe.heap|, |puts|)
    ensures var packets := PacketsOf(|pe.flags|, |pe.heap|, origin, puts);
            var read := Framing.ParseAll(Framing.Frames(SendThread.Numbered(packets))).0;
            && PutPath.AllInBounds(|pe.heap|, PutPath.JobsOf(read))
            && HasImage(Delivered(pe, origin, puts))
            && PutPath.ApplyAll(Image(pe), PutPath.JobsOf(read)) == Image(Delivered(pe, origin, puts))
  {
    var packets := PacketsOf(|pe.flags|, |pe.heap|, origin, puts);
    PacketsSendable(|pe.flags|, |pe.heap|, origin, puts);
    DeliveredIsMemcpy(pe, origin, puts);
    hide Framing.Sendable, PacketsOf, AllFitting, Delivered, Image, HasImage;
    Framing.RoundTrip(SendThread.Numbered(packets));
    PutPath.StampedPuts(Image(pe), packets);
  }
}
