/** The sending half of the communication thread: puts enter the send queue, and the thread
    stamps each packet with the next request index of its peer and writes it to the peer's
    socket (src/comm/comm_remote.c:73-106, 135-150, 383-397). */
module SendThread {
  import opened Framing
  import opened Locality
  import opened Queues

  /** src/job/work.h:7. */
  const HANDLER_PUT: int := 0

  /** A queued packet and its destination. */
  datatype Queued = Queued(pe: nat, packet: Packet)

  /** A PE that comm_put hands to comm_remote_put: it runs on another host, and its index is inside
      the arrays of this PE. */
  predicate Addressable(places: seq<Place>, nRemote: nat, pe: nat)
  {
    pe < |places| && places[pe].kind.Remote? && places[pe].index < nRemote
  }

  ghost predicate AllAddressable(places: seq<Place>, nRemote: nat, queued: seq<Queued>)
  {
    forall k :: 0 <= k < |queued| ==> Addressable(places, nRemote, queued[k].pe)
  }

  /** The packets that go to the socket at an array index, in order. */
  function To(places: seq<Place>, queued: seq<Queued>, index: nat): seq<Packet>
    requires forall k :: 0 <= k < |queued| ==> queued[k].pe < |places|
  {
    if queued == [] then []
    else
      var last := queued[|queued| - 1];
      To(places, queued[..|queued| - 1], index) + if places[last.pe].index == index then [last.packet] else []
  }

  /** The packets for a PE, in order. */
  function For(queued: seq<Queued>, pe: nat): seq<Packet>
  {
    if queued == [] then []
    else
      var last := queued[|queued| - 1];
      For(queued[..|queued| - 1], pe) + if last.pe == pe then [last.packet] else []
  }

  function Stamped(packet: Packet, requestIndex: int): Packet
  {
    packet.(requestIndex := requestIndex)
  }

  /** All fields but the request index. */
  predicate SameButIndex(p: Packet, q: Packet)
  {
    p.handler == q.handler && p.origin == q.origin && p.heapOffset == q.heapOffset && p.data == q.data
  }

  /** The k-th packet carries request index k, counted from 1. */
  function Numbered(packets: seq<Packet>): (r: seq<Packet>)
    ensures |r| == |packets|
    ensures forall k :: 0 <= k < |r| ==> r[k].requestIndex == k + 1 && SameButIndex(r[k], packets[k])
  {
    if packets == [] then []
    else Numbered(packets[..|packets| - 1]) + [Stamped(packets[|packets| - 1], |packets|)]
  }

  /** A socket holds the frames of what was sent to its peer, numbered from 1. */
  predicate Carries(places: seq<Place>, sent: seq<Queued>, i: nat, requests: int, socket: seq<Byte>)
    requires forall k :: 0 <= k < |sent| ==> sent[k].pe < |places|
  {
    requests == |To(places, sent, i)| && socket == Frames(Numbered(To(places, sent, i)))
  }

  /** All sockets do. */
  ghost predicate AllCarry(places: seq<Place>, sent: seq<Queued>, requests: seq<int>, sockets: seq<seq<Byte>>)
    requires forall k :: 0 <= k < |sent| ==> sent[k].pe < |places|
  {
    |requests| == |sockets| && forall i :: 0 <= i < |requests| ==> Carries(places, sent, i, requests[i], sockets[i])
  }

  class CommThread {
    const me: int
    const places: seq<Place>
    const queue: Queue<Queued>
    const requests: array<int>
    const sockets: array<seq<Byte>>
    ghost var sent: seq<Queued>

    /** Everything put so far: what was sent and what is queued. */
    ghost function Handed(): seq<Queued>
      reads this, queue
    {
      sent + queue.items
    }

    ghost predicate Valid()
      reads this, queue, queue.nodes, requests, sockets
    {
      && queue.Valid() && requests.Length == sockets.Length
      && AllAddressable(places, requests.Length, queue.items) && AllAddressable(places, requests.Length, sent)
      && AllCarry(places, sent, requests[..], sockets[..])
    }

    /** comm_remote_start: all request indices 0, nothing queued. */
    constructor (me: int, places: seq<Place>, nRemote: nat)
      ensures Valid() && Handed() == [] && this.me == me && this.places == places && sockets.Length == nRemote
      ensures fresh(queue) && fresh(requests) && fresh(sockets) && queue.nodes == []
    {
      this.me, this.places := me, places;
      queue := new Queue<Queued>();
      requests := new int[nRemote](_ => 0);
      sockets := new seq<Byte>[nRemote](_ => []);
      sent := [];
    }

    /** comm_remote_put: a put to another host is only queued, with handler 0. */
    method Put(pe: nat, heapOffset: int, bytes: seq<Byte>)
      requires Valid() && Addressable(places, sockets.Length, pe)
      modifies queue, queue.nodes
      ensures Valid() && sent == old(sent)
      ensures Handed() == old(Handed()) + [Queued(pe, Packet(0, me, 0, heapOffset, bytes))]
      ensures forall i :: 0 <= i < sockets.Length ==> sockets[i] == old(sockets[i])
    {
      queue.Enqueue(Queued(pe, Packet(HANDLER_PUT, me, 0, heapOffset, bytes)));
    }

    /** One packet from the queue to its socket. */
    method SendFirst()
      requires Valid() && queue.items != []
      modifies this, queue, requests, sockets
      ensures Valid() && sent == old(sent) + [old(queue.items)[0]] && queue.items == old(queue.items)[1..]
      ensures queue.nodes == old(queue.nodes)[1..]
    {
      hide AllCarry, Queue.Valid, Frame;
      var first := queue.Dequeue();
      AllCarryMore(places, sent, first.value, requests[..], sockets[..]);
      Transmit(first.value);
      sent := sent + [first.value];
    }

    /** Stamp a packet with the next request index of its peer and write it to the peer's socket. */
    method Transmit(next: Queued)
      requires next.pe < |places| && places[next.pe].index < requests.Length == sockets.Length
      modifies requests, sockets
      ensures var i, p := places[next.pe].index, next.packet;
              var stamped := Packet(p.handler, p.origin, old(requests[i]) + 1, p.heapOffset, p.data);
              && requests[..] == old(requests[..])[i := old(requests[i]) + 1]
              && sockets[..] == old(sockets[..])[i := old(sockets[i]) + Frame(stamped)]
    {
      hide Frame;
      var peIndex := places[next.pe].index;
      requests[peIndex] := requests[peIndex] + 1;
      sockets[peIndex] := sockets[peIndex] + Frame(Stamped(next.packet, requests[peIndex]));
    }

    /** The send loop: until the queue is empty. */
    method Send()
      requires Valid()
      modifies this, queue, requests, sockets
      ensures Valid() && queue.items == []
      ensures Handed() == old(Handed())
    {
      while queue.head != null
        invariant Valid() && Handed() == old(Handed())
        decreases |queue.items|
      {
        SendFirst();
      }
    }
  }

  lemma OneMore(places: seq<Place>, sent: seq<Queued>, next: Queued, i: nat)
    requires next.pe < |places| && forall k :: 0 <= k < |sent| ==> sent[k].pe < |places|
    ensures places[next.pe].index != i ==> To(places, sent + [next], i) == To(places, sent, i)
    ensures places[next.pe].index == i ==>
              && To(places, sent + [next], i) == To(places, sent, i) + [next.packet]
              && Frames(Numbered(To(places, sent + [next], i))) ==
                   Frames(Numbered(To(places, sent, i))) + Frame(Stamped(next.packet, |To(places, sent, i)| + 1))
  {
    assert (sent + [next])[..|sent|] == sent;
    if places[next.pe].index == i {
      var before := To(places, sent, i);
      var stamped := Stamped(next.packet, |before| + 1);
      assert (before + [next.packet])[..|before|] == before;
      assert Numbered(before + [next.packet]) == Numbered(before) + [stamped];
      FramesAppend(Numbered(before), [stamped]);
      assert Frames([stamped]) == Frame(stamped) + Frames([stamped][1..]);
      assert Frames([stamped]) == Frame(stamped);
    }
  }

  lemma CarriesMore(places: seq<Place>, sent: seq<Queued>, next: Queued, i: nat, requests: int, socket: seq<Byte>)
    requires next.pe < |places| && forall k :: 0 <= k < |sent| ==> sent[k].pe < |places|
    requires Carries(places, sent, i, requests, socket)
    ensures var mine := places[next.pe].index == i;
            Carries(places, sent + [next], i, requests + (if mine then 1 else 0),
                    if mine then socket + Frame(Stamped(next.packet, requests + 1)) else socket)
  {
    OneMore(places, sent, next, i);
  }

  lemma AllCarryMore(places: seq<Place>, sent: seq<Queued>, next: Queued, requests: seq<int>, sockets: seq<seq<Byte>>)
    requires next.pe < |places| && forall k :: 0 <= k < |sent| ==> sent[k].pe < |places|
    requires AllCarry(places, sent, requests, sockets) && places[next.pe].index < |requests|
    ensures var i := places[next.pe].index;
            && i < |sockets|
            && AllCarry(places, sent + [next], requests[i := requests[i] + 1],
                        sockets[i := sockets[i] + Frame(Stamped(next.packet, requests[i] + 1))])
  {
    hide Carries;
    forall i | 0 <= i < |requests| {
      CarriesMore(places, sent, next, i, requests[i], sockets[i]);
    }
  }

  // ---- What one PE reads ----

  /** The positions of the packets for a PE, in order: all of them, and no others. */
  ghost predicate Positions(queued: seq<Queued>, pe: nat, at: seq<nat>)
  {
    && (forall k :: 0 <= k < |at| ==> at[k] < |queued| && queued[at[k]].pe == pe)
    && (forall k, l :: 0 <= k < l < |at| ==> at[k] < at[l])
    && (forall i :: 0 <= i < |queued| && queued[i].pe == pe ==> i in at)
  }

  /** These are the packets at the positions. */
  ghost predicate Picked(packets: seq<Packet>, queued: seq<Queued>, at: seq<nat>)
  {
    |packets| == |at| && forall k :: 0 <= k < |at| ==> at[k] < |queued| && packets[k] == queued[at[k]].packet
  }

  lemma PickedMore(packets: seq<Packet>, init: seq<Queued>, last: Queued, at: seq<nat>)
    requires Picked(packets, init, at)
    ensures Picked(packets, init + [last], at) && Picked(packets + [last.packet], init + [last], at + [|init|])
  {}

  /** `For` picks the packets at these positions. */
  lemma {:induction false} ForPositions(queued: seq<Queued>, pe: nat) returns (at: seq<nat>)
    ensures Positions(queued, pe, at) && Picked(For(queued, pe), queued, at) && |at| <= |queued|
  {
    if queued == [] {
      at := [];
    } else {
      hide *;
      var init, last := queued[..|queued| - 1], queued[|queued| - 1];
      assert queued == init + [last];
      at := ForPositions(init, pe);
      at := PickedFor(init, last, pe, at);
    }
  }

  lemma PickedFor(init: seq<Queued>, last: Queued, pe: nat, at: seq<nat>) returns (at': seq<nat>)
    requires Positions(init, pe, at) && Picked(For(init, pe), init, at) && |at| <= |init|
    ensures Positions(init + [last], pe, at') && Picked(For(init + [last], pe), init + [last], at')
    ensures |at'| <= |init| + 1
  {
    at' := if last.pe == pe then at + [|init|] else at;
    PositionsMore(init, last, pe, at);
    ForMore(init, last, pe);
    PickedMore(For(init, pe), init, last, at);
    hide *;
  }

  lemma ForMore(init: seq<Queued>, last: Queued, pe: nat)
    ensures last.pe == pe ==> For(init + [last], pe) == For(init, pe) + [last.packet]
    ensures last.pe != pe ==> For(init + [last], pe) == For(init, pe)
  {
    assert (init + [last])[..|init|] == init;
  }

  lemma PositionsMore(init: seq<Queued>, last: Queued, pe: nat, at: seq<nat>)
    requires Positions(init, pe, at)
    ensures last.pe == pe ==> Positions(init + [last], pe, at + [|init|])
    ensures last.pe != pe ==> Positions(init + [last], pe, at)
  {
    var more := at + [|init|];
    assert more[|at|] == |init|;
    forall i | 0 <= i < |init + [last]| && (init + [last])[i].pe == pe
      ensures if last.pe == pe then i in more else i in at
    {
      if i < |init| {
        assert init[i].pe == pe && i in at;
        var k :| 0 <= k < |at| && at[k] == i;
        assert more[k] == i;
      }
    }
  }

  /** Nobody else's packets go to a PE's socket when no other addressee shares its index. */
  lemma {:induction false} ToIsFor(places: seq<Place>, sent: seq<Queued>, b: nat)
    requires b < |places| && forall k :: 0 <= k < |sent| ==> sent[k].pe < |places|
    requires forall k :: 0 <= k < |sent| && sent[k].pe != b ==> places[sent[k].pe].index != places[b].index
    ensures To(places, sent, places[b].index) == For(sent, b)
  {
    if sent != [] { ToIsFor(places, sent[..|sent| - 1], b); }
  }

  /** In the map of a PE whose host lists partition the PEs, exactly the PEs of other hosts can be
      addressed, and no two of them share a socket. */
  lemma MapAddresses(hosts: Hosts, mine: nat, places: seq<Place>, pe: nat)
    requires Filled(hosts, mine, places) && pe < |places|
    ensures 0 <= Size(hosts, |places|, mine, Remote)
    ensures Addressable(places, Size(hosts, |places|, mine, Remote), pe) <==> !OnHost(hosts, mine, pe)
    ensures places[pe].kind.Remote? ==>
              forall q: nat :: q < |places| && places[q].kind.Remote? && q != pe ==> places[q].index != places[pe].index
  {
    RemoteCount(hosts, |places|, mine);
    PlaceInRange(hosts, mine, places, pe);
    assert OnHost(hosts, places[pe].host, pe);
    forall q: nat | q < |places| && places[q].kind.Remote? && q != pe && places[pe].kind.Remote?
      ensures places[q].index != places[pe].index
    {
      IndicesDiffer(hosts, mine, places, q, pe);
    }
  }

  /** The packets for PE b fit the types of the packet header, and so do their numbers. */
  ghost predicate AllSendable(sent: seq<Queued>, b: nat)
  {
    && 2 * |sent| < Range(8)
    && forall i :: 0 <= i < |sent| && sent[i].pe == b ==> Sendable(sent[i].packet)
  }

  lemma NumberedSendable(sent: seq<Queued>, b: nat)
    requires AllSendable(sent, b)
    ensures forall k :: 0 <= k < |For(sent, b)| ==> Sendable(Numbered(For(sent, b))[k])
  {
    var at := ForPositions(sent, b);
    hide Range;
    forall k | 0 <= k < |For(sent, b)| ensures Sendable(Numbered(For(sent, b))[k]) {
      assert Sendable(sent[at[k]].packet);
    }
  }

  /** What PE b reads from its socket is exactly the packets for b, in order, with nothing left
      over. `at` are their positions in all that was sent; the k-th has the fields that were queued
      and request index k, counted from 1. */
  lemma PeerReadsBack(hosts: Hosts, mine: nat, places: seq<Place>, nRemote: nat, sent: seq<Queued>, b: nat,
                      requests: int, socket: seq<Byte>)
    returns (at: seq<nat>)
    requires Filled(hosts, mine, places) && AllAddressable(places, nRemote, sent) && Addressable(places, nRemote, b)
    requires Carries(places, sent, places[b].index, requests, socket) && AllSendable(sent, b)
    ensures Positions(sent, b, at) && ParseAll(socket).1 == [] && |ParseAll(socket).0| == |at| == requests
    ensures forall k :: 0 <= k < |at| ==>
              var read, queued := ParseAll(socket).0[k], sent[at[k]].packet;
              && read.requestIndex == k + 1 && read.handler == queued.handler && read.origin == queued.origin
              && read.heapOffset == queued.heapOffset && read.data == queued.data
    ensures ParseAll(socket).0 == Numbered(For(sent, b))
  {
    MapAddresses(hosts, mine, places, b);
    ToIsFor(places, sent, b);
    NumberedSendable(sent, b);
    RoundTrip(Numbered(For(sent, b)));
    at := ForPositions(sent, b);
  }
}
