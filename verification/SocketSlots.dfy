/** The socket arrays of wire-up are indexed by the locality map (src/comm/comm_node.c,
    src/comm/comm_remote.c): what the handshake needs of the indices. */
module SocketSlots {
  import opened Wiring
  import opened Locality
  import WireUpProof

  /** Every PE filled its own map from the same host lists, and runs on the host that lists it. */
  ghost predicate MapsOf(hosts: Hosts, pl: Placement, maps: seq<seq<Place>>)
  {
    && Partition(hosts, pl.N()) && |maps| == pl.N()
    && forall p: nat :: p < pl.N() ==> MapOf(hosts, pl, maps[p], p)
  }

  ghost predicate MapOf(hosts: Hosts, pl: Placement, places: seq<Place>, p: nat)
    requires Partition(hosts, pl.N()) && p < pl.N()
  {
    && OnHost(hosts, pl.hosts[p], p)
    && |places| == pl.N() && Filled(hosts, pl.hosts[p], places)
  }

  /** slot[p][a]: where PE p keeps its sockets to PE a. */
  function SlotTable(maps: seq<seq<Place>>): (slot: seq<seq<nat>>)
  {
    seq(|maps|, p requires 0 <= p < |maps| => Indices(maps[p]))
  }

  function Indices(places: seq<Place>): (r: seq<nat>)
    ensures |r| == |places| && forall a :: 0 <= a < |r| ==> r[a] == places[a].index
  {
    seq(|places|, a requires 0 <= a < |places| => places[a].index)
  }

  lemma RemoteKind(hosts: Hosts, pl: Placement, maps: seq<seq<Place>>, p: nat, a: nat)
    requires MapsOf(hosts, pl, maps) && p < pl.N() && a < pl.N()
    ensures |maps[p]| == pl.N() && pl.hosts[p] < |hosts.pes|
    ensures maps[p][a].host == pl.hosts[a] && (maps[p][a].kind.Remote? <==> pl.Remote(p, a))
    ensures pl.Remote(p, a) ==> maps[p][a].index < pl.N() - |hosts.pes[pl.hosts[p]]|
  {
    assert MapOf(hosts, pl, maps[p], p) && MapOf(hosts, pl, maps[a], a);
    PlaceInRange(hosts, pl.hosts[p], maps[p], a);
    assert OnHost(hosts, maps[p][a].host, a) && OnHost(hosts, pl.hosts[a], a);
  }

  /** The indices in the maps give every PE different slots, inside its arrays, for different PEs of
      other hosts: what WireUpProof.WireUpCompletes asks of the slots. */
  lemma MapsGiveSlots(hosts: Hosts, pl: Placement, maps: seq<seq<Place>>)
    requires MapsOf(hosts, pl, maps)
    ensures |SlotTable(maps)| == |maps| && WireUpProof.SlotsInjective(pl, SlotTable(maps))
    ensures forall p, a :: 0 <= p < pl.N() && 0 <= a < |SlotTable(maps)[p]| ==>
              a < |maps[p]| && SlotTable(maps)[p][a] == maps[p][a].index
    ensures forall p, a :: 0 <= p < pl.N() && 0 <= a < pl.N() && pl.Remote(p, a) ==>
              pl.hosts[p] < |hosts.pes| && SlotTable(maps)[p][a] < pl.N() - |hosts.pes[pl.hosts[p]]|
  {
    var slot := SlotTable(maps);
    forall p: nat | p < pl.N() ensures |slot[p]| == pl.N() {
      assert MapOf(hosts, pl, maps[p], p);
    }
    forall p: nat, a: nat, b: nat | p < pl.N() && a < pl.N() && b < pl.N() && pl.Remote(p, a) && pl.Remote(p, b)
      && a != b
      ensures slot[p][a] != slot[p][b]
    {
      RemoteKind(hosts, pl, maps, p, a);
      RemoteKind(hosts, pl, maps, p, b);
      assert MapOf(hosts, pl, maps[p], p);
      IndicesDiffer(hosts, pl.hosts[p], maps[p], a, b);
    }
    forall p: nat, a: nat | p < pl.N() && a < pl.N() && pl.Remote(p, a)
      ensures pl.hosts[p] < |hosts.pes| && slot[p][a] < pl.N() - |hosts.pes[pl.hosts[p]]|
    {
      RemoteKind(hosts, pl, maps, p, a);
    }
  }
}
