/** The locality map: which PEs share the host, and the array index of each PE
    (src/comm/comm_node.c). */
module Locality {

  datatype Kind = Local | Remote

  datatype Place = Place(kind: Kind, index: nat, host: nat)

  /** The hosts of the job, and the PEs on each. */
  datatype Hosts = Hosts(names: seq<string>, pes: seq<seq<nat>>)

  ghost predicate InRange(hosts: Hosts, n: nat)
  {
    && |hosts.names| == |hosts.pes|
    && forall i, j :: 0 <= i < |hosts.pes| && 0 <= j < |hosts.pes[i]| ==> hosts.pes[i][j] < n
  }

  predicate OnHost(hosts: Hosts, i: nat, p: nat)
  {
    i < |hosts.pes| && p in hosts.pes[i]
  }

  ghost predicate Placed(hosts: Hosts, p: nat)
  {
    exists i: nat :: OnHost(hosts, i, p)
  }

  ghost predicate NoRepeat(list: seq<nat>)
  {
    forall j, k :: 0 <= j < k < |list| ==> list[j] != list[k]
  }

  /** No PE is listed twice. */
  ghost predicate Disjoint(hosts: Hosts)
  {
    && (forall i: nat, j: nat, p: nat :: OnHost(hosts, i, p) && OnHost(hosts, j, p) ==> i == j)
    && (forall i :: 0 <= i < |hosts.pes| ==> NoRepeat(hosts.pes[i]))
  }

  /** Every PE is on exactly one host, and hosts have different names. */
  ghost predicate Partition(hosts: Hosts, n: nat)
  {
    && InRange(hosts, n) && Disjoint(hosts)
    && (forall p: nat :: p < n ==> Placed(hosts, p))
    && (forall i, j :: 0 <= i < j < |hosts.names| ==> hosts.names[i] != hosts.names[j])
  }

  function KindOf(hosts: Hosts, me: string, i: nat): Kind
    requires i < |hosts.names|
  {
    if hosts.names[i] == me then Local else Remote
  }

  /** The running index in front of host i: the PEs of earlier hosts other than mine. */
  function RemotesBefore(hosts: Hosts, me: string, i: nat): nat
    requires i <= |hosts.pes| == |hosts.names|
  {
    if i == 0 then 0
    else RemotesBefore(hosts, me, i - 1) + if KindOf(hosts, me, i - 1).Local? then 0 else |hosts.pes[i - 1]|
  }

  /** Where the j-th PE of host i goes. */
  function PlaceOf(hosts: Hosts, me: string, i: nat, j: nat): Place
    requires i < |hosts.pes| == |hosts.names|
  {
    match KindOf(hosts, me, i)
    case Local => Place(Local, j, i)
    case Remote => Place(Remote, RemotesBefore(hosts, me, i) + j, i)
  }

  predicate MapsTo(hosts: Hosts, me: string, places: seq<Place>, h: nat, k: nat)
    requires InRange(hosts, |places|) && h < |hosts.pes| && k < |hosts.pes[h]|
  {
    places[hosts.pes[h][k]] == PlaceOf(hosts, me, h, k)
  }

  /** The map holds the place of every PE of the hosts before i, and of the first j of host i. */
  ghost predicate Mapped(hosts: Hosts, me: string, places: seq<Place>, i: nat, j: nat)
    requires InRange(hosts, |places|)
  {
    forall h, k :: 0 <= h < |hosts.pes| && 0 <= k < |hosts.pes[h]| && (h < i || (h == i && k < j)) ==>
      MapsTo(hosts, me, places, h, k)
  }

  /** The PEs listed before the j-th PE of host i that are on another host than `me`, by their
      positions in the lists. */
  function RemotesListedBefore(hosts: Hosts, me: string, i: nat, j: nat): set<(nat, nat)>
  {
    set h: nat, k: nat |
      h < |hosts.pes| && h < |hosts.names| && k < |hosts.pes[h]| && hosts.names[h] != me
      && (h < i || (h == i && k < j)) :: (h, k)
  }

  /** Each PE of my host has its position in the list of my host; any other PE has the number of
      remote PEs listed before it. */
  ghost predicate PlacedRight(hosts: Hosts, me: string, places: seq<Place>, i: nat, j: nat)
    requires InRange(hosts, |places|) && i < |hosts.pes| && j < |hosts.pes[i]|
  {
    var place := places[hosts.pes[i][j]];
    && place.host == i
    && if hosts.names[i] == me then place.kind == Local && place.index == j
       else place.kind == Remote && place.index == |RemotesListedBefore(hosts, me, i, j)|
  }

  /** The nested loops that fill the map, with their running index. */
  method MapLocality(me: string, hosts: Hosts, places: array<Place>)
    requires InRange(hosts, places.Length) && Disjoint(hosts)
    modifies places
    ensures Mapped(hosts, me, places[..], |hosts.pes|, 0)
    ensures forall i, j :: 0 <= i < |hosts.pes| && 0 <= j < |hosts.pes[i]| ==> PlacedRight(hosts, me, places[..], i, j)
  {
    var index := 0;
    for i := 0 to |hosts.pes|
      invariant index == RemotesBefore(hosts, me, i)
      invariant Mapped(hosts, me, places[..], i, 0)
    {
      index := MapHost(me, hosts, places, i, index);
    }
    MappedIsRight(hosts, me, places[..]);
  }

  method MapHost(me: string, hosts: Hosts, places: array<Place>, i: nat, first: nat) returns (index: nat)
    requires InRange(hosts, places.Length) && Disjoint(hosts) && i < |hosts.pes|
    requires first == RemotesBefore(hosts, me, i) && Mapped(hosts, me, places[..], i, 0)
    modifies places
    ensures index == RemotesBefore(hosts, me, i + 1) && Mapped(hosts, me, places[..], i + 1, 0)
  {
    hide Mapped, InRange, Disjoint;
    index := first;
    RangeOf(hosts, places.Length);
    var kind := KindOf(hosts, me, i);
    for j := 0 to |hosts.pes[i]|
      invariant index == first + if kind.Local? then 0 else j
      invariant Mapped(hosts, me, places[..], i, j)
    {
      ghost var before := places[..];
      ghost var p := hosts.pes[i][j];
      if kind.Local? {
        places[hosts.pes[i][j]] := Place(kind, j, i);
      } else {
        places[hosts.pes[i][j]] := Place(kind, index, i);
        index := index + 1;
      }
      assert places[..] == before[p := PlaceOf(hosts, me, i, j)];
      MappedOneMore(hosts, me, before, i, j);
    }
    MappedHost(hosts, me, places[..], i);
  }

  /** The running index counts the remote PEs listed before. */
  lemma {:induction false} RunningIndex(hosts: Hosts, me: string, i: nat, j: nat)
    requires i < |hosts.pes| == |hosts.names| && j <= |hosts.pes[i]|
    ensures |RemotesListedBefore(hosts, me, i, j)| ==
              RemotesBefore(hosts, me, i) + if hosts.names[i] == me then 0 else j
    decreases i, j
  {
    var before := RemotesListedBefore(hosts, me, i, j);
    if j > 0 {
      RunningIndex(hosts, me, i, j - 1);
      var fewer := RemotesListedBefore(hosts, me, i, j - 1);
      assert before == if hosts.names[i] == me then fewer else fewer + {(i, j - 1)};
    } else if i > 0 {
      RunningIndex(hosts, me, i - 1, |hosts.pes[i - 1]|);
      assert before == RemotesListedBefore(hosts, me, i - 1, |hosts.pes[i - 1]|);
    } else {
      assert before == {};
    }
  }

  /** The filled map in terms of the lists only. */
  lemma MappedIsRight(hosts: Hosts, me: string, places: seq<Place>)
    requires InRange(hosts, |places|) && Mapped(hosts, me, places, |hosts.pes|, 0)
    ensures forall i, j :: 0 <= i < |hosts.pes| && 0 <= j < |hosts.pes[i]| ==> PlacedRight(hosts, me, places, i, j)
  {
    forall i, j | 0 <= i < |hosts.pes| && 0 <= j < |hosts.pes[i]| ensures PlacedRight(hosts, me, places, i, j) {
      assert MapsTo(hosts, me, places, i, j);
      RunningIndex(hosts, me, i, j);
    }
  }

  lemma RangeOf(hosts: Hosts, n: nat)
    requires InRange(hosts, n)
    ensures |hosts.names| == |hosts.pes|
    ensures forall i, j :: 0 <= i < |hosts.pes| && 0 <= j < |hosts.pes[i]| ==> hosts.pes[i][j] < n
  {}

  lemma MappedOneMore(hosts: Hosts, me: string, places: seq<Place>, i: nat, j: nat)
    requires InRange(hosts, |places|) && Disjoint(hosts) && i < |hosts.pes| && j < |hosts.pes[i]|
    requires Mapped(hosts, me, places, i, j)
    ensures Mapped(hosts, me, places[hosts.pes[i][j] := PlaceOf(hosts, me, i, j)], i, j + 1)
  {
    var after := places[hosts.pes[i][j] := PlaceOf(hosts, me, i, j)];
    forall h, k | 0 <= h < |hosts.pes| && 0 <= k < |hosts.pes[h]| && (h < i || (h == i && k < j + 1))
      ensures MapsTo(hosts, me, after, h, k)
    {
      if h != i || k != j {
        assert MapsTo(hosts, me, places, h, k);
        Different(hosts, h, k, i, j);
      }
    }
  }

  lemma MappedHost(hosts: Hosts, me: string, places: seq<Place>, i: nat)
    requires InRange(hosts, |places|) && i < |hosts.pes| && Mapped(hosts, me, places, i, |hosts.pes[i]|)
    ensures Mapped(hosts, me, places, i + 1, 0)
  {}

  lemma Different(hosts: Hosts, h: nat, k: nat, i: nat, j: nat)
    requires Disjoint(hosts) && h < |hosts.pes| && k < |hosts.pes[h]| && i < |hosts.pes| && j < |hosts.pes[i]|
    requires h != i || k != j
    ensures hosts.pes[h][k] != hosts.pes[i][j]
  {
    if h == i {
      assert NoRepeat(hosts.pes[i]);
    } else {
      assert OnHost(hosts, h, hosts.pes[h][k]) && OnHost(hosts, i, hosts.pes[i][j]);
    }
  }

  /** The map that these loops fill on a host, when the host lists partition the PEs. */
  ghost predicate Filled(hosts: Hosts, mine: nat, places: seq<Place>)
  {
    && Partition(hosts, |places|) && mine < |hosts.pes|
    && Mapped(hosts, hosts.names[mine], places, |hosts.pes|, 0)
  }

  // ---- The map is a bijection ----

  lemma {:induction false} RemotesGrow(hosts: Hosts, me: string, i: nat, h: nat)
    requires i < h <= |hosts.pes| == |hosts.names|
    ensures var here := if KindOf(hosts, me, i).Local? then 0 else |hosts.pes[i]|;
            RemotesBefore(hosts, me, i) + here <= RemotesBefore(hosts, me, h)
  {
    if i + 1 < h { RemotesGrow(hosts, me, i, h - 1); }
  }

  /** Every running index belongs to a PE of another host. */
  lemma {:induction false} RemoteAt(hosts: Hosts, me: string, i: nat, r: nat) returns (h: nat, k: nat)
    requires i <= |hosts.pes| == |hosts.names| && r < RemotesBefore(hosts, me, i)
    ensures h < i && KindOf(hosts, me, h).Remote? && k < |hosts.pes[h]| && RemotesBefore(hosts, me, h) + k == r
  {
    if r < RemotesBefore(hosts, me, i - 1) {
      h, k := RemoteAt(hosts, me, i - 1, r);
    } else {
      h, k := i - 1, r - RemotesBefore(hosts, me, i - 1);
    }
  }

  function Elements(list: seq<nat>): set<nat> { set p | p in list }

  lemma {:induction false} DistinctSize(list: seq<nat>)
    requires NoRepeat(list)
    ensures |Elements(list)| == |list|
  {
    if list != [] {
      var init, last := list[..|list| - 1], list[|list| - 1];
      DistinctSize(init);
      assert list == init + [last];
      assert Elements(list) == Elements(init) + {last} && last !in Elements(init);
    }
  }

  /** The PEs of the first i hosts. */
  function PesOf(hosts: Hosts, i: nat): set<nat>
    requires i <= |hosts.pes|
  {
    if i == 0 then {} else PesOf(hosts, i - 1) + Elements(hosts.pes[i - 1])
  }

  lemma {:induction false} PesOfIs(hosts: Hosts, i: nat, p: nat)
    requires i <= |hosts.pes|
    ensures p in PesOf(hosts, i) <==> exists h: nat :: h < i && OnHost(hosts, h, p)
  {
    if i > 0 {
      PesOfIs(hosts, i - 1, p);
      assert p in Elements(hosts.pes[i - 1]) <==> OnHost(hosts, i - 1, p);
    }
  }

  lemma NewPes(hosts: Hosts, i: nat)
    requires Disjoint(hosts) && i < |hosts.pes|
    ensures |PesOf(hosts, i + 1)| == |PesOf(hosts, i)| + |hosts.pes[i]|
  {
    assert NoRepeat(hosts.pes[i]);
    DistinctSize(hosts.pes[i]);
    forall p: nat | p in PesOf(hosts, i) ensures p !in Elements(hosts.pes[i]) {
      PesOfIs(hosts, i, p);
      if p in Elements(hosts.pes[i]) { assert OnHost(hosts, i, p); }
    }
    assert PesOf(hosts, i) !! Elements(hosts.pes[i]);
  }

  /** The PEs of the first i hosts are my host's and the remote ones. */
  lemma {:induction false} CountUpTo(hosts: Hosts, n: nat, mine: nat, i: nat)
    requires Partition(hosts, n) && mine < |hosts.pes| && i <= |hosts.pes|
    ensures |PesOf(hosts, i)| == RemotesBefore(hosts, hosts.names[mine], i) + if mine < i then |hosts.pes[mine]| else 0
  {
    hide Disjoint, InRange;
    if i > 0 {
      CountUpTo(hosts, n, mine, i - 1);
      NewPes(hosts, i - 1);
      MineOnly(hosts, n, mine, i - 1);
    }
  }

  lemma MineOnly(hosts: Hosts, n: nat, mine: nat, i: nat)
    requires Partition(hosts, n) && mine < |hosts.pes| && i < |hosts.pes|
    ensures KindOf(hosts, hosts.names[mine], i).Local? <==> i == mine
  {}

  function Below(n: nat): (s: set<nat>)
    ensures |s| == n && forall p :: p in s <==> 0 <= p < n
  {
    if n == 0 then {} else Below(n - 1) + {n - 1}
  }

  /** My host's PEs and the remote PEs are all there are. */
  lemma RemoteCount(hosts: Hosts, n: nat, mine: nat)
    requires Partition(hosts, n) && mine < |hosts.pes|
    ensures RemotesBefore(hosts, hosts.names[mine], |hosts.pes|) + |hosts.pes[mine]| == n
  {
    CountUpTo(hosts, n, mine, |hosts.pes|);
    forall p: nat ensures p in PesOf(hosts, |hosts.pes|) <==> p in Below(n) {
      PesOfIs(hosts, |hosts.pes|, p);
      if p in PesOf(hosts, |hosts.pes|) {
        var h: nat :| OnHost(hosts, h, p);
        var k :| 0 <= k < |hosts.pes[h]| && hosts.pes[h][k] == p;
      }
      if p < n {
        assert Placed(hosts, p);
        var h: nat :| OnHost(hosts, h, p);
      }
    }
    assert PesOf(hosts, |hosts.pes|) == Below(n);
  }

  /** Where a PE is listed, and what the filled map holds for it. */
  lemma Find(hosts: Hosts, me: string, places: seq<Place>, p: nat) returns (i: nat, j: nat)
    requires Partition(hosts, |places|) && p < |places| && Mapped(hosts, me, places, |hosts.pes|, 0)
    ensures i < |hosts.pes| && j < |hosts.pes[i]| && hosts.pes[i][j] == p
    ensures places[p] == PlaceOf(hosts, me, i, j)
  {
    assert Placed(hosts, p);
    i :| OnHost(hosts, i, p);
    j :| 0 <= j < |hosts.pes[i]| && hosts.pes[i][j] == p;
    assert MapsTo(hosts, me, places, i, j);
  }

  ghost predicate HasIndex(places: seq<Place>, kind: Kind, k: nat)
  {
    exists p :: 0 <= p < |places| && places[p].kind == kind && places[p].index == k
  }

  /** Number of PEs of a kind. */
  function Size(hosts: Hosts, n: nat, mine: nat, kind: Kind): int
    requires mine < |hosts.pes|
  {
    if kind.Local? then |hosts.pes[mine]| else n - |hosts.pes[mine]|
  }

  lemma PlaceInRange(hosts: Hosts, mine: nat, places: seq<Place>, p: nat)
    requires Filled(hosts, mine, places) && p < |places|
    ensures OnHost(hosts, places[p].host, p) && (places[p].kind.Local? <==> places[p].host == mine)
    ensures places[p].index < Size(hosts, |places|, mine, places[p].kind)
  {
    var i, j := Find(hosts, hosts.names[mine], places, p);
    RemoteCount(hosts, |places|, mine);
    RemotesGrow(hosts, hosts.names[mine], i, |hosts.pes|);
  }

  lemma IndicesDiffer(hosts: Hosts, mine: nat, places: seq<Place>, p: nat, q: nat)
    requires Filled(hosts, mine, places) && p < |places| && q < |places| && p != q && places[p].kind == places[q].kind
    ensures places[p].index != places[q].index
  {
    var me := hosts.names[mine];
    var i, j := Find(hosts, me, places, p);
    var h, k := Find(hosts, me, places, q);
    if i < h { RemotesGrow(hosts, me, i, h); }
    if h < i { RemotesGrow(hosts, me, h, i); }
  }

  lemma IndexTaken(hosts: Hosts, mine: nat, places: seq<Place>, kind: Kind, k: nat)
    requires Filled(hosts, mine, places) && k < Size(hosts, |places|, mine, kind)
    ensures HasIndex(places, kind, k)
  {
    var me := hosts.names[mine];
    var h, j := mine, k;
    if kind.Remote? {
      RemoteCount(hosts, |places|, mine);
      h, j := RemoteAt(hosts, me, |hosts.pes|, k);
    }
    assert MapsTo(hosts, me, places, h, j);
    assert places[hosts.pes[h][j]].kind == kind && places[hosts.pes[h][j]].index == k;
  }

  /** When the hosts partition the PEs, the filled map gives every PE its host, numbers the PEs
      of my host 0 .. n_local - 1 and all others 0 .. n_remote - 1, each number once. */
  lemma MapIsBijection(hosts: Hosts, mine: nat, places: seq<Place>)
    requires Filled(hosts, mine, places)
    ensures forall p: nat :: p < |places| ==>
              && OnHost(hosts, places[p].host, p) && (places[p].kind.Local? <==> places[p].host == mine)
              && places[p].index < Size(hosts, |places|, mine, places[p].kind)
    ensures forall p: nat, q: nat :: p < |places| && q < |places| && p != q && places[p].kind == places[q].kind ==>
              places[p].index != places[q].index
    ensures forall kind, k: nat :: k < Size(hosts, |places|, mine, kind) ==> HasIndex(places, kind, k)
  {
    forall p: nat | p < |places|
      ensures OnHost(hosts, places[p].host, p) && (places[p].kind.Local? <==> places[p].host == mine)
      ensures places[p].index < Size(hosts, |places|, mine, places[p].kind)
    {
      PlaceInRange(hosts, mine, places, p);
    }
    forall p: nat, q: nat | p < |places| && q < |places| && p != q && places[p].kind == places[q].kind
      ensures places[p].index != places[q].index
    {
      IndicesDiffer(hosts, mine, places, p, q);
    }
    forall kind, k: nat | k < Size(hosts, |places|, mine, kind) ensures HasIndex(places, kind, k) {
      IndexTaken(hosts, mine, places, kind, k);
    }
  }
}
