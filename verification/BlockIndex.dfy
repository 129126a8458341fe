/** The index of the heap: a chained hash table from the address of a block to the block in
    front of it. The table stores no keys; it reads them through value.next.ptr
    (src/memory/hashmap.c). */
module BlockIndex {

  class BlockNode {
    var ptr: nat
    var size: nat
    var next: BlockNode?

    constructor (ptr: nat, size: nat, next: BlockNode?)
      ensures this.ptr == ptr && this.size == size && this.next == next
    {
      this.ptr, this.size, this.next := ptr, size, next;
    }
  }

  /** A chain node. The ghost key is the address it was entered for. */
  class Entry {
    var value: BlockNode
    var next: Entry?
    ghost const key: nat

    constructor (value: BlockNode, next: Entry?, ghost key: nat)
      ensures this.value == value && this.next == next && this.key == key
    {
      this.value, this.next := value, next;
      this.key := key;
    }
  }

  /** The chain nodes hang together by their next pointers, starting at `first`. */
  ghost predicate Linked(chain: seq<Entry>, first: Entry?)
    reads chain`next
  {
    && first == (if chain == [] then null else chain[0])
    && (forall i {:trigger chain[i].next} :: 0 <= i < |chain| - 1 ==> chain[i].next == chain[i + 1])
    && (chain != [] ==> chain[|chain| - 1].next == null)
  }

  /** A chain holds entries of its own bucket, each once. */
  ghost predicate Members(bucketOf: nat -> nat, chain: seq<Entry>, entries: set<Entry>, b: nat)
  {
    && (forall e :: e in chain ==> e in entries && bucketOf(e.key) == b)
    && (forall i, j :: 0 <= i < j < |chain| ==> chain[i] != chain[j])
  }

  /** Every key has exactly one entry, and that entry is in the bucket of the key. */
  ghost predicate Indexed(n: nat, bucketOf: nat -> nat, chains: seq<seq<Entry>>, at: map<nat, Entry>,
                          entries: set<Entry>)
  {
    && |chains| == n
    && (forall k :: bucketOf(k) < n)
    && (forall b :: 0 <= b < n ==> Members(bucketOf, chains[b], entries, b))
    && (forall e :: e in entries ==> e.key in at && at[e.key] == e)
    && (forall k :: k in at ==> at[k] in entries && at[k].key == k && at[k] in chains[bucketOf(k)])
  }

  lemma EntryAdded(n: nat, bucketOf: nat -> nat, chains: seq<seq<Entry>>, at: map<nat, Entry>, entries: set<Entry>,
                   node: Entry)
    requires Indexed(n, bucketOf, chains, at, entries) && node !in entries && node.key !in at
    ensures var b := bucketOf(node.key);
            Indexed(n, bucketOf, chains[b := [node] + chains[b]], at[node.key := node], entries + {node})
  {
    var index := bucketOf(node.key);
    var chains' := chains[index := [node] + chains[index]];
    forall b | 0 <= b < n ensures Members(bucketOf, chains'[b], entries + {node}, b) {
      assert Members(bucketOf, chains[b], entries, b);
    }
  }

  lemma EntryRemoved(n: nat, bucketOf: nat -> nat, chains: seq<seq<Entry>>, at: map<nat, Entry>, entries: set<Entry>,
                     index: nat, i: nat)
    requires Indexed(n, bucketOf, chains, at, entries) && index < n && i < |chains[index]|
    ensures var node := chains[index][i];
            Indexed(n, bucketOf, chains[index := Skip(chains[index], i)], at - {node.key}, entries - {node})
  {
    var node := chains[index][i];
    assert Members(bucketOf, chains[index], entries, index) && node in chains[index];
    Skipped(chains[index], i);
    var chains' := chains[index := Skip(chains[index], i)];
    forall b | 0 <= b < n ensures Members(bucketOf, chains'[b], entries - {node}, b) {
      assert Members(bucketOf, chains[b], entries, b);
    }
  }

  ghost function Skip<T>(chain: seq<T>, i: nat): seq<T>
    requires i < |chain|
  {
    chain[..i] + chain[i + 1..]
  }

  lemma Skipped(chain: seq<Entry>, i: nat)
    requires i < |chain| && forall j, k :: 0 <= j < k < |chain| ==> chain[j] != chain[k]
    ensures forall e :: e in Skip(chain, i) <==> e in chain && e != chain[i]
    ensures forall j, k :: 0 <= j < k < |Skip(chain, i)| ==> Skip(chain, i)[j] != Skip(chain, i)[k]
  {
    forall e | e in chain && e != chain[i] ensures e in Skip(chain, i) {
      var k :| 0 <= k < |chain| && chain[k] == e;
      assert Skip(chain, i)[if k < i then k else k - 1] == e;
    }
  }

  /** A new first node. */
  lemma Prepended(node: Entry, chain: seq<Entry>)
    requires Linked(chain, node.next)
    ensures Linked([node] + chain, node)
  {
    var longer := [node] + chain;
    forall i {:trigger longer[i].next} | 0 <= i < |longer| - 1 ensures longer[i].next == longer[i + 1] {
      if i > 0 { assert longer[i] == chain[i - 1] && chain[i - 1].next == chain[i]; }
    }
  }

  /** Skipping the i-th node leaves a linked chain. */
  lemma Bridged(chain: seq<Entry>, i: nat, first: Entry?)
    requires i < |chain|
    requires forall k {:trigger chain[k].next} :: 0 <= k < |chain| - 1 && k != i - 1 ==> chain[k].next == chain[k + 1]
    requires chain[|chain| - 1].next == null || i == |chain| - 1
    requires i > 0 ==> chain[i - 1].next == if i + 1 < |chain| then chain[i + 1] else null
    requires first == if i > 0 then chain[0] else if |chain| > 1 then chain[1] else null
    ensures Linked(Skip(chain, i), first)
  {
    var rest := Skip(chain, i);
    forall k {:trigger rest[k].next} | 0 <= k < |rest| - 1 ensures rest[k].next == rest[k + 1] {
      if k < i - 1 { assert chain[k].next == chain[k + 1]; }
      if k > i - 1 { assert chain[k + 1].next == chain[k + 2]; }
    }
  }

  /** The key the code derives from each value is the key it was entered for. */
  ghost predicate Keyed(view: map<nat, BlockNode>)
    reads view.Values, set k | k in view && view[k].next != null :: view[k].next
  {
    forall k :: k in view ==> view[k].next != null && view[k].next.ptr == k
  }

  /** The hash table. The ghost fields say which entries each bucket chains, which entry
      stands for each address, and the map the table represents. */
  class HashMap {
    const nBuckets: nat
    const buckets: array<Entry?>
    ghost var chains: seq<seq<Entry>>
    ghost var at: map<nat, Entry>
    ghost var entries: set<Entry>
    ghost var view: map<nat, BlockNode>

    /** The hash of an address. */
    const bucketOf: nat -> nat

    ghost predicate Valid()
      reads this, buckets, entries
    {
      && buckets.Length == nBuckets && Indexed(nBuckets, bucketOf, chains, at, entries)
      && (forall b :: 0 <= b < nBuckets ==> Members(bucketOf, chains[b], entries, b) && Linked(chains[b], buckets[b]))
      && view.Keys == at.Keys && (forall e :: e in entries ==> e.value == view[e.key])
    }

    constructor (n: nat)
      requires n > 0
      ensures Valid() && fresh(buckets) && nBuckets == n && entries == {} && view == map[]
      ensures forall k: nat :: bucketOf(k) == k % n
    {
      nBuckets := n;
      bucketOf := k => k % n;
      buckets := new Entry?[n](_ => null);
      chains := seq(n, _ => []);
      at, entries, view := map[], {}, map[];
    }

    /** The walk along the bucket of a key that lookup, update and removal share: the node whose
        derived key matches, and the node in front of it (null for the bucket slot itself). */
    method Locate(key: nat) returns (before: Entry?, node: Entry?, ghost i: nat)
      requires Valid() && Keyed(view)
      ensures key in view ==>
                && node != null && node in entries && node.key == key && i < |chains[bucketOf(key)]|
                  && node == chains[bucketOf(key)][i]
                && before == if i == 0 then null else chains[bucketOf(key)][i - 1]
      ensures key !in view ==> node == null
    {
      ghost var chain := chains[bucketOf(key)];
      assert Members(bucketOf, chain, entries, bucketOf(key)) && Linked(chain, buckets[bucketOf(key)]);
      before, node, i := null, buckets[bucketOf(key)], 0;
      while node != null
        invariant 0 <= i <= |chain|
        invariant node == if i < |chain| then chain[i] else null
        invariant before == if i == 0 then null else chain[i - 1]
        invariant forall k :: 0 <= k < i ==> chain[k].key != key
        decreases |chain| - i
      {
        assert Members(bucketOf, chain, entries, bucketOf(key)) && chain[i] in chain
               && Linked(chain, buckets[bucketOf(key)]);
        assert node.key in view && node.value == view[node.key];
        if key == node.value.next.ptr {
          return;
        }
        before, node, i := node, node.next, i + 1;
      }
    }

    /** The value stored for a key. */
    method Get(key: nat) returns (value: BlockNode?)
      requires Valid() && Keyed(view)
      ensures value == if key in view then view[key] else null
    {
      ghost var i: nat;
      var before, node;
      before, node, i := Locate(key);
      value := if node == null then null else node.value;
    }

    /** Re-point the entry of a key, or enter the key at the front of its bucket. */
    method Set(key: nat, value: BlockNode)
      requires Valid() && Keyed(view)
      modifies this, buckets, entries
      ensures Valid()
      ensures view == old(view)[key := value]
      ensures fresh(entries - old(entries))
    {
      hide *;
      ghost var i: nat;
      var before, node;
      before, node, i := Locate(key);
      if node == null {
        Prepend(key, value);
      } else {
        Repoint(node, value);
      }
    }

    method Repoint(node: Entry, value: BlockNode)
      requires Valid() && node in entries
      modifies node, `view
      ensures Valid()
      ensures view == old(view)[node.key := value]
    {
      hide Members, Linked;
      node.value := value;
      view := view[node.key := value];
    }

    method Prepend(key: nat, value: BlockNode)
      requires Valid() && key !in view
      modifies this, buckets
      ensures Valid()
      ensures view == old(view)[key := value] && fresh(entries - old(entries))
    {
      hide Linked, Members;
      var index := bucketOf(key);
      ghost var chain := chains[index];
      assert Linked(chain, buckets[index]);
      var node := new Entry(value, buckets[index], key);
      buckets[index] := node;
      Prepended(node, chain);
      EntryAdded(nBuckets, bucketOf, chains, at, entries, node);
      ghost var longer := chains[index := [node] + chain];
      forall b | 0 <= b < nBuckets ensures Linked(longer[b], buckets[b]) {
        assert b != index ==> old(Linked(chains[b], buckets[b]));
      }
      Become(longer, at[key := node], entries + {node}, view[key := value]);
    }

    /** Unlink the entry of a key and return what it held. */
    method Remove(key: nat) returns (value: BlockNode?)
      requires Valid() && Keyed(view)
      modifies this, buckets, entries
      ensures Valid()
      ensures value == if key in old(view) then old(view)[key] else null
      ensures view == old(view) - {key} && entries <= old(entries)
    {
      ghost var i: nat;
      var before, node;
      before, node, i := Locate(key);
      if node == null {
        return null;
      }
      value := node.value;
      Unlink(bucketOf(key), before, node, i);
    }

    /** *node = (*node)->next, where `before` owns the pointer to the i-th node of a bucket. */
    method Redirect(index: nat, before: Entry?, node: Entry, ghost i: nat)
      requires Valid() && index < nBuckets
      requires i < |chains[index]| && node == chains[index][i]
      requires before == if i == 0 then null else chains[index][i - 1]
      modifies buckets, entries
      ensures forall b :: 0 <= b < nBuckets && b != index ==> Linked(chains[b], buckets[b])
      ensures Linked(Skip(chains[index], i), buckets[index])
      ensures forall e :: e in entries ==> e.value == old(e.value)
    {
      ghost var chain := chains[index];
      assert Members(bucketOf, chain, entries, index) && Linked(chain, buckets[index]);
      if before == null {
        buckets[index] := node.next;
      } else {
        before.next := node.next;
      }
      Bridged(chain, i, buckets[index]);
      forall b | 0 <= b < nBuckets && b != index ensures Linked(chains[b], buckets[b]) {
        assert Members(bucketOf, chains[b], entries, b) && old(Linked(chains[b], buckets[b]));
        assert before == null || before !in chains[b];
      }
    }

    /** Unlink a node and forget its key. */
    method Unlink(index: nat, before: Entry?, node: Entry, ghost i: nat)
      requires Valid() && index < nBuckets
      requires i < |chains[index]| && node == chains[index][i]
      requires before == if i == 0 then null else chains[index][i - 1]
      modifies this, buckets, entries
      ensures Valid()
      ensures view == old(view) - {node.key} && entries == old(entries) - {node}
    {
      assert Members(bucketOf, chains[index], entries, index);
      Redirect(index, before, node, i);
      EntryRemoved(nBuckets, bucketOf, chains, at, entries, index, i);
      ghost var rest := chains[index := Skip(chains[index], i)];
      assert forall b :: 0 <= b < nBuckets ==> Linked(rest[b], buckets[b]);
      Become(rest, at - {node.key}, entries - {node}, view - {node.key});
    }

    ghost method Become(chains': seq<seq<Entry>>, at': map<nat, Entry>, entries': set<Entry>,
                        view': map<nat, BlockNode>)
      requires buckets.Length == nBuckets && Indexed(nBuckets, bucketOf, chains', at', entries')
      requires forall b :: 0 <= b < nBuckets ==> Linked(chains'[b], buckets[b])
      requires view'.Keys == at'.Keys && forall e :: e in entries' ==> e.value == view'[e.key]
      modifies this
      ensures Valid()
      ensures chains == chains' && at == at' && entries == entries' && view == view'
    {
      chains, at, entries, view := chains', at', entries', view';
    }
  }
}
