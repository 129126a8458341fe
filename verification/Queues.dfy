/** The linked queue that both threads use: packets to send (src/comm/comm_remote.c:73-106) and
    jobs to run (src/job/work.c:32-63). Each call runs under the queue's lock. */
module Queues {
  import opened Wrappers

  class Node<T> {
    const item: T
    var next: Node?<T>

    constructor (item: T)
      ensures this.item == item && next == null
    {
      this.item, next := item, null;
    }
  }

  /** The queue; after the last item is taken the tail pointer is stale, and never read. */
  class Queue<T> {
    var head: Node?<T>
    var tail: Node?<T>
    ghost var nodes: seq<Node<T>>
    ghost var items: seq<T>

    ghost predicate Valid()
      reads this, nodes
    {
      && |items| == |nodes|
      && (forall i, j :: 0 <= i < j < |nodes| ==> nodes[i] != nodes[j])
      && (forall i :: 0 <= i < |nodes| ==> nodes[i].item == items[i])
      && (forall i {:trigger nodes[i].next} :: 0 <= i < |nodes| - 1 ==> nodes[i].next == nodes[i + 1])
      && (nodes == [] ==> head == null)
      && (nodes != [] ==> head == nodes[0] && tail == nodes[|nodes| - 1] && nodes[|nodes| - 1].next == null)
    }

    constructor ()
      ensures Valid() && items == [] && nodes == []
    {
      head, tail := null, null;
      nodes, items := [], [];
    }

    /** Append at the tail. */
    method Enqueue(item: T)
      requires Valid()
      modifies this, nodes
      ensures Valid() && items == old(items) + [item]
      ensures |nodes| > 0 && fresh(nodes[|nodes| - 1]) && nodes[..|nodes| - 1] == old(nodes)
    {
      var node := new Node(item);
      if head == null {
        head := node;
      } else {
        tail.next := node;
      }
      tail := node;
      nodes, items := nodes + [node], items + [item];
    }

    /** Take the first item, if there is one. */
    method Dequeue() returns (r: Option<T>)
      requires Valid()
      modifies this
      ensures Valid()
      ensures old(items) == [] ==> r == None && items == [] && nodes == old(nodes)
      ensures old(items) != [] ==> r == Some(old(items)[0]) && items == old(items)[1..] && nodes == old(nodes)[1..]
    {
      if head == null {
        return None;
      }
      r := Some(head.item);
      assert |nodes| > 1 ==> nodes[0].next == nodes[1];
      head := head.next;
      nodes, items := nodes[1..], items[1..];
    }
  }
}
