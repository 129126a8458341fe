/** The two ways a put reaches memory: memcpy into the mapped heap of a PE on the same host
    (src/comm/comm_local.c:117-127), or a packet that the target turns into a job and its worker
    into a memcpy (src/comm/comm_remote.c:108-132, src/job/work.c:70-93, 157-174). */
module PutPath {
  import opened Memory
  import opened Framing
  import opened Locality
  import opened Queues
  import opened SendThread

  datatype Job = Job(handler: int, origin: int, dest: int, data: seq<Byte>)

  /** work_put_remote: the job a received packet becomes. */
  function JobOf(p: Packet): Job
  {
    Job(p.handler, p.origin, p.heapOffset, p.data)
  }

  /** The k-th job has the handler, origin, offset and data of the k-th packet. */
  function JobsOf(packets: seq<Packet>): (r: seq<Job>)
    ensures |r| == |packets|
    ensures forall k :: 0 <= k < |r| ==>
              && r[k].handler == packets[k].handler && r[k].origin == packets[k].origin
              && r[k].dest == packets[k].heapOffset && r[k].data == packets[k].data
  {
    if packets == [] then [] else JobsOf(packets[..|packets| - 1]) + [JobOf(packets[|packets| - 1])]
  }

  lemma JobsOneMore(packets: seq<Packet>, next: Packet)
    ensures JobsOf([]) == [] && JobsOf(packets + [next]) == JobsOf(packets) + [JobOf(next)]
  {
    assert (packets + [next])[..|packets|] == packets;
  }

  predicate InBounds(size: nat, job: Job)
  {
    job.handler == HANDLER_PUT ==> 0 <= job.dest && job.dest + |job.data| <= size
  }

  ghost predicate AllInBounds(size: nat, jobs: seq<Job>)
  {
    forall k :: 0 <= k < |jobs| ==> InBounds(size, jobs[k])
  }

  /** What a job does to memory: a put writes its data, anything else does nothing. */
  function Apply(heap: seq<Byte>, job: Job): (r: seq<Byte>)
    requires InBounds(|heap|, job)
    ensures |r| == |heap|
    ensures forall x :: 0 <= x < |heap| ==>
              r[x] == if job.handler == 0 && job.dest <= x < job.dest + |job.data|
                      then job.data[x - job.dest]
                      else heap[x]
  {
    if job.handler == HANDLER_PUT then Memcpy(heap, job.dest, job.data) else heap
  }

  ghost function ApplyAll(heap: seq<Byte>, jobs: seq<Job>): (r: seq<Byte>)
    requires AllInBounds(|heap|, jobs)
    ensures |r| == |heap|
  {
    if jobs == [] then heap else Apply(ApplyAll(heap, jobs[..|jobs| - 1]), jobs[|jobs| - 1])
  }

  /** A target PE: the queue of its worker and its symmetric heap. */
  class Target {
    const queue: Queue<Job>
    const heap: array<Byte>

    constructor (size: nat)
      ensures queue.Valid() && queue.items == [] && heap.Length == size && heap[..] == seq(size, _ => 0)
      ensures fresh(queue) && fresh(heap) && queue.nodes == []
    {
      queue := new Queue<Job>();
      heap := new Byte[size](_ => 0);
    }

    /** The receive loop on one socket: every packet becomes a job. */
    method Receive(stream: seq<Byte>) returns (rest: seq<Byte>)
      requires queue.Valid()
      modifies queue, queue.nodes
      ensures queue.Valid() && queue.items == old(queue.items) + JobsOf(ParseAll(stream).0)
      ensures rest == ParseAll(stream).1
    {
      var packets;
      packets, rest := ReadPackets(stream);
      Enter(packets);
    }

    method Enter(packets: seq<Packet>)
      requires queue.Valid()
      modifies queue, queue.nodes
      ensures queue.Valid() && queue.items == old(queue.items) + JobsOf(packets)
      ensures |queue.nodes| >= |old(queue.nodes)| && queue.nodes[..|old(queue.nodes)|] == old(queue.nodes)
      ensures forall k :: |old(queue.nodes)| <= k < |queue.nodes| ==> fresh(queue.nodes[k])
    {
      hide *;
      JobsOneMore([], Packet(0, 0, 0, 0, []));
      for k := 0 to |packets|
        invariant queue.Valid() && queue.items == old(queue.items) + JobsOf(packets[..k])
        invariant |queue.nodes| >= |old(queue.nodes)| && queue.nodes[..|old(queue.nodes)|] == old(queue.nodes)
        invariant forall n :: |old(queue.nodes)| <= n < |queue.nodes| ==> fresh(queue.nodes[n])
      {
        JobsOneMore(packets[..k], packets[k]);
        assert packets[..k + 1] == packets[..k] + [packets[k]];
        assert forall n :: 0 <= n < |queue.nodes| ==> queue.nodes[n] in old(queue.nodes) || fresh(queue.nodes[n]);
        queue.Enqueue(JobOf(packets[k]));
      }
      assert packets[..|packets|] == packets;
    }

    /** The worker: comm_put on this PE for a put, nothing for a get. */
    method Execute(job: Job)
      requires InBounds(heap.Length, job)
      modifies heap
      ensures heap[..] == Apply(old(heap[..]), job)
    {
      if job.handler == HANDLER_PUT {
        forall k | 0 <= k < |job.data| {
          heap[job.dest + k] := job.data[k];
        }
      }
    }

    method RunFirst()
      requires queue.Valid() && queue.items != [] && InBounds(heap.Length, queue.items[0])
      modifies queue, heap
      ensures queue.Valid() && queue.items == old(queue.items)[1..]
      ensures heap[..] == Apply(old(heap[..]), old(queue.items)[0])
    {
      var job := queue.Dequeue();
      Execute(job.value);
    }

    /** The worker loop, until its queue is empty. */
    method Run()
      requires queue.Valid() && AllInBounds(heap.Length, queue.items)
      modifies queue, heap
      ensures queue.Valid() && queue.items == []
      ensures heap[..] == ApplyAll(old(heap[..]), old(queue.items))
    {
      ghost var done: nat := 0;
      ghost var jobs := queue.items;
      while queue.head != null
        invariant queue.Valid() && done <= |jobs| && queue.items == jobs[done..]
        invariant AllInBounds(heap.Length, jobs[..done]) && heap[..] == ApplyAll(old(heap[..]), jobs[..done])
        decreases |queue.items|
      {
        assert jobs[..done + 1] == jobs[..done] + [jobs[done]];
        ApplyMore(old(heap[..]), jobs[..done], jobs[done]);
        RunFirst();
        done := done + 1;
      }
      assert jobs[..done] == jobs;
    }
  }

  lemma ApplyMore(heap: seq<Byte>, done: seq<Job>, job: Job)
    requires AllInBounds(|heap|, done) && InBounds(|heap|, job)
    ensures AllInBounds(|heap|, done + [job])
    ensures ApplyAll(heap, done + [job]) == Apply(ApplyAll(heap, done), job)
  {
    assert (done + [job])[..|done|] == done;
  }

  // ---- The two paths have the same effect ----

  predicate PutFits(size: nat, p: Packet)
  {
    p.handler == HANDLER_PUT && 0 <= p.heapOffset && p.heapOffset + |p.data| <= size
  }

  /** Puts one after the other by memcpy into the mapped heap, as on one host. */
  ghost function LocalPuts(heap: seq<Byte>, puts: seq<Packet>): (r: seq<Byte>)
    requires forall k :: 0 <= k < |puts| ==> PutFits(|heap|, puts[k])
    ensures |r| == |heap|
  {
    if puts == [] then heap
    else
      var last := puts[|puts| - 1];
      assert PutFits(|heap|, puts[|puts| - 1]);
      Memcpy(LocalPuts(heap, puts[..|puts| - 1]), last.heapOffset, last.data)
  }

  lemma {:induction false} StampedPuts(heap: seq<Byte>, puts: seq<Packet>)
    requires forall k :: 0 <= k < |puts| ==> PutFits(|heap|, puts[k])
    ensures AllInBounds(|heap|, JobsOf(Numbered(puts)))
    ensures ApplyAll(heap, JobsOf(Numbered(puts))) == LocalPuts(heap, puts)
  {
    if puts != [] {
      var init, last := puts[..|puts| - 1], puts[|puts| - 1];
      StampedPuts(heap, init);
      assert Numbered(puts)[..|init|] == Numbered(init);
      assert JobsOf(Numbered(puts)) == JobsOf(Numbered(init)) + [JobOf(Stamped(last, |puts|))];
      ApplyMore(heap, JobsOf(Numbered(init)), JobOf(Stamped(last, |puts|)));
    }
  }

  lemma ForFits(size: nat, sent: seq<Queued>, b: nat)
    requires forall i :: 0 <= i < |sent| && sent[i].pe == b ==> PutFits(size, sent[i].packet)
    ensures forall k :: 0 <= k < |For(sent, b)| ==> PutFits(size, For(sent, b)[k])
  {
    var at := ForPositions(sent, b);
    hide For, PutFits;
  }

  /** The bytes a sender wrote to the socket of PE b, read back as packets, queued as jobs and run
      by the worker, leave b's heap as memcpy of the puts for b in the same order would. */
  lemma SocketPathIsMemcpy(hosts: Hosts, mine: nat, places: seq<Place>, nRemote: nat, sent: seq<Queued>, b: nat,
                           requests: int, socket: seq<Byte>, heap: seq<Byte>)
    requires Filled(hosts, mine, places) && AllAddressable(places, nRemote, sent) && Addressable(places, nRemote, b)
    requires Carries(places, sent, places[b].index, requests, socket) && AllSendable(sent, b)
    requires forall i :: 0 <= i < |sent| && sent[i].pe == b ==> PutFits(|heap|, sent[i].packet)
    ensures AllInBounds(|heap|, JobsOf(ParseAll(socket).0))
    ensures forall k :: 0 <= k < |For(sent, b)| ==> PutFits(|heap|, For(sent, b)[k])
    ensures ApplyAll(heap, JobsOf(ParseAll(socket).0)) == LocalPuts(heap, For(sent, b))
  {
    ForFits(|heap|, sent, b);
    hide *;
    var at := PeerReadsBack(hosts, mine, places, nRemote, sent, b, requests, socket);
    StampedPuts(heap, For(sent, b));
  }
}
