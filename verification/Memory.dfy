/** Writing bytes into a symmetric heap (memcpy in src/comm/comm_local.c). */
module Memory {

  /** memcpy of bytes to an offset. */
  function Memcpy<T>(heap: seq<T>, offset: nat, bytes: seq<T>): seq<T>
    requires offset + |bytes| <= |heap|
  {
    heap[..offset] + bytes + heap[offset + |bytes|..]
  }

  /** Exactly the bytes of the range change. */
  lemma MemcpyExactly<T>(heap: seq<T>, offset: nat, bytes: seq<T>)
    requires offset + |bytes| <= |heap|
    ensures |Memcpy(heap, offset, bytes)| == |heap|
    ensures forall i :: 0 <= i < |heap| ==>
              Memcpy(heap, offset, bytes)[i] == if offset <= i < offset + |bytes| then bytes[i - offset] else heap[i]
  {}
}
