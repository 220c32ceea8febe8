/** The pool of re-usable plain buffers (lib/Framework/BufferPool.cpp). */
module BufferPools {
  import opened Values
  import opened Buffers
  import opened BufferQueue

  const DEFAULT_SIZE: nat := 8 * 1024

  /** A buffer made by BufferChunk(numBytes): the whole of its own plain slab. */
  predicate Allocation(m: ManagedBuffer, size: nat) {
    && m.id != 0
    && 0 < m.buffer.address && 0 < size
    && m.buffer == SharedBuffer(m.buffer.address, size, Slab(m.buffer.address, size, false))
  }

  /** Two allocations do not overlap or touch. */
  predicate Distinct(m: ManagedBuffer, n: ManagedBuffer) {
    m.id != n.id && m.buffer.slab != n.buffer.slab && Apart(m.buffer.slab, n.buffer.slab)
  }

  /** m is the first of the buffers that is not in use. */
  predicate FirstFree(buffs: seq<ManagedBuffer>, inUse: set<nat>, m: ManagedBuffer) {
    exists i :: 0 <= i < |buffs| && buffs[i] == m && m.id !in inUse && forall j :: 0 <= j < i ==> buffs[j].id in inUse
  }

  class BufferPool {
    var minBuffSize: nat
    var buffs: seq<ManagedBuffer>

    ghost predicate Valid()
      reads this
    {
      && 0 < minBuffSize
      && (forall i :: 0 <= i < |buffs| ==> Allocation(buffs[i], minBuffSize))
      && (forall i, j :: 0 <= i < j < |buffs| ==> Distinct(buffs[i], buffs[j]))
    }

    constructor ()
      ensures Valid() && buffs == [] && minBuffSize == DEFAULT_SIZE
    {
      minBuffSize := DEFAULT_SIZE;
      buffs := [];
    }

    method Clear()
      modifies this
      ensures Valid() && buffs == [] && minBuffSize == DEFAULT_SIZE
    {
      minBuffSize := DEFAULT_SIZE;
      buffs := [];
    }

    /**
      inUse holds the buffers that live chunks outside the pool refer to; spare is what the
      allocator would return. The buffer handed out is large enough, nobody else refers to it, and
      it is a new one only when every pooled buffer is in use.
     */
    method Get(numBytes: nat, inUse: set<nat>, spare: ManagedBuffer) returns (m: ManagedBuffer)
      requires Valid()
      requires Allocation(spare, if numBytes > minBuffSize then numBytes else minBuffSize)
      requires spare.id !in inUse
      requires forall i :: 0 <= i < |buffs| ==> Distinct(buffs[i], spare)
      modifies this
      ensures Valid()
      ensures m in buffs && m.id !in inUse && m.buffer.length >= numBytes
      ensures forall p :: p in buffs ==> p in old(buffs) || p == spare
      ensures numBytes <= old(minBuffSize) ==> old(buffs) <= buffs
      ensures m == spare || m in old(buffs)
      ensures m == spare && numBytes <= old(minBuffSize) ==>
        forall p :: p in old(buffs) ==> p.id in inUse
      ensures minBuffSize == if numBytes > old(minBuffSize) then numBytes else old(minBuffSize)
      ensures numBytes > old(minBuffSize) ==> buffs == [spare]
      ensures numBytes <= old(minBuffSize) && m == spare ==> buffs == old(buffs) + [spare]
      ensures numBytes <= old(minBuffSize) && m != spare ==> buffs == old(buffs) && FirstFree(buffs, inUse, m)
    {
      if numBytes > minBuffSize {
        buffs := [];
        minBuffSize := numBytes;
      }
      var i := 0;
      while i < |buffs|
        invariant 0 <= i <= |buffs|
        invariant forall j :: 0 <= j < i ==> buffs[j].id in inUse
      {
        if buffs[i].id !in inUse {
          return buffs[i];
        }
        i := i + 1;
      }
      buffs := buffs + [spare];
      m := spare;
    }
  }
}
