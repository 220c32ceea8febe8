/**
  The pool's search for a buffer that it holds alone (lib/Framework/BufferPool.cpp), with the reference
  counts that unique() reads: what the pool hands out, no other live object refers to.
 */
module PoolUse {
  import opened Buffers
  import opened BufferPools
  import opened RefCounts

  /** Slot own[i] is the pool's own reference to its buffer i. */
  ghost predicate HoldsPool(heap: Heap, slots: seq<Slot>, buffs: seq<ManagedBuffer>, own: seq<nat>) {
    |own| == |buffs| && forall i :: 0 <= i < |own| ==>
      own[i] < |slots| && SlotHolds(heap, slots[own[i]], buffs[i].id) == 1
  }

  /** No live object but the one in slot k refers to b. */
  ghost predicate OnlySlot(heap: Heap, slots: seq<Slot>, k: nat, b: Id) {
    forall j :: 0 <= j < |slots| && j != k ==> SlotHolds(heap, slots[j], b) == 0
  }

  /** The pooled buffers whose count is not one are exactly those that another live object refers to. */
  lemma SharedAreInUse(heap: Heap, slots: seq<Slot>, counter: Counters, buffs: seq<ManagedBuffer>, own: seq<nat>,
      i: nat)
    requires Conserved(heap, slots, counter) && HoldsPool(heap, slots, buffs, own) && i < |buffs|
    ensures counter(buffs[i].id) == 1 <==> OnlySlot(heap, slots, own[i], buffs[i].id)
  {
    UniqueIsAlone(heap, slots, counter, own[i], buffs[i].id);
  }

  /** BufferPool::get: a buffer that is large enough and that only the pool refers to, or a new one. */
  method GetUnique(pool: BufferPool, objects: Objects, ghost own: seq<nat>, numBytes: nat, spare: ManagedBuffer)
    returns (m: ManagedBuffer)
    requires pool.Valid() && objects.Valid() && HoldsPool(objects.heap, objects.slots, pool.buffs, own)
    requires Allocation(spare, if numBytes > pool.minBuffSize then numBytes else pool.minBuffSize)
    requires Holds(objects.heap, objects.slots, spare.id) == 0
    requires forall i :: 0 <= i < |pool.buffs| ==> Distinct(pool.buffs[i], spare)
    modifies pool
    ensures pool.Valid() && m in pool.buffs && m.buffer.length >= numBytes
    ensures
      || m == spare
      || exists i :: 0 <= i < |own| && m == old(pool.buffs)[i] && OnlySlot(objects.heap, objects.slots, own[i], m.id)
    ensures m == spare && numBytes <= old(pool.minBuffSize) ==>
      forall i :: 0 <= i < |own| ==> !OnlySlot(objects.heap, objects.slots, own[i], old(pool.buffs)[i].id)
  {
    ghost var buffs := pool.buffs;
    var inUse := set i | 0 <= i < |pool.buffs| && objects.counter(pool.buffs[i].id) != 1 :: pool.buffs[i].id;
    forall i | 0 <= i < |buffs| ensures buffs[i].id in inUse <==>
      !OnlySlot(objects.heap, objects.slots, own[i], buffs[i].id) {
      SharedAreInUse(objects.heap, objects.slots, objects.counter, buffs, own, i);
    }
    hide OnlySlot, HoldsPool, Holds;
    m := pool.Get(numBytes, inUse, spare);
  }
}
