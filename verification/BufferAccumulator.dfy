/**
  The zero-copy accumulator (lib/Framework/BufferAccumulator.cpp): a queue of windows that behaves
  as a byte FIFO.
 */
module Accumulator {
  import opened Values
  import opened Buffers
  import opened BufferQueue
  import opened QueueMerging
  import opened BufferPools

  /** The queue without the placeholder that stands for "empty". */
  function Live(q: seq<Chunk>): seq<Chunk> {
    if q == [NULL_CHUNK] then [] else q
  }

  predicate PoolApart(p: ManagedBuffer, c: Chunk) {
    && Apart(p.buffer.slab, c.Slab())
    && (p.buffer.slab == c.Slab() ==> p.id == c.mb.id)
  }

  predicate PoolsApart(buffs: seq<ManagedBuffer>, q: seq<Chunk>) {
    forall i, j :: 0 <= i < |buffs| && 0 <= j < |q| ==> PoolApart(buffs[i], q[j])
  }

  /** The buffers of q are those of k, or b's, or further buffers of b's slab. */
  predicate BuffersFrom(q: seq<Chunk>, k: seq<Chunk>, b: Chunk) {
    forall i :: 0 <= i < |q| ==>
      || (i < |k| && q[i].mb == k[i].mb)
      || q[i].mb == b.mb
      || (b.nexts > 0 && q[i].Slab() == b.Slab())
  }

  lemma StillFrom(q: seq<Chunk>, q': seq<Chunk>, k: seq<Chunk>, b: Chunk)
    requires BuffersFrom(q, k, b) && q <= q' && |q'| == |q| + b.nexts
    requires forall i :: |q| <= i < |q'| ==> q'[i].Slab() == b.Slab()
    ensures BuffersFrom(q', k, b)
  {
  }

  lemma PoolsApartFrom(buffs: seq<ManagedBuffer>, q: seq<Chunk>, k: seq<Chunk>, b: Chunk)
    requires BuffersFrom(q, k, b) && PoolsApart(buffs, k) && PoolAdmits(buffs, b)
    ensures PoolsApart(buffs, q)
  {
    forall i, j | 0 <= i < |buffs| && 0 <= j < |q| ensures PoolApart(buffs[i], q[j]) {
    }
  }

  /** The buffers of q are those of the last windows of k. */
  predicate BuffersAmong(q: seq<Chunk>, k: seq<Chunk>) {
    |q| <= |k| && forall i :: 0 <= i < |q| ==> q[i].mb == k[|k| - |q| + i].mb
  }

  lemma PoolsApartAmong(buffs: seq<ManagedBuffer>, q: seq<Chunk>, k: seq<Chunk>)
    requires BuffersAmong(q, k) && PoolsApart(buffs, k)
    ensures PoolsApart(buffs, q)
  {
  }

  /** b is apart from the pool, or is a plain copy of a pool buffer. */
  predicate PoolAdmits(buffs: seq<ManagedBuffer>, b: Chunk) {
    forall i :: 0 <= i < |buffs| ==>
      PoolApart(buffs[i], b) && (buffs[i].buffer.slab == b.Slab() ==> b.nexts == 0)
  }

  /** The chain of contiguous next buffers that an amalgamated chunk covers. */
  predicate ChainOk(next: map<nat, ManagedBuffer>, mb: ManagedBuffer, n: nat)
    decreases n
  {
    n > 0 ==>
      && mb.id in next
      && var m := next[mb.id];
      && m.id != 0 && BufferOk(m.buffer)
      && m.buffer.slab == mb.buffer.slab && m.buffer.address <= mb.buffer.End()
      && ChainOk(next, m, n - 1)
  }

  /** Windows tail are empty, at the base of one next buffer after the other behind last. */
  predicate NextsFollow(next: map<nat, ManagedBuffer>, last: ManagedBuffer, tail: seq<Chunk>) {
    forall i :: 0 <= i < |tail| ==> IsNext(next, Before(last, tail, i), tail[i])
  }

  function Before(last: ManagedBuffer, tail: seq<Chunk>, i: nat): ManagedBuffer
    requires i <= |tail|
  {
    if i == 0 then last else tail[i - 1].mb
  }

  predicate IsNext(next: map<nat, ManagedBuffer>, mb: ManagedBuffer, c: Chunk) {
    mb.id in next && c == Chunk(next[mb.id].buffer.address, 0, next[mb.id], 0)
  }

  /**
    What becomes of the windows all, the last one just pushed: those at the back that follow on each
    other are one window, a last window of the buffer before it is gone if it is spent, and its next
    buffers come behind.
   */
  predicate AfterPush(all: seq<Chunk>, next: map<nat, ManagedBuffer>, q: seq<Chunk>)
    requires all != []
  {
    var b, n := all[|all| - 1], if LastGoes(all) then |all| - 1 else |all|;
    |q| == n + b.nexts && RunMerged(all, q, RunStart(all)) && NextsFollow(next, b.mb, q[n..])
  }

  lemma NextsBehind(all: seq<Chunk>, next: map<nat, ManagedBuffer>, q: seq<Chunk>, q': seq<Chunk>)
    requires all != [] && |q| == (if LastGoes(all) then |all| - 1 else |all|) && RunMerged(all, q, RunStart(all))
    requires var b := all[|all| - 1];
      q <= q' && |q'| == |q| + b.nexts && NextsFollow(next, b.mb, q'[|q|..])
    ensures AfterPush(all, next, q')
  {
    hide LastGoes, RunStart, Total;
    forall i | RunStart(all) < i < |q'| ensures q'[i].length == 0 {
      if i >= |q| {
        assert q'[|q|..][i - |q|] == q'[i];
      } else {
        assert q'[i] == q[i];
      }
    }
  }

  lemma AllInFront(all: seq<Chunk>, next: map<nat, ManagedBuffer>, q: seq<Chunk>)
    requires all != [] && AfterPush(all, next, q)
    ensures AllFollow(all) ==> q[0].length == Total(all)
  {
    assert all[0..] == all;
  }

  lemma OneMoreNext(next: map<nat, ManagedBuffer>, last: ManagedBuffer, tail: seq<Chunk>, c: Chunk)
    requires NextsFollow(next, last, tail) && IsNext(next, Before(last, tail, |tail|), c)
    ensures NextsFollow(next, last, tail + [c])
  {
    var more := tail + [c];
    forall i | 0 <= i < |more| ensures IsNext(next, Before(last, more, i), more[i]) {
      assert Before(last, more, i) == Before(last, tail, i);
    }
  }

  lemma NoNexts(next: map<nat, ManagedBuffer>, last: ManagedBuffer)
    ensures NextsFollow(next, last, [])
  {
  }

  /** The next buffer in the chain can be put back as an empty window. */
  lemma NextOk(mem: Mem, q: seq<Chunk>, next: map<nat, ManagedBuffer>, mb: ManagedBuffer, n: nat)
    requires n > 0 && ChainOk(next, mb, n) && q != [] && QueueOk(mem, q) && q[|q| - 1].mb == mb && BufferOk(mb.buffer)
    ensures mb.id in next
    ensures var m := next[mb.id];
      && ChainOk(next, m, n - 1) && m.id != 0 && BufferOk(m.buffer) && m.buffer.slab == mb.buffer.slab
      && var more := q + [Chunk(m.buffer.address, 0, m, 0)];
      QueueOk(mem, more) && Stream(mem, more) == Stream(mem, q)
  {
    var m := next[mb.id];
    AppendEmpty(mem, q, Chunk(m.buffer.address, 0, m, 0));
  }

  /** What push asks of a window b that is to follow the queue q. */
  ghost predicate Pushable(mem: Mem, q: seq<Chunk>, b: Chunk, next: map<nat, ManagedBuffer>) {
    && b.length > 0
    && ChunkIn(mem, Stream(mem, q), b, [])
    && (forall i :: 0 <= i < |q| ==>
          && Apart(q[i].Slab(), b.Slab())
          && (q[i].mb.id == b.mb.id ==> q[i].mb == b.mb)
          && (q[i].Slab() == b.Slab() && b.Slab().circular && ChunkOk(q[i]) ==>
                Offset(q[i]) + SlabBytes(q[i..], b.Slab()) + b.length <= b.Slab().length))
    && (q != [] ==> Tiled(q[|q| - 1], b))
    && ChainOk(next, b.mb, b.nexts)
  }

  /** The windows that stay when push drops a spent front window. */
  function Kept(q: seq<Chunk>): seq<Chunk>
    requires q != []
  {
    if q[0].length == 0 then q[1..] else q
  }

  /** The queue after push, for a window without next buffers. */
  function Pushed(q: seq<Chunk>, b: Chunk): seq<Chunk>
    requires q != []
  {
    var all := Kept(q) + [b];
    if |all| < 2 then all else Trimmed(Amalgamated(all, |all| - 1))
  }

  /**
    Push behind a pool window, then pop: every pop is right exactly if the pushed window was coherent with
    the stream. So push has to ask for coherence.
   */
  lemma PushNeedsCoherence(mem: Mem, p: Chunk, b: Chunk)
    requires p.length > 0 && p.End() <= p.mb.buffer.End()
    requires b.length > 0 && b.mb.buffer.address <= b.address && !Adjoins(p, b)
    ensures Pushed([p], b) == [p, b]
    ensures (forall n: nat :: PopsRight(mem, p, b, [], n)) <==> Coherent(mem, b, Stream(mem, [p]))
  {
    PushedBehind(p, b);
    StreamOne(mem, p);
    CoherenceNeeded(mem, p, b, []);
  }

  lemma AppendPushed(mem: Mem, q: seq<Chunk>, b: Chunk, next: map<nat, ManagedBuffer>)
    requires q != [] && (q[0].length == 0 ==> |q| == 1) && QueueOk(mem, Live(q))
    requires Pushable(mem, Kept(q), b, next)
    ensures QueueOk(mem, Kept(q) + [b])
    ensures Stream(mem, Kept(q) + [b]) == Stream(mem, Live(q)) + Window(mem, b.address, b.length)
  {
    var k := Kept(q);
    assert Sound(mem, [], k) && Stream(mem, k) == Stream(mem, Live(q)) by {
      if q[0].length == 0 && q != [NULL_CHUNK] {
        DropSpent(mem, q);
      }
    }
    assert [] + Stream(mem, k) == Stream(mem, k);
    Append(mem, [], k, b);
  }

  lemma TrimOk(mem: Mem, q: seq<Chunk>)
    requires q != [] && q[|q| - 1].length == 0 && QueueOk(mem, q)
    ensures QueueOk(mem, q[..|q| - 1]) && Stream(mem, q[..|q| - 1]) == Stream(mem, q)
  {
    DropSpentLast(mem, [], q);
    SameBuffers(q, q[..|q| - 1]);
  }

  lemma FrontFits(mem: Mem, q: seq<Chunk>)
    ensures q != [] ==> q[0].length <= |Stream(mem, q)|
  {
  }

  lemma PopOk(mem: Mem, q: seq<Chunk>, n: nat)
    requires q != [] && n <= q[0].length && QueueOk(mem, q)
    ensures QueueOk(mem, q[0 := Advanced(q[0], n)])
    ensures Stream(mem, q[0 := Advanced(q[0], n)]) == Stream(mem, q)[n..]
  {
    assert q[0 := Advanced(q[0], n)] == [Advanced(q[0], n)] + q[1..];
    PopBytes(mem, q, n);
    SameBuffers(q, q[0 := Advanced(q[0], n)]);
  }

  lemma NotPlaceholder(mem: Mem, q: seq<Chunk>)
    requires QueueOk(mem, q)
    ensures Live(q) == q
  {
    if q != [] {
      SoundAt(mem, [], q, 0);
    }
  }

  lemma SecondOk(mem: Mem, q: seq<Chunk>)
    requires QueueOk(mem, q)
    ensures |q| > 1 ==> q[1].mb.buffer.address <= q[1].address
  {
    if |q| > 1 {
      SoundAt(mem, [], q, 1);
    }
  }

  lemma DropOk(mem: Mem, q: seq<Chunk>)
    requires q != [] && q[0].length == 0 && QueueOk(mem, q)
    ensures QueueOk(mem, q[1..]) && Stream(mem, q[1..]) == Stream(mem, q)
  {
    DropSpent(mem, q);
    TailBuffers(q);
  }

  /** A fresh allocation does not touch the memory of a queued window. */
  predicate SpareFor(spare: ManagedBuffer, c: Chunk) {
    spare.id != c.mb.id && spare.buffer.slab != c.Slab() && Apart(spare.buffer.slab, c.Slab())
  }

  lemma SingleWindow(mem: Mem, q: seq<Chunk>)
    requires |q| == 1
    ensures q[0].length == |Stream(mem, Live(q))|
  {
    assert q == [q[0]];
    StreamOne(mem, q[0]);
  }

  /** What the pool hands out lies outside everything queued. */
  lemma GotApart(buffs: seq<ManagedBuffer>, before: seq<ManagedBuffer>, q: seq<Chunk>, m: ManagedBuffer,
      spare: ManagedBuffer, inUse: set<nat>)
    requires forall p :: p in buffs ==> p in before || p == spare
    requires m in buffs && m.id !in inUse && forall c :: c in q ==> c.mb.id in inUse
    requires PoolsApart(before, q)
    requires forall i :: 0 <= i < |q| ==> SpareFor(spare, q[i])
    ensures PoolsApart(buffs, q)
    ensures forall i :: 0 <= i < |q| ==> q[i].Slab() != m.buffer.slab
  {
    forall i, j | 0 <= i < |buffs| && 0 <= j < |q| ensures PoolApart(buffs[i], q[j]) {
      if buffs[i] != spare {
        assert buffs[i] in before;
      }
    }
    MemberApart(buffs, q, m);
    assert forall i :: 0 <= i < |q| ==> q[i] in q;
  }

  lemma MemberApart(buffs: seq<ManagedBuffer>, q: seq<Chunk>, m: ManagedBuffer)
    requires m in buffs && PoolsApart(buffs, q)
    ensures forall i :: 0 <= i < |q| ==> PoolApart(m, q[i])
  {
    var k :| 0 <= k < |buffs| && buffs[k] == m;
    forall i | 0 <= i < |q| ensures PoolApart(m, q[i]) {
      assert PoolApart(buffs[k], q[i]);
    }
  }

  lemma PoolsApartFront(buffs: seq<ManagedBuffer>, p: Chunk, q: seq<Chunk>, k: seq<Chunk>)
    requires p.mb in buffs && forall i, j :: 0 <= i < j < |buffs| ==> Distinct(buffs[i], buffs[j])
    requires BuffersAmong(q, k) && PoolsApart(buffs, k)
    ensures PoolsApart(buffs, [p] + q)
  {
    PoolsApartAmong(buffs, q, k);
    var n :| 0 <= n < |buffs| && buffs[n] == p.mb;
    forall i, j | 0 <= i < |buffs| && 0 <= j < |q| + 1 ensures PoolApart(buffs[i], ([p] + q)[j]) {
      if j == 0 {
        assert i < n ==> Distinct(buffs[i], buffs[n]);
        assert n < i ==> Distinct(buffs[n], buffs[i]);
      }
    }
  }

  lemma GatherStart(mem: Mem, buffs: seq<ManagedBuffer>, size: nat, q: seq<Chunk>, m: ManagedBuffer)
    requires m in buffs && PoolsApart(buffs, q) && QueueOk(mem, q)
    requires forall i :: 0 <= i < |buffs| ==> Allocation(buffs[i], size)
    requires forall i :: 0 <= i < |q| ==> q[i].Slab() != m.buffer.slab
    ensures Allocation(m, size)
    ensures var p := Chunk(m.buffer.address, 0, m, 0);
      Copying(mem, p, q, Stream(mem, q))
  {
    MemberApart(buffs, q, m);
    PutFront(mem, Chunk(m.buffer.address, 0, m, 0), q);
  }

  lemma SingleOrNot(mem: Mem, q: seq<Chunk>)
    ensures |q| == 1 && Live(q) == q ==> q[0].length == |Stream(mem, q)|
  {
    if |q| == 1 {
      SingleWindow(mem, q);
    }
  }

  /** q is the last windows of k, the first of them perhaps without its first bytes. */
  predicate Remains(q: seq<Chunk>, k: seq<Chunk>) {
    |q| <= |k| && forall i :: 0 <= i < |q| ==>
      var c := k[|k| - |q| + i];
      q[i].mb == c.mb && q[i].End() == c.End() && (i > 0 ==> q[i] == c)
  }

  lemma DrainedAmong(q: seq<Chunk>, k: nat, q0: seq<Chunk>)
    requires q != [] && k <= q[0].length && BuffersAmong(q, q0)
    ensures BuffersAmong(Drained(q, k), q0) && (Remains(q, q0) ==> Remains(Drained(q, k), q0))
  {
  }

  /** Does require have nothing to copy: enough bytes in front, or a single window whose buffer can still fill up? */
  predicate KeepsFront(q: seq<Chunk>, total: nat, numBytes: nat)
    requires q != []
  {
    numBytes <= q[0].length || (total < numBytes && |q| == 1 && numBytes <= q[0].mb.buffer.length)
  }

  /** The copy loop of require: fills the new buffer from the queue until it is full or the queue is drained. */
  method CopyIn(mem0: Mem, p0: Chunk, q0: seq<Chunk>, ghost s: seq<Byte>) returns (mem: Mem, p: Chunk, q: seq<Chunk>)
    requires p0.length == 0 && p0.address == p0.mb.buffer.address && p0.mb.buffer.End() == p0.Slab().Top()
    requires Copying(mem0, p0, q0, s)
    ensures p.mb == p0.mb && p.address == p0.address && p.End() <= p.mb.buffer.End()
    ensures Copying(mem, p, q, s)
    ensures p.length == p.mb.buffer.length || q == []
    ensures BuffersAmong(q, q0) && Remains(q, q0) && (q != [] ==> q[0].length > 0)
    ensures ChangedIn(mem0, mem, p.mb.buffer.address, p.mb.buffer.End())
  {
    mem, p, q := mem0, p0, q0;
    var newBuffBytes := p.mb.buffer.length;
    while q != []
      invariant p.mb == p0.mb && p.address == p0.address && p.length + newBuffBytes == p.mb.buffer.length
      invariant Copying(mem, p, q, s)
      invariant BuffersAmong(q, q0) && Remains(q, q0)
      invariant ChangedIn(mem0, mem, p.mb.buffer.address, p.mb.buffer.End())
      decreases |q|
    {
      var f := q[0];
      var copyBytes := if newBuffBytes < f.length then newBuffBytes else f.length;
      CopyRound(mem, p, q, copyBytes, s);
      DrainedAmong(q, copyBytes, q0);
      CopyChanges(mem0, mem, p.mb.buffer.address, p.mb.buffer.End(), p.End(), f.address, copyBytes);
      mem := Copy(mem, p.End(), f.address, copyBytes);
      newBuffBytes := newBuffBytes - copyBytes;
      p := Grown(p, copyBytes);
      q := Drained(q, copyBytes);
      if f.length != copyBytes {
        break;
      }
    }
  }

  lemma EnoughElements(front: nat, total: nat, n: nat, reserve: nat, size: nat)
    requires size > 0 && reserve <= n && front <= total
    requires front >= n * size || front == total
    ensures front / size >= reserve <==> total / size >= reserve
  {
    DivAtLeast(front, reserve, size);
    DivAtLeast(total, reserve, size);
    assert n * size >= reserve * size;
  }

  lemma DivAtLeast(x: nat, n: nat, d: nat)
    requires d > 0
    ensures x / d >= n <==> x >= n * d
  {
    var k := x / d;
    assert k * d <= x < (k + 1) * d;
    if k >= n {
      assert k * d >= n * d;
    } else {
      assert (k + 1) * d <= n * d;
    }
  }

  class BufferAccumulator {
    var mem: Mem
    var queue: seq<Chunk>
    var bytesAvailable: nat
    var inPoolBuffer: bool
    const pool: BufferPool

    ghost predicate PoolOk()
      reads this, pool
    {
      pool.Valid() && PoolsApart(pool.buffs, Live(queue))
    }

    ghost predicate Valid()
      reads this, pool
    {
      && queue != []
      && (queue[0].length == 0 ==> |queue| == 1)
      && QueueOk(mem, Live(queue))
      && bytesAvailable == |Contents()|
      && PoolOk()
    }

    /** The bytes queued, in order. */
    ghost function Contents(): seq<Byte>
      reads this
    {
      Stream(mem, Live(queue))
    }

    constructor (mem: Mem)
      ensures Valid() && Contents() == [] && this.mem == mem && fresh(pool)
      ensures queue == [NULL_CHUNK] && !inPoolBuffer && pool.buffs == [] && pool.minBuffSize == DEFAULT_SIZE
    {
      this.mem := mem;
      queue := [NULL_CHUNK];
      bytesAvailable := 0;
      inPoolBuffer := false;
      pool := new BufferPool();
    }

    method Clear()
      modifies this, pool
      ensures Valid() && Contents() == [] && mem == old(mem)
      ensures queue == [NULL_CHUNK] && !inPoolBuffer && pool.buffs == [] && pool.minBuffSize == DEFAULT_SIZE
    {
      queue := [NULL_CHUNK];
      bytesAvailable := 0;
      inPoolBuffer := false;
      pool.Clear();
    }

    /**
      push appends the window's bytes to the stream, wherever they were merged to, and the front
      window only grows.
     */
    method Push(b: Chunk, next: map<nat, ManagedBuffer>)
      requires Valid()
      requires Pushable(mem, Kept(queue), b, next)
      requires PoolAdmits(pool.buffs, b)
      modifies this
      ensures Valid()
      ensures Contents() == old(Contents()) + Window(mem, b.address, b.length)
      ensures mem == old(mem)
      ensures old(queue[0].length) > 0 ==>
        queue[0].address == old(queue[0].address) && queue[0].length >= old(queue[0].length)
      ensures AfterPush(Kept(old(queue)) + [b], next, queue)
      ensures AllFollow(Kept(old(queue)) + [b]) ==> queue[0].length == |Contents()|
    {
      hide Pushed, Amalgamated, Trimmed, AfterPush, AllFollow, Total, QueueOk;
      bytesAvailable := bytesAvailable + b.length;
      AppendPushed(mem, queue, b, next);
      StreamTotal(mem, Kept(queue) + [b]);
      Enqueue(b, next);
      AllInFront(Kept(old(queue)) + [b], next, queue);
      NotPlaceholder(mem, queue);
      PoolsApartFrom(pool.buffs, queue, Kept(old(queue)), b);
    }

    /** push without the byte count. */
    method Enqueue(b: Chunk, next: map<nat, ManagedBuffer>)
      requires queue != [] && (queue[0].length == 0 ==> |queue| == 1) && b.length > 0
      requires QueueOk(mem, Kept(queue) + [b])
      requires forall i :: 0 <= i < |Kept(queue)| && Kept(queue)[i].mb.id == b.mb.id ==> Kept(queue)[i].mb == b.mb
      requires ChunkOk(b) && ChainOk(next, b.mb, b.nexts)
      modifies this`queue
      ensures queue != [] && QueueOk(mem, queue)
      ensures Stream(mem, queue) == Stream(mem, Kept(old(queue)) + [b])
      ensures queue[0].length > 0
      ensures old(queue[0].length) > 0 ==>
        queue[0].address == old(queue[0].address) && queue[0].length >= old(queue[0].length)
      ensures BuffersFrom(queue, Kept(old(queue)), b)
      ensures b.nexts == 0 ==> queue == Pushed(old(queue), b)
      ensures AfterPush(Kept(old(queue)) + [b], next, queue)
    {
      hide Stream, Amalgamated, Trimmed, QueueOk, ChainOk, RunMerged, RunStart, LastGoes, AfterPush, NextsFollow;
      ghost var kept := Kept(queue);
      if queue[0].length == 0 {
        queue := queue[1..];
      }
      assert queue == kept;
      queue := queue + [b];
      SingleRun(b);
      assert kept == [] ==> kept + [b] == [b];
      if |queue| >= 2 {
        AmalgamateBack();
      }
      assert BuffersFrom(queue, kept, b);
      hide BuffersFrom;
      ghost var merged := queue;
      RestoreNexts(b.mb, b.nexts, next);
      NextsBehind(kept + [b], next, merged, queue);
      StillFrom(merged, queue, kept, b);
    }

    /** The amalgamation, and the removal of a spent last window whose buffer its predecessor also holds. */
    method AmalgamateBack()
      requires |queue| >= 2 && QueueOk(mem, queue) && queue[0].length > 0
      requires forall i :: 0 <= i < |queue| && queue[i].mb.id == queue[|queue| - 1].mb.id ==>
        queue[i].mb == queue[|queue| - 1].mb
      requires queue[|queue| - 1].length > 0
      modifies this`queue
      ensures queue != [] && QueueOk(mem, queue) && Stream(mem, queue) == old(Stream(mem, queue))
      ensures |old(queue)| - 1 <= |queue| <= |old(queue)|
      ensures forall i :: 0 <= i < |queue| ==> queue[i].mb == old(queue)[i].mb
      ensures queue[|queue| - 1].mb == old(queue)[|old(queue)| - 1].mb
      ensures queue[0].address == old(queue)[0].address && queue[0].length >= old(queue)[0].length
      ensures queue == Trimmed(Amalgamated(old(queue), |old(queue)| - 1))
      ensures |queue| == (if LastGoes(old(queue)) then |old(queue)| - 1 else |old(queue)|)
      ensures RunMerged(old(queue), queue, RunStart(old(queue)))
    {
      hide RunMerged, RunStart, LastGoes, QueueOk, Stream, Amalgamated;
      TrimmedExact(mem, queue);
      var backIndex := |queue| - 1;
      Amalgamate();
      if queue[backIndex].mb.id == queue[backIndex - 1].mb.id && queue[backIndex].length == 0 {
        TrimOk(mem, queue);
        queue := queue[..backIndex];
      }
    }

    /** Moves contiguous windows as far to the front as they go. */
    method Amalgamate()
      requires |queue| >= 2 && QueueOk(mem, queue)
      modifies this`queue
      ensures QueueOk(mem, queue) && Stream(mem, queue) == old(Stream(mem, queue))
      ensures |queue| == |old(queue)|
      ensures forall i :: 0 <= i < |queue| ==> queue[i].mb == old(queue)[i].mb
      ensures queue[0].address == old(queue)[0].address && queue[0].length >= old(queue)[0].length
      ensures queue == Amalgamated(old(queue), |old(queue)| - 1)
      ensures RunMerged(old(queue), queue, RunStart(old(queue)))
    {
      hide QueueOk, Stream, Adjoins, Merged, RunMerged, RunStart;
      AmalgamatedExact(mem, queue);
      var i := |queue| - 1;
      while i >= 1
        invariant 0 <= i < |queue| == |old(queue)|
        invariant Amalgamated(queue, i) == Amalgamated(old(queue), |old(queue)| - 1)
        invariant QueueOk(mem, queue) && Stream(mem, queue) == old(Stream(mem, queue))
        invariant forall j :: 0 <= j < |queue| ==> queue[j].mb == old(queue)[j].mb
        invariant queue[0].address == old(queue)[0].address && queue[0].length >= old(queue)[0].length
      {
        var f, b := queue[i - 1], queue[i];
        if Adjoins(f, b) {
          MergeStep(mem, queue, i);
          MergedIs(queue, i);
          queue := Merged(queue, i);
        } else {
          break;
        }
        i := i - 1;
      }
    }

    /** Puts the covered next buffers back as empty windows. */
    method RestoreNexts(last: ManagedBuffer, nexts: nat, next: map<nat, ManagedBuffer>)
      requires queue != [] && QueueOk(mem, queue) && ChainOk(next, last, nexts)
      requires queue[|queue| - 1].mb == last && BufferOk(last.buffer)
      modifies this`queue
      ensures QueueOk(mem, queue) && Stream(mem, queue) == old(Stream(mem, queue))
      ensures old(queue) <= queue
      ensures forall i :: |old(queue)| <= i < |queue| ==> queue[i].Slab() == last.buffer.slab && queue[i].mb.id != 0
      ensures |queue| == |old(queue)| + nexts && NextsFollow(next, last, queue[|old(queue)|..])
    {
      hide QueueOk, Stream, ChainOk, BufferOk, NextsFollow;
      assert queue[|queue|..] == [];
      NoNexts(next, last);
      var mb, i := last, 0;
      while i < nexts
        invariant 0 <= i <= nexts && queue != []
        invariant QueueOk(mem, queue) && Stream(mem, queue) == old(Stream(mem, queue))
        invariant old(queue) <= queue && ChainOk(next, mb, nexts - i)
        invariant queue[|queue| - 1].mb == mb && mb.buffer.slab == last.buffer.slab && BufferOk(mb.buffer)
        invariant forall j :: |old(queue)| <= j < |queue| ==> queue[j].Slab() == last.buffer.slab && queue[j].mb.id != 0
        invariant |queue| == |old(queue)| + i && NextsFollow(next, last, queue[|old(queue)|..])
        invariant mb == if i == 0 then last else queue[|queue| - 1].mb
      {
        NextOk(mem, queue, next, mb, nexts - i);
        mb := next[mb.id];
        var bnext := Chunk(mb.buffer.address, 0, mb, 0);
        OneMoreNext(next, last, queue[|old(queue)|..], bnext);
        assert (queue + [bnext])[|old(queue)|..] == queue[|old(queue)|..] + [bnext];
        queue := queue + [bnext];
        i := i + 1;
      }
    }

    /** pop drops the first numBytes of the stream. */
    method Pop(numBytes: nat)
      requires Valid() && numBytes <= queue[0].length
      modifies this
      ensures Valid()
      ensures Contents() == old(Contents())[numBytes..]
      ensures mem == old(mem)
      ensures AfterPop(old(queue), old(inPoolBuffer), numBytes, Live(queue), inPoolBuffer)
    {
      hide Window, ChunkIn, Apart, PoolApart, BuffersAmong, AllApart, AllTiled;
      FrontFits(mem, Live(queue));
      bytesAvailable := bytesAvailable - numBytes;
      Dequeue(numBytes);
      PoolsApartAmong(pool.buffs, queue, Live(old(queue)));
      NotPlaceholder(mem, queue);
      if queue == [] {
        queue := [NULL_CHUNK];
      }
    }

    /** pop without the byte count and the placeholder. */
    method Dequeue(numBytes: nat)
      requires queue != [] && numBytes <= queue[0].length && QueueOk(mem, Live(queue))
      modifies this`queue, this`inPoolBuffer
      ensures QueueOk(mem, queue)
      ensures numBytes <= |old(Contents())| && Stream(mem, queue) == old(Contents())[numBytes..]
      ensures BuffersAmong(queue, Live(old(queue)))
      ensures queue != [] ==> queue[0].length > 0
      ensures old(queue) != [NULL_CHUNK] ==>
        SecondAbove(old(queue)) && queue == Popped(old(queue), old(inPoolBuffer), numBytes)
      ensures AfterPop(old(queue), old(inPoolBuffer), numBytes, queue, inPoolBuffer)
    {
      hide Settled, WithoutSpent, Window, ChunkIn, Apart, AllApart, AllTiled, Folded;
      FrontFits(mem, Live(queue));
      if queue != [NULL_CHUNK] {
        PopOk(mem, queue, numBytes);
        queue := queue[0 := Advanced(queue[0], numBytes)];
        Settle();
        PoppedExact(old(queue), old(inPoolBuffer), numBytes);
      } else {
        queue := [];
        inPoolBuffer := false;
      }
      DropFront();
    }

    /** The three ways in which the front window leaves the queue early, or stays. */
    method Settle()
      requires queue != [] && QueueOk(mem, queue)
      modifies this`queue, this`inPoolBuffer
      ensures QueueOk(mem, queue) && Stream(mem, queue) == old(Stream(mem, queue))
      ensures BuffersAmong(queue, old(queue))
      ensures SecondAbove(old(queue)) && queue == Settled(old(queue), old(inPoolBuffer))
      ensures inPoolBuffer == (old(inPoolBuffer) && |queue| == |old(queue)|)
    {
      hide Window, ChunkIn, Apart, AllApart, AllTiled, Stream, Sound;
      var queueSize := |queue|;
      SecondOk(mem, queue);
      if
        && inPoolBuffer && |queue| > 1
        && queue[0].length <= queue[1].address - queue[1].mb.buffer.address
      {
        GiveBack(mem, queue);
        queue := Folded(queue);
      } else if queue[0].length == 0 {
        DropOk(mem, queue);
        queue := queue[1..];
      } else if |queue| > 1 && queue[0].address >= queue[0].mb.buffer.End() && queue[0].End() == queue[1].address {
        MoveOn(mem, queue);
        queue := Folded(queue);
      }
      if inPoolBuffer && queueSize != |queue| {
        inPoolBuffer := false;
      }
    }

    method DropFront()
      requires QueueOk(mem, queue)
      modifies this`queue
      ensures QueueOk(mem, queue) && Stream(mem, queue) == old(Stream(mem, queue))
      ensures BuffersAmong(queue, old(queue))
      ensures queue != [] ==> queue[0].length > 0
      ensures queue == WithoutSpent(old(queue))
    {
      while queue != [] && queue[0].length == 0
        invariant QueueOk(mem, queue) && Stream(mem, queue) == old(Stream(mem, queue))
        invariant BuffersAmong(queue, old(queue)) && WithoutSpent(queue) == WithoutSpent(old(queue))
      {
        DropOk(mem, queue);
        queue := queue[1..];
      }
    }

    /**
      require leaves the stream alone and makes the front window hold numBytes, or everything there
      is. Memory changes only inside a pool buffer that no queued window and no held chunk refers to.
      held: the buffers that chunks outside this accumulator refer to.
     */
    method Require(numBytes: nat, held: set<nat>, spare: ManagedBuffer)
      requires Valid()
      requires Allocation(spare, if numBytes > pool.minBuffSize then numBytes else pool.minBuffSize)
      requires spare.id !in held
      requires forall i :: 0 <= i < |pool.buffs| ==> Distinct(pool.buffs[i], spare)
      requires forall i :: 0 <= i < |Live(queue)| ==> SpareFor(spare, Live(queue)[i])
      modifies this, pool
      ensures Valid()
      ensures Contents() == old(Contents())
      ensures queue[0].length >= numBytes || queue[0].length == |Contents()|
      ensures KeepsFront(old(queue), old(bytesAvailable), numBytes) ==>
        queue == old(queue) && mem == old(mem) && inPoolBuffer == old(inPoolBuffer) && pool.buffs == old(pool.buffs)
      ensures !KeepsFront(old(queue), old(bytesAvailable), numBytes) ==>
        && inPoolBuffer && queue[0].mb in pool.buffs && queue[0].address == queue[0].mb.buffer.address
        && queue[0].length == Min(queue[0].mb.buffer.length, |Contents()|)
        && Remains(queue[1..], Live(old(queue))) && (|queue| > 1 ==> queue[1].length > 0)
      ensures forall a: nat :: mem(a) != old(mem)(a) ==>
        var m := queue[0].mb;
        m.id !in held && (forall c :: c in old(queue) ==> c.mb.id != m.id) && m.buffer.address <= a < m.buffer.End()
    {
      hide Window, ChunkIn, Apart, PoolApart, AllApart, AllTiled, BufferOk, QueueOk, Remains, Stream;
      FrontFits(mem, Live(queue));
      if queue[0].length >= numBytes {
        return;
      }
      if bytesAvailable < numBytes && |queue| == 1 && numBytes <= queue[0].mb.buffer.length {
        SingleWindow(mem, queue);
        return;
      }
      var inUse := held + set c | c in queue :: c.mb.id;
      var m := pool.Get(numBytes, inUse, spare);
      GotApart(pool.buffs, old(pool.buffs), Live(queue), m, spare, inUse);
      Gather(m);
      NotPlaceholder(mem, queue);
      SingleOrNot(mem, queue);
      FrontFits(mem, queue);
    }

    /** Replaces a prefix of the queue by a copy of it in the pool buffer m. */
    method Gather(m: ManagedBuffer)
      requires queue != [] && QueueOk(mem, Live(queue)) && pool.Valid() && m in pool.buffs
      requires PoolsApart(pool.buffs, Live(queue))
      requires forall i :: 0 <= i < |Live(queue)| ==> Live(queue)[i].Slab() != m.buffer.slab
      modifies this`queue, this`mem, this`inPoolBuffer
      ensures queue != [] && QueueOk(mem, queue) && Stream(mem, queue) == old(Contents())
      ensures queue[0].mb == m && (queue[0].length == m.buffer.length || |queue| == 1)
      ensures inPoolBuffer && queue[0].address == m.buffer.address && queue[0].End() <= m.buffer.End()
      ensures Remains(queue[1..], Live(old(queue))) && (|queue| > 1 ==> queue[1].length > 0)
      ensures PoolsApart(pool.buffs, queue)
      ensures ChangedIn(old(mem), mem, m.buffer.address, m.buffer.End())
    {
      hide Window, ChunkIn, Apart, PoolApart, BuffersAmong, AllApart, AllTiled, Outside;
      queue := Live(queue);
      var newBuffer := Chunk(m.buffer.address, 0, m, 0);
      GatherStart(mem, pool.buffs, pool.minBuffSize, queue, m);
      mem, newBuffer, queue := CopyIn(mem, newBuffer, queue, Stream(mem, queue));
      inPoolBuffer := true;
      PoolsApartFront(pool.buffs, newBuffer, queue, Live(old(queue)));
      queue := [newBuffer] + queue;
    }


    /** Other parties may write memory that no queued window or held buffer looks at. */
    method Overwrite(mem': Mem)
      requires Valid() && Untouched(mem, mem', Live(queue))
      modifies this`mem
      ensures Valid() && Contents() == old(Contents()) && mem == mem'
    {
      SoundFrame(mem, mem', [], Live(queue));
      mem := mem';
    }

    /** The front window is empty exactly when nothing is queued. */
    method FrontEmpty() returns (r: bool)
      requires Valid()
      ensures r <==> Contents() == []
    {
      r := queue[0].length == 0;
      FrontFits(mem, Live(queue));
      SingleOrNot(mem, queue);
    }

    /**
      The reserve test of WorkerActor::preWorkTasks: after requiring max(1, reserve) elements, the
      front window holds the reserve exactly when that many whole elements are queued.
     */
    method ReserveReached(reserve: nat, size: nat, held: set<nat>, spare: ManagedBuffer) returns (reached: bool)
      requires Valid() && size > 0
      requires var n := (if reserve == 0 then 1 else reserve) * size;
        Allocation(spare, if n > pool.minBuffSize then n else pool.minBuffSize)
      requires spare.id !in held
      requires forall i :: 0 <= i < |pool.buffs| ==> Distinct(pool.buffs[i], spare)
      requires forall i :: 0 <= i < |Live(queue)| ==> SpareFor(spare, Live(queue)[i])
      modifies this, pool
      ensures Valid() && Contents() == old(Contents())
      ensures reached <==> |Contents()| / size >= reserve
      ensures queue[0].length >= size || queue[0].length == |Contents()|
    {
      hide Window, ChunkIn, Apart, PoolApart, AllApart, AllTiled, BufferOk, QueueOk, Remains, KeepsFront, SpareFor;
      var requireElems := if reserve == 0 then 1 else reserve;
      assert requireElems * size >= size;
      Require(requireElems * size, held, spare);
      var elements := queue[0].length / size;
      reached := elements >= reserve;
      FrontFits(mem, Live(queue));
      SingleOrNot(mem, queue);
      EnoughElements(queue[0].length, |Contents()|, requireElems, reserve, size);
    }
  }
}
