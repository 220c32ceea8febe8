/**
  The queue of windows inside the accumulator, as a value: what it means (a byte stream),
  what keeps it sound, and the few rewrites that lib/Framework/BufferAccumulator.cpp is made of.
 */
module BufferQueue {
  import opened Values
  import opened Buffers

  /** The byte stream that a queue of windows stands for. */
  function Stream(mem: Mem, q: seq<Chunk>): seq<Byte> {
    if q == [] then [] else Window(mem, q[0].address, q[0].length) + Stream(mem, q[1..])
  }

  /** Queued bytes that lie in slab s. */
  function SlabBytes(q: seq<Chunk>, s: Slab): nat {
    if q == [] then 0 else (if q[0].Slab() == s then q[0].length else 0) + SlabBytes(q[1..], s)
  }

  /** How far a window starts above the base of its own buffer. */
  function Offset(c: Chunk): nat
    requires c.mb.buffer.address <= c.address
  {
    c.address - c.mb.buffer.address
  }

  predicate BufferOk(b: SharedBuffer) {
    && 0 < b.slab.base <= b.address
    && 0 < b.slab.length
    && (if b.slab.circular then b.address < b.slab.base + b.slab.length else b.End() <= b.slab.Top())
  }

  predicate ChunkOk(c: Chunk) {
    && c.mb.id != 0
    && BufferOk(c.mb.buffer)
    && c.mb.buffer.address <= c.address
    && (!c.Slab().circular ==> c.End() <= c.Slab().Top())
  }

  predicate Apart(s: Slab, t: Slab) {
    s == t || s.Guard() < t.base || t.Guard() < s.base
  }

  /** The address one turn above a. */
  function Mirror(s: Slab, a: nat): nat {
    a + s.length
  }

  /** The circular double mapping. */
  ghost predicate Periodic(mem: Mem, s: Slab) {
    s.circular ==>
      forall a: nat {:trigger Mirror(s, a)} :: s.base <= a < s.base + s.length ==> mem(a) == mem(Mirror(s, a))
  }

  /** Neighbours in one slab: the later buffer starts no further than where the earlier one ends. */
  predicate Tiled(f: Chunk, b: Chunk) {
    f.Slab() == b.Slab() ==> b.mb.buffer.address <= f.mb.buffer.End()
  }

  /** The d-th byte from the end of a stream. */
  function Last(s: seq<Byte>, d: nat): Byte
    requires 0 < d <= |s|
  {
    s[|s| - d]
  }

  /**
    The bytes below a window, inside its own buffer, repeat the end of the stream `before` it,
    as far back as that stream goes.
   */
  ghost predicate Coherent(mem: Mem, c: Chunk, before: seq<Byte>)
    requires c.mb.buffer.address <= c.address
  {
    forall d: nat {:trigger Last(before, d)} :: 0 < d <= Offset(c) && d <= |before| ==>
      mem(c.address - d) == Last(before, d)
  }

  /** From the base of a held circular buffer to the end of the stream there is at most one turn. */
  predicate Reaches(c: Chunk, rest: seq<Chunk>)
    requires c.mb.buffer.address <= c.address
  {
    c.Slab().circular ==> Offset(c) + c.length + SlabBytes(rest, c.Slab()) <= c.Slab().length
  }

  ghost predicate ChunkIn(mem: Mem, before: seq<Byte>, c: Chunk, rest: seq<Chunk>) {
    && ChunkOk(c)
    && Periodic(mem, c.Slab())
    && Coherent(mem, c, before)
    && Reaches(c, rest)
  }

  /** The queue q is sound behind the bytes `before`. */
  ghost predicate Sound(mem: Mem, before: seq<Byte>, q: seq<Chunk>)
    decreases |q|
  {
    q != [] ==>
      && ChunkIn(mem, before, q[0], q[1..])
      && Sound(mem, before + Window(mem, q[0].address, q[0].length), q[1..])
  }

  predicate AllApart(q: seq<Chunk>) {
    forall i, j :: 0 <= i < j < |q| ==> Apart(q[i].Slab(), q[j].Slab())
  }

  predicate AllTiled(q: seq<Chunk>) {
    forall i :: 0 < i < |q| ==> Tiled(q[i - 1], q[i])
  }

  ghost predicate QueueOk(mem: Mem, q: seq<Chunk>) {
    Sound(mem, [], q) && AllApart(q) && AllTiled(q)
  }

  // ---------- stream and byte counts under concatenation ----------

  lemma {:induction false} StreamConcat(mem: Mem, a: seq<Chunk>, b: seq<Chunk>)
    ensures Stream(mem, a + b) == Stream(mem, a) + Stream(mem, b)
  {
    if a == [] {
      assert a + b == b;
    } else {
      assert (a + b)[1..] == a[1..] + b;
      StreamConcat(mem, a[1..], b);
    }
  }

  lemma StreamOne(mem: Mem, c: Chunk)
    ensures Stream(mem, [c]) == Window(mem, c.address, c.length)
  {
    assert [c][1..] == [];
    assert Stream(mem, [c]) == Window(mem, c.address, c.length) + Stream(mem, []);
  }

  lemma {:induction false} SlabBytesConcat(a: seq<Chunk>, b: seq<Chunk>, s: Slab)
    ensures SlabBytes(a + b, s) == SlabBytes(a, s) + SlabBytes(b, s)
  {
    if a == [] {
      assert a + b == b;
    } else {
      assert (a + b)[1..] == a[1..] + b;
      SlabBytesConcat(a[1..], b, s);
    }
  }

  /** A window that gave its first k bytes away is coherent with the stream that got them. */
  lemma AdvanceCoherent(mem: Mem, c: Chunk, before: seq<Byte>, k: nat)
    requires c.mb.buffer.address <= c.address && k <= c.length
    requires Coherent(mem, c, before)
    ensures Coherent(mem, c.(address := c.address + k, length := c.length - k), before + Window(mem, c.address, k))
  {
    var after := before + Window(mem, c.address, k);
    forall d: nat | 0 < d <= Offset(c) + k && d <= |after|
      ensures mem(c.address + k - d) == Last(after, d)
    {
      if d > k {
        assert Last(after, d) == Last(before, d - k);
      }
    }
  }

  /** Coherence only looks at the end of the stream before the window. */
  lemma CoherentTail(mem: Mem, c: Chunk, before: seq<Byte>, n: nat)
    requires c.mb.buffer.address <= c.address && n <= |before|
    requires Coherent(mem, c, before)
    ensures Coherent(mem, c, before[n..])
  {
    forall d: nat | 0 < d <= Offset(c) && d <= |before[n..]|
      ensures mem(c.address - d) == Last(before[n..], d)
    {
      assert Last(before[n..], d) == Last(before, d);
    }
  }

  // ---------- the rewrites ----------

  function Grown(f: Chunk, k: nat): Chunk {
    f.(length := f.length + k)
  }

  function Advanced(b: Chunk, k: nat): Chunk
    requires k <= b.length
  {
    b.(address := b.address + k, length := b.length - k)
  }

  /** Where the first k bytes of b may become the last k bytes of its predecessor f. */
  ghost predicate CanTransfer(mem: Mem, f: Chunk, b: Chunk, k: nat) {
    && k <= b.length
    && Window(mem, f.End(), k) == Window(mem, b.address, k)
    && (f.Slab() == b.Slab() || !f.Slab().circular)
    && ChunkOk(Grown(f, k))
  }

  /** Moving bytes from a chunk to the chunk before it keeps the stream and the soundness of the queue. */
  lemma {:induction false} Transfer(mem: Mem, before: seq<Byte>, A: seq<Chunk>, f: Chunk, b: Chunk, B: seq<Chunk>,
      k: nat)
    requires Sound(mem, before, A + [f, b] + B)
    requires CanTransfer(mem, f, b, k)
    ensures Sound(mem, before, A + [Grown(f, k), Advanced(b, k)] + B)
    ensures Stream(mem, A + [Grown(f, k), Advanced(b, k)] + B) == Stream(mem, A + [f, b] + B)
    decreases |A|
  {
    var q, q' := A + [f, b] + B, A + [Grown(f, k), Advanced(b, k)] + B;
    if A == [] {
      assert q == [f, b] + B && q' == [Grown(f, k), Advanced(b, k)] + B;
      TransferHere(mem, before, f, b, B, k);
    } else {
      assert q[1..] == A[1..] + [f, b] + B;
      assert q'[1..] == A[1..] + [Grown(f, k), Advanced(b, k)] + B;
      Transfer(mem, before + Window(mem, A[0].address, A[0].length), A[1..], f, b, B, k);
      TransferBytes(A[1..], f, b, B, k, A[0].Slab());
    }
  }

  lemma TransferBytes(A: seq<Chunk>, f: Chunk, b: Chunk, B: seq<Chunk>, k: nat, s: Slab)
    requires k <= b.length
    requires s.circular ==> f.Slab() == b.Slab() || !f.Slab().circular
    ensures s.circular ==>
      SlabBytes(A + [Grown(f, k), Advanced(b, k)] + B, s) <= SlabBytes(A + [f, b] + B, s)
  {
    var f', b' := Grown(f, k), Advanced(b, k);
    SlabBytesConcat(A + [f, b], B, s);
    SlabBytesConcat(A, [f, b], s);
    SlabBytesConcat(A + [f', b'], B, s);
    SlabBytesConcat(A, [f', b'], s);
    assert [f, b][1..] == [b] && [f', b'][1..] == [b'];
    assert [b][1..] == [] && [b'][1..] == [];
  }

  /** Soundness and stream of a queue, spelled out for its first two windows. */
  lemma SoundTwo(mem: Mem, before: seq<Byte>, f: Chunk, b: Chunk, B: seq<Chunk>)
    ensures var wf, wb := Window(mem, f.address, f.length), Window(mem, b.address, b.length);
      && (Sound(mem, before, [f, b] + B) <==>
          ChunkIn(mem, before, f, [b] + B) && ChunkIn(mem, before + wf, b, B) && Sound(mem, before + (wf + wb), B))
      && Stream(mem, [f, b] + B) == wf + wb + Stream(mem, B)
  {
    var q := [f, b] + B;
    assert q[1..] == [b] + B;
    assert ([b] + B)[1..] == B;
    var wf, wb := Window(mem, f.address, f.length), Window(mem, b.address, b.length);
    assert before + wf + wb == before + (wf + wb);
    assert Stream(mem, q) == wf + Stream(mem, [b] + B);
  }

  lemma TransferWindows(mem: Mem, f: Chunk, b: Chunk, k: nat)
    requires k <= b.length && Window(mem, f.End(), k) == Window(mem, b.address, k)
    ensures var f', b' := Grown(f, k), Advanced(b, k);
      && Window(mem, f'.address, f'.length) == Window(mem, f.address, f.length) + Window(mem, b.address, k)
      && Window(mem, f'.address, f'.length) + Window(mem, b'.address, b'.length)
         == Window(mem, f.address, f.length) + Window(mem, b.address, b.length)
  {
    WindowSplit(mem, f.address, f.length, k);
    WindowSplit(mem, b.address, k, b.length - k);
  }

  lemma TransferReaches(f: Chunk, b: Chunk, B: seq<Chunk>, k: nat)
    requires k <= b.length && f.mb.buffer.address <= f.address && b.mb.buffer.address <= b.address
    requires f.Slab() == b.Slab() || !f.Slab().circular
    requires Reaches(f, [b] + B) && Reaches(b, B)
    ensures Reaches(Grown(f, k), [Advanced(b, k)] + B) && Reaches(Advanced(b, k), B)
  {
    assert ([b] + B)[1..] == B;
    assert ([Advanced(b, k)] + B)[1..] == B;
  }

  lemma TransferHere(mem: Mem, before: seq<Byte>, f: Chunk, b: Chunk, B: seq<Chunk>, k: nat)
    requires Sound(mem, before, [f, b] + B)
    requires CanTransfer(mem, f, b, k)
    ensures Sound(mem, before, [Grown(f, k), Advanced(b, k)] + B)
    ensures Stream(mem, [Grown(f, k), Advanced(b, k)] + B) == Stream(mem, [f, b] + B)
  {
    var f', b' := Grown(f, k), Advanced(b, k);
    SoundTwo(mem, before, f, b, B);
    SoundTwo(mem, before, f', b', B);
    TransferWindows(mem, f, b, k);
    TransferIn(mem, before, f, b, B, k);
  }

  lemma TransferIn(mem: Mem, before: seq<Byte>, f: Chunk, b: Chunk, B: seq<Chunk>, k: nat)
    requires CanTransfer(mem, f, b, k)
    requires ChunkIn(mem, before, f, [b] + B)
    requires ChunkIn(mem, before + Window(mem, f.address, f.length), b, B)
    ensures ChunkIn(mem, before, Grown(f, k), [Advanced(b, k)] + B)
    ensures ChunkIn(mem, before + Window(mem, f.address, f.length + k), Advanced(b, k), B)
  {
    TransferReaches(f, b, B, k);
    TransferWindows(mem, f, b, k);
    var wf := Window(mem, f.address, f.length);
    AdvanceCoherent(mem, b, before + wf, k);
    assert before + wf + Window(mem, b.address, k) == before + (wf + Window(mem, b.address, k));
  }

  /** Forgetting old bytes in front of a queue keeps it sound. */
  lemma {:induction false} SoundTail(mem: Mem, before: seq<Byte>, n: nat, q: seq<Chunk>)
    requires n <= |before| && Sound(mem, before, q)
    ensures Sound(mem, before[n..], q)
    decreases |q|
  {
    if q != [] {
      var w := Window(mem, q[0].address, q[0].length);
      CoherentTail(mem, q[0], before, n);
      SoundTail(mem, before + w, n, q[1..]);
      assert (before + w)[n..] == before[n..] + w;
    }
  }

  /** Popping n bytes off the front window. */
  lemma PopBytes(mem: Mem, q: seq<Chunk>, n: nat)
    requires q != [] && n <= q[0].length && Sound(mem, [], q)
    ensures Sound(mem, [], [Advanced(q[0], n)] + q[1..])
    ensures Stream(mem, [Advanced(q[0], n)] + q[1..]) == Stream(mem, q)[n..]
  {
    var f, f' := q[0], Advanced(q[0], n);
    var w, w' := Window(mem, f.address, f.length), Window(mem, f'.address, f'.length);
    assert w[n..] == w' by { WindowSplit(mem, f.address, n, f.length - n); }
    assert ([f'] + q[1..])[1..] == q[1..];
    assert Sound(mem, [] + w', q[1..]) by {
      assert [] + w == w && [] + w' == w';
      SoundTail(mem, w, n, q[1..]);
    }
    assert ChunkIn(mem, [], f', q[1..]);
  }

  /** A spent front window can be dropped. */
  lemma DropSpent(mem: Mem, q: seq<Chunk>)
    requires q != [] && q[0].length == 0 && Sound(mem, [], q)
    ensures Sound(mem, [], q[1..]) && Stream(mem, q[1..]) == Stream(mem, q)
  {
    assert [] + Window(mem, q[0].address, q[0].length) == [];
  }

  /** Soundness and stream of a queue, spelled out for its first window. */
  lemma SoundOne(mem: Mem, before: seq<Byte>, c: Chunk, B: seq<Chunk>)
    ensures Sound(mem, before, [c] + B) <==>
      ChunkIn(mem, before, c, B) && Sound(mem, before + Window(mem, c.address, c.length), B)
    ensures Stream(mem, [c] + B) == Window(mem, c.address, c.length) + Stream(mem, B)
  {
    assert ([c] + B)[1..] == B;
  }

  function Lowered(b: Chunk, k: nat): Chunk
    requires k <= b.address
  {
    b.(address := b.address - k, length := b.length + k)
  }

  lemma LoweredIn(mem: Mem, before: seq<Byte>, b: Chunk, B: seq<Chunk>, k: nat)
    requires ChunkIn(mem, before, b, B) && b.mb.buffer.address + k <= b.address
    ensures ChunkIn(mem, [], Lowered(b, k), B)
  {
  }

  /** The front window moves, whole, below the second one, where the same bytes lie. */
  lemma FoldFront(mem: Mem, f: Chunk, b: Chunk, B: seq<Chunk>)
    requires Sound(mem, [], [f, b] + B)
    requires b.mb.buffer.address + f.length <= b.address
    requires Window(mem, b.address - f.length, f.length) == Window(mem, f.address, f.length)
    ensures Sound(mem, [], [Lowered(b, f.length)] + B)
    ensures Stream(mem, [Lowered(b, f.length)] + B) == Stream(mem, [f, b] + B)
  {
    var wf, wb, w := Window(mem, f.address, f.length), Window(mem, b.address, b.length),
      Window(mem, b.address - f.length, f.length + b.length);
    SoundTwo(mem, [], f, b, B);
    assert w == wf + wb by { WindowSplit(mem, b.address - f.length, f.length, b.length); }
    assert ChunkIn(mem, [], Lowered(b, f.length), B) by { LoweredIn(mem, [] + wf, b, B, f.length); }
    assert Sound(mem, [] + w, B);
    SoundOne(mem, [], Lowered(b, f.length), B);
  }

  /** A spent last window can be dropped; a sound window can be appended. */
  lemma {:induction false} Append(mem: Mem, before: seq<Byte>, q: seq<Chunk>, c: Chunk)
    requires Sound(mem, before, q)
    requires ChunkIn(mem, before + Stream(mem, q), c, [])
    requires forall i :: 0 <= i < |q| && q[i].Slab() == c.Slab() && c.Slab().circular && ChunkOk(q[i]) ==>
      Offset(q[i]) + SlabBytes(q[i..], c.Slab()) + c.length <= c.Slab().length
    ensures Sound(mem, before, q + [c])
    ensures Stream(mem, q + [c]) == Stream(mem, q) + Window(mem, c.address, c.length)
    decreases |q|
  {
    StreamConcat(mem, q, [c]);
    StreamOne(mem, c);
    if q == [] {
      assert q + [c] == [c];
      assert before + Stream(mem, q) == before;
    } else {
      var w := Window(mem, q[0].address, q[0].length);
      assert (q + [c])[1..] == q[1..] + [c];
      assert before + Stream(mem, q) == (before + w) + Stream(mem, q[1..]);
      forall i | 0 <= i < |q[1..]| && q[1..][i].Slab() == c.Slab() && c.Slab().circular && ChunkOk(q[1..][i])
        ensures Offset(q[1..][i]) + SlabBytes(q[1..][i..], c.Slab()) + c.length <= c.Slab().length
      {
        assert q[1..][i] == q[i + 1] && q[1..][i..] == q[i + 1..];
      }
      Append(mem, before + w, q[1..], c);
      SlabBytesConcat(q[1..], [c], q[0].Slab());
      assert [c][1..] == [];
      assert q[0..] == q;
    }
  }

  /** An empty window at the base of a neighbouring buffer changes nothing. */
  lemma AppendEmpty(mem: Mem, q: seq<Chunk>, c: Chunk)
    requires q != [] && QueueOk(mem, q)
    requires c.length == 0 && c.address == c.mb.buffer.address && ChunkOk(c)
    requires q[|q| - 1].Slab() == c.Slab() && Tiled(q[|q| - 1], c)
    ensures QueueOk(mem, q + [c]) && Stream(mem, q + [c]) == Stream(mem, q)
  {
    forall i | 0 <= i < |q| && ChunkOk(q[i]) && c.Slab().circular && q[i].Slab() == c.Slab()
      ensures Offset(q[i]) + SlabBytes(q[i..], c.Slab()) + c.length <= c.Slab().length
    {
      SoundAt(mem, [], q, i);
    }
    SoundAt(mem, [], q, |q| - 1);
    AppendedBuffers(q, c);
    hide Sound, Stream, SlabBytes, AllApart, AllTiled, ChunkIn;
    Append(mem, [], q, c);
  }

  lemma AppendedBuffers(q: seq<Chunk>, c: Chunk)
    requires q != [] && AllApart(q) && AllTiled(q) && q[|q| - 1].Slab() == c.Slab() && Tiled(q[|q| - 1], c)
    ensures AllApart(q + [c]) && AllTiled(q + [c])
  {
    var all := q + [c];
    forall i | 0 < i < |all| ensures Tiled(all[i - 1], all[i]) {
      if i < |q| { assert Tiled(q[i - 1], q[i]); }
    }
    forall i, j | 0 <= i < j < |all| ensures Apart(all[i].Slab(), all[j].Slab()) {
      if j < |q| { assert Apart(q[i].Slab(), q[j].Slab()); }
      else if i < |q| - 1 { assert Apart(q[i].Slab(), q[|q| - 1].Slab()); }
    }
  }

  /** Each window of a sound queue is fine on its own and within one turn of the end. */
  lemma {:induction false} SoundAt(mem: Mem, before: seq<Byte>, q: seq<Chunk>, i: nat)
    requires i < |q| && Sound(mem, before, q)
    ensures ChunkOk(q[i]) && Periodic(mem, q[i].Slab())
    ensures q[i].Slab().circular ==> Offset(q[i]) + SlabBytes(q[i..], q[i].Slab()) <= q[i].Slab().length
    decreases |q|
  {
    if i > 0 {
      SoundAt(mem, before + Window(mem, q[0].address, q[0].length), q[1..], i - 1);
      assert q[1..][i - 1..] == q[i..];
    } else {
      assert q[0..] == q;
    }
  }

  lemma {:induction false} DropSpentLast(mem: Mem, before: seq<Byte>, q: seq<Chunk>)
    requires q != [] && q[|q| - 1].length == 0 && Sound(mem, before, q)
    ensures Sound(mem, before, q[..|q| - 1]) && Stream(mem, q[..|q| - 1]) == Stream(mem, q)
    ensures forall s: Slab :: SlabBytes(q[..|q| - 1], s) == SlabBytes(q, s)
    decreases |q|
  {
    var p := q[..|q| - 1];
    if |q| > 1 {
      assert q[1..][..|q| - 2] == p[1..];
      DropSpentLast(mem, before + Window(mem, q[0].address, q[0].length), q[1..]);
    }
  }

  /** Memory may change wherever no held buffer looks. */
  ghost predicate Untouched(mem: Mem, mem': Mem, q: seq<Chunk>) {
    forall i :: 0 <= i < |q| ==>
      && (forall a: nat :: q[i].mb.buffer.address <= a < q[i].End() ==> mem'(a) == mem(a))
      && (Periodic(mem, q[i].Slab()) ==> Periodic(mem', q[i].Slab()))
  }

  lemma {:induction false} SoundFrame(mem: Mem, mem': Mem, before: seq<Byte>, q: seq<Chunk>)
    requires Sound(mem, before, q) && Untouched(mem, mem', q)
    ensures Sound(mem', before, q) && Stream(mem', q) == Stream(mem, q)
    decreases |q|
  {
    if q != [] {
      var c := q[0];
      assert Window(mem', c.address, c.length) == Window(mem, c.address, c.length);
      forall i | 0 <= i < |q[1..]|
        ensures (forall a: nat :: q[1..][i].mb.buffer.address <= a < q[1..][i].End() ==> mem'(a) == mem(a))
        ensures Periodic(mem, q[1..][i].Slab()) ==> Periodic(mem', q[1..][i].Slab())
      {
        assert q[1..][i] == q[i + 1];
      }
      SoundFrame(mem, mem', before + Window(mem, c.address, c.length), q[1..]);
    }
  }

  // ---------- when windows may be merged ----------

  /** The test of the amalgamation loop. */
  predicate Adjoins(f: Chunk, b: Chunk) {
    b.address == f.End() || b.GetAlias() == f.End()
  }

  lemma SoundNeighbours(mem: Mem, before: seq<Byte>, A: seq<Chunk>, f: Chunk, b: Chunk, B: seq<Chunk>)
    requires Sound(mem, before, A + [f, b] + B)
    ensures ChunkOk(f) && ChunkOk(b) && Periodic(mem, b.Slab()) && Reaches(f, [b] + B) && Reaches(b, B)
    decreases |A|
  {
    var q := A + [f, b] + B;
    if A == [] {
      assert q == [f, b] + B;
      SoundTwo(mem, before, f, b, B);
    } else {
      assert q[1..] == A[1..] + [f, b] + B;
      SoundNeighbours(mem, before + Window(mem, A[0].address, A[0].length), A[1..], f, b, B);
    }
  }

  /** Whenever the loop merges two neighbours, by address or by alias, the bytes are the same. */
  lemma MergeIsTransfer(mem: Mem, f: Chunk, b: Chunk, B: seq<Chunk>)
    requires ChunkOk(f) && ChunkOk(b) && Reaches(f, [b] + B) && Reaches(b, B) && Periodic(mem, b.Slab())
    requires Apart(f.Slab(), b.Slab()) && Adjoins(f, b)
    ensures CanTransfer(mem, f, b, b.length)
  {
    assert ([b] + B)[1..] == B;
    if b.address != f.End() {
      var s := b.Slab();
      forall i | 0 <= i < b.length
        ensures Window(mem, f.End(), b.length)[i] == Window(mem, b.address, b.length)[i]
      {
        assert Mirror(s, b.address + i) == f.End() + i;
      }
      assert Window(mem, f.End(), b.length) == Window(mem, b.address, b.length);
    }
  }

  /** One step of the amalgamation loop, on the queue. */
  function Merged(q: seq<Chunk>, i: nat): seq<Chunk>
    requires 1 <= i < |q|
  {
    q[i - 1 := Grown(q[i - 1], q[i].length)][i := Advanced(q[i], q[i].length)]
  }

  lemma MergedIs(q: seq<Chunk>, i: nat)
    requires 1 <= i < |q|
    ensures |Merged(q, i)| == |q| && forall j :: 0 <= j < |q| ==> Merged(q, i)[j].mb == q[j].mb
    ensures Merged(q, i)[0].address == q[0].address && Merged(q, i)[0].length >= q[0].length
  {
  }

  lemma MergeStep(mem: Mem, q: seq<Chunk>, i: nat)
    requires 1 <= i < |q| && QueueOk(mem, q) && Adjoins(q[i - 1], q[i])
    ensures QueueOk(mem, Merged(q, i)) && Stream(mem, Merged(q, i)) == Stream(mem, q)
  {
    hide Sound, Stream, Window, ChunkIn, ChunkOk, Reaches, Adjoins;
    var A, f, b, B := q[..i - 1], q[i - 1], q[i], q[i + 1..];
    assert q == A + [f, b] + B;
    assert Merged(q, i) == A + [Grown(f, b.length), Advanced(b, b.length)] + B;
    SameBuffers(q, Merged(q, i));
    assert Apart(q[i - 1].Slab(), q[i].Slab());
    MergeHere(mem, A, f, b, B);
  }

  lemma MergeHere(mem: Mem, A: seq<Chunk>, f: Chunk, b: Chunk, B: seq<Chunk>)
    requires Sound(mem, [], A + [f, b] + B) && Apart(f.Slab(), b.Slab()) && Adjoins(f, b)
    ensures Sound(mem, [], A + [Grown(f, b.length), Advanced(b, b.length)] + B)
    ensures Stream(mem, A + [Grown(f, b.length), Advanced(b, b.length)] + B) == Stream(mem, A + [f, b] + B)
  {
    hide *;
    SoundNeighbours(mem, [], A, f, b, B);
    MergeIsTransfer(mem, f, b, B);
    Transfer(mem, [], A, f, b, B, b.length);
  }

  lemma SameBuffers(q: seq<Chunk>, q': seq<Chunk>)
    requires |q'| <= |q| && forall i :: 0 <= i < |q'| ==> q'[i].mb == q[i].mb
    requires AllApart(q) && AllTiled(q)
    ensures AllApart(q') && AllTiled(q')
  {
  }

  lemma TailBuffers(q: seq<Chunk>)
    requires q != [] && AllApart(q) && AllTiled(q)
    ensures AllApart(q[1..]) && AllTiled(q[1..])
  {
    var t := q[1..];
    assert forall i :: 0 <= i < |t| ==> t[i] == q[i + 1];
    forall i | 0 < i < |t| ensures Tiled(t[i - 1], t[i]) {
      assert Tiled(q[i + 1 - 1], q[i + 1]);
    }
  }

  /** The queue with its front window folded into the second one. */
  function Folded(q: seq<Chunk>): seq<Chunk>
    requires |q| > 1 && q[0].length <= q[1].address
  {
    [Lowered(q[1], q[0].length)] + q[2..]
  }

  lemma FoldedOk(mem: Mem, q: seq<Chunk>)
    requires |q| > 1 && QueueOk(mem, q)
    requires q[1].mb.buffer.address + q[0].length <= q[1].address
    requires Window(mem, q[1].address - q[0].length, q[0].length) == Window(mem, q[0].address, q[0].length)
    ensures QueueOk(mem, Folded(q)) && Stream(mem, Folded(q)) == Stream(mem, q)
  {
    assert q == [q[0], q[1]] + q[2..];
    FoldFront(mem, q[0], q[1], q[2..]);
    TailBuffers(q);
    SameBuffers(q[1..], Folded(q));
  }

  /** The pool give-back: a short enough rest of the front window lies below the second one as well. */
  lemma GiveBack(mem: Mem, q: seq<Chunk>)
    requires |q| > 1 && QueueOk(mem, q)
    requires q[1].mb.buffer.address + q[0].length <= q[1].address
    ensures QueueOk(mem, Folded(q)) && Stream(mem, Folded(q)) == Stream(mem, q)
  {
    var f, b := q[0], q[1];
    assert q == [f, b] + q[2..];
    SoundTwo(mem, [], f, b, q[2..]);
    GiveBackBytes(mem, f, b);
    FoldedOk(mem, q);
  }

  lemma GiveBackBytes(mem: Mem, f: Chunk, b: Chunk)
    requires b.mb.buffer.address + f.length <= b.address
    requires Coherent(mem, b, [] + Window(mem, f.address, f.length))
    ensures Window(mem, b.address - f.length, f.length) == Window(mem, f.address, f.length)
  {
    var w, v := [] + Window(mem, f.address, f.length), Window(mem, b.address - f.length, f.length);
    forall i | 0 <= i < f.length ensures v[i] == Window(mem, f.address, f.length)[i] {
      assert Last(w, f.length - i) == w[i];
    }
  }

  /** The front window has left its own buffer and ends where the second one starts. */
  lemma MoveOn(mem: Mem, q: seq<Chunk>)
    requires |q| > 1 && QueueOk(mem, q)
    requires q[0].address >= q[0].mb.buffer.End() && q[0].End() == q[1].address
    ensures QueueOk(mem, Folded(q)) && Stream(mem, Folded(q)) == Stream(mem, q)
  {
    var f, b := q[0], q[1];
    assert q == [] + [f, b] + q[2..];
    SoundNeighbours(mem, [], [], f, b, q[2..]);
    assert Tiled(q[1 - 1], q[1]);
    FoldedOk(mem, q);
  }

  // ---------- copying into a pool buffer ----------

  /** p is a window of a plain slab that no window of q lies in. */
  predicate Outside(p: Chunk, q: seq<Chunk>) {
    !p.Slab().circular && forall i :: 0 <= i < |q| ==> q[i].Slab() != p.Slab()
  }

  lemma {:induction false} SlabExtent(mem: Mem, before: seq<Byte>, q: seq<Chunk>, i: nat)
    requires i < |q| && Sound(mem, before, q)
    ensures q[i].Slab().base <= q[i].mb.buffer.address <= q[i].address && q[i].End() <= q[i].Slab().Top()
  {
    SoundAt(mem, before, q, i);
    assert q[i..][0] == q[i];
  }

  /** Writing behind the end of p, inside p's slab, disturbs nothing that is queued. */
  lemma CopyUntouched(mem: Mem, p: Chunk, q: seq<Chunk>, src: nat, k: nat)
    requires QueueOk(mem, [p] + q) && Outside(p, q)
    requires p.End() + k <= p.Slab().Top()
    ensures Untouched(mem, Copy(mem, p.End(), src, k), [p] + q)
  {
    var all, mem' := [p] + q, Copy(mem, p.End(), src, k);
    SlabExtent(mem, [], all, 0);
    forall i | 0 <= i < |all|
      ensures (forall a: nat :: all[i].mb.buffer.address <= a < all[i].End() ==> mem'(a) == mem(a))
      ensures Periodic(mem, all[i].Slab()) ==> Periodic(mem', all[i].Slab())
    {
      if i > 0 {
        SlabExtent(mem, [], all, i);
        assert Apart(all[0].Slab(), all[i].Slab());
      }
    }
  }

  /** One round of the copy loop of require: k bytes of the front window are copied behind p. */
  lemma CopyStep(mem: Mem, p: Chunk, q: seq<Chunk>, k: nat)
    requires q != [] && QueueOk(mem, [p] + q) && Outside(p, q)
    requires k <= q[0].length && p.End() + k <= p.Slab().Top()
    ensures var mem' := Copy(mem, p.End(), q[0].address, k);
      && QueueOk(mem', [Grown(p, k), Advanced(q[0], k)] + q[1..])
      && Stream(mem', [Grown(p, k), Advanced(q[0], k)] + q[1..]) == Stream(mem, [p] + q)
  {
    var mem' := Copy(mem, p.End(), q[0].address, k);
    var after := [Grown(p, k), Advanced(q[0], k)] + q[1..];
    CopyUntouched(mem, p, q, q[0].address, k);
    SoundFrame(mem, mem', [], [p] + q);
    assert [p] + q == [] + [p, q[0]] + q[1..];
    assert after == [] + [Grown(p, k), Advanced(q[0], k)] + q[1..];
    assert CanTransfer(mem', p, q[0], k) by {
      CopyReads(mem, p, q, k);
      SoundNeighbours(mem, [], [], p, q[0], q[1..]);
    }
    hide Sound, Window, Stream, ChunkIn;
    Transfer(mem', [], [], p, q[0], q[1..], k);
    SameBuffers([p] + q, after);
  }

  lemma CopyReads(mem: Mem, p: Chunk, q: seq<Chunk>, k: nat)
    requires q != [] && QueueOk(mem, [p] + q) && Outside(p, q)
    requires k <= q[0].length && p.End() + k <= p.Slab().Top()
    ensures var mem' := Copy(mem, p.End(), q[0].address, k);
      Window(mem', p.End(), k) == Window(mem', q[0].address, k)
  {
    SlabExtent(mem, [], [p] + q, 0);
    SlabExtent(mem, [], [p] + q, 1);
    assert Apart(([p] + q)[0].Slab(), ([p] + q)[1].Slab());
    assert ([p] + q)[0] == p && ([p] + q)[1] == q[0] && q[0].Slab() != p.Slab();
  }

  /** A spent window behind a window of another slab can be dropped. */
  lemma DropSecond(mem: Mem, p: Chunk, e: Chunk, B: seq<Chunk>)
    requires QueueOk(mem, [p, e] + B) && e.length == 0 && Outside(p, B)
    ensures QueueOk(mem, [p] + B) && Stream(mem, [p] + B) == Stream(mem, [p, e] + B)
  {
    SoundTwo(mem, [], p, e, B);
    SoundOne(mem, [], p, B);
    var w := Window(mem, p.address, p.length);
    assert w + Window(mem, e.address, e.length) == w;
    assert ChunkIn(mem, [], p, B);
    DropSecondBuffers(p, e, B);
  }

  lemma DropSecondBuffers(p: Chunk, e: Chunk, B: seq<Chunk>)
    requires AllApart([p, e] + B) && AllTiled([p, e] + B) && Outside(p, B)
    ensures AllApart([p] + B) && AllTiled([p] + B)
  {
    var q, q' := [p, e] + B, [p] + B;
    forall i, j | 0 <= i < j < |q'| ensures Apart(q'[i].Slab(), q'[j].Slab()) {
      assert q'[j] == q[j + 1] && q'[i] == q[if i == 0 then 0 else i + 1];
    }
    assert forall i :: 0 < i < |q'| ==> q'[i] == q[i + 1];
    forall i | 0 < i < |q'| ensures Tiled(q'[i - 1], q'[i]) {
      assert Tiled(q[i + 1 - 1], q[i + 1]);
    }
  }

  /** An empty window of another slab can be put in front. */
  lemma PutFront(mem: Mem, p: Chunk, q: seq<Chunk>)
    requires QueueOk(mem, q) && Outside(p, q) && ChunkOk(p) && p.length == 0
    requires forall i :: 0 <= i < |q| ==> Apart(p.Slab(), q[i].Slab())
    ensures QueueOk(mem, [p] + q) && Stream(mem, [p] + q) == Stream(mem, q)
  {
    SoundOne(mem, [], p, q);
    assert [] + Window(mem, p.address, p.length) == [];
    var all := [p] + q;
    assert forall i :: 0 < i < |all| ==> all[i] == q[i - 1];
    forall i | 0 < i < |all| ensures Tiled(all[i - 1], all[i]) {
      if i > 1 {
        assert Tiled(q[i - 1 - 1], q[i - 1]);
      }
    }
  }

  /** Memory differs at most between lo and hi. */
  ghost predicate ChangedIn(mem: Mem, mem': Mem, lo: nat, hi: nat) {
    forall a: nat :: mem'(a) != mem(a) ==> lo <= a < hi
  }

  lemma CopyChanges(mem0: Mem, mem: Mem, lo: nat, hi: nat, dst: nat, src: nat, k: nat)
    requires ChangedIn(mem0, mem, lo, hi) && lo <= dst && dst + k <= hi
    ensures ChangedIn(mem0, Copy(mem, dst, src, k), lo, hi)
  {
  }

  /** The queue after its first k bytes were copied away. */
  function Drained(q: seq<Chunk>, k: nat): seq<Chunk>
    requires q != [] && k <= q[0].length
  {
    if q[0].length == k then q[1..] else q[0 := Advanced(q[0], k)]
  }

  /** The stream s, part of it already copied into p. */
  ghost predicate Copying(mem: Mem, p: Chunk, q: seq<Chunk>, s: seq<Byte>) {
    QueueOk(mem, [p] + q) && Stream(mem, [p] + q) == s && Outside(p, q)
  }

  lemma CopyRound(mem: Mem, p: Chunk, q: seq<Chunk>, k: nat, s: seq<Byte>)
    requires q != [] && Copying(mem, p, q, s)
    requires k <= q[0].length && p.End() + k <= p.Slab().Top()
    ensures Copying(Copy(mem, p.End(), q[0].address, k), Grown(p, k), Drained(q, k), s)
  {
    CopyStep(mem, p, q, k);
    var p', e := Grown(p, k), Advanced(q[0], k);
    if q[0].length == k {
      DropSecond(Copy(mem, p.End(), q[0].address, k), p', e, q[1..]);
    } else {
      assert [p'] + Drained(q, k) == [p', e] + q[1..];
    }
  }

  // ---------- where the guards of the source are not enough ----------

  /**
    The pool give-back tests only how far the second window lies above its buffer's base. It keeps
    the stream exactly when the bytes found there are the rest of the front window.
   */
  lemma GiveBackExact(mem: Mem, q: seq<Chunk>)
    requires |q| > 1 && q[0].length <= q[1].address
    ensures Stream(mem, Folded(q)) == Stream(mem, q) <==>
      Window(mem, q[1].address - q[0].length, q[0].length) == Window(mem, q[0].address, q[0].length)
  {
    var f, b, B := q[0], q[1], q[2..];
    var below, wf, wb := Window(mem, b.address - f.length, f.length), Window(mem, f.address, f.length),
      Window(mem, b.address, b.length);
    assert q == [f, b] + B;
    FoldStreams(mem, f, b, B);
    hide Stream, Window;
    PrefixCancels(below, wf, wb + Stream(mem, B));
  }

  lemma FoldStreams(mem: Mem, f: Chunk, b: Chunk, B: seq<Chunk>)
    requires f.length <= b.address
    ensures var rest := Window(mem, b.address, b.length) + Stream(mem, B);
      && Stream(mem, [f, b] + B) == Window(mem, f.address, f.length) + rest
      && Stream(mem, [Lowered(b, f.length)] + B) == Window(mem, b.address - f.length, f.length) + rest
  {
    var below, wf, wb := Window(mem, b.address - f.length, f.length), Window(mem, f.address, f.length),
      Window(mem, b.address, b.length);
    SoundTwo(mem, [], f, b, B);
    SoundOne(mem, [], Lowered(b, f.length), B);
    WindowSplit(mem, b.address - f.length, f.length, b.length);
    hide *;
    assert wf + wb + Stream(mem, B) == wf + (wb + Stream(mem, B));
    assert below + wb + Stream(mem, B) == below + (wb + Stream(mem, B));
  }

  lemma PrefixCancels(a: seq<Byte>, b: seq<Byte>, w: seq<Byte>)
    requires |a| == |b|
    ensures a + w == b + w <==> a == b
  {
    assert (a + w)[..|a|] == a && (b + w)[..|b|] == b;
  }

  /**
    A window that starts one byte into its buffer, behind a byte that is not the one queued before
    it, passes the guard of the give-back and has its stream corrupted by it.
   */
  lemma GiveBackCorrupts() returns (mem: Mem, q: seq<Chunk>)
    ensures |q| == 2 && ChunkOk(q[0]) && ChunkOk(q[1]) && AllApart(q) && AllTiled(q)
    ensures q[0].length <= q[1].address - q[1].mb.buffer.address
    ensures Stream(mem, Folded(q)) != Stream(mem, q)
  {
    mem := (a: nat) => if a == 100 then 1 else 0;
    var pool := ManagedBuffer(1, SharedBuffer(100, 8, Slab(100, 8, false)));
    var user := ManagedBuffer(2, SharedBuffer(200, 8, Slab(200, 8, false)));
    q := [Chunk(100, 1, pool, 0), Chunk(201, 1, user, 0)];
    GiveBackExact(mem, q);
    assert Window(mem, 200, 1)[0] != Window(mem, 100, 1)[0];
  }

  /** The queue after the amalgamation loop has come from the back to window i. */
  function Amalgamated(q: seq<Chunk>, i: nat): seq<Chunk>
    requires i < |q|
    decreases i
  {
    if i >= 1 && Adjoins(q[i - 1], q[i]) then Amalgamated(Merged(q, i), i - 1) else q
  }

  /** The queue less a spent last window whose buffer its predecessor also holds. */
  function Trimmed(q: seq<Chunk>): seq<Chunk> {
    var n := |q| - 1;
    if n >= 1 && q[n].mb.id == q[n - 1].mb.id && q[n].length == 0 then q[..n] else q
  }

  /** Is the second window known to start at or above its buffer's base? */
  predicate SecondAbove(q: seq<Chunk>) {
    |q| > 1 ==> q[1].mb.buffer.address <= q[1].address
  }

  /** The queue after the three cases of pop. */
  function Settled(q: seq<Chunk>, inPool: bool): seq<Chunk>
    requires q != [] && SecondAbove(q)
  {
    if inPool && |q| > 1 && q[0].length <= q[1].address - q[1].mb.buffer.address then Folded(q)
    else if q[0].length == 0 then q[1..]
    else if |q| > 1 && q[0].address >= q[0].mb.buffer.End() && q[0].End() == q[1].address then Folded(q)
    else q
  }

  function WithoutSpent(q: seq<Chunk>): seq<Chunk> {
    if q != [] && q[0].length == 0 then WithoutSpent(q[1..]) else q
  }

  /** The queue after pop, but for the placeholder. */
  function Popped(q: seq<Chunk>, inPool: bool, n: nat): seq<Chunk>
    requires q != [] && n <= q[0].length && SecondAbove(q)
  {
    WithoutSpent(Settled(q[0 := Advanced(q[0], n)], inPool))
  }

  /** q' is q from its first window that is not spent. */
  predicate Skips(q: seq<Chunk>, q': seq<Chunk>) {
    var n := |q| - |q'|;
    && n >= 0 && q' == q[n..]
    && (forall i :: 0 <= i < n ==> q[i].length == 0)
    && (q' != [] ==> q'[0].length > 0)
  }

  /** Does the second window reach down as far as its own buffer goes, for the last d bytes of the first? */
  predicate RoomBelow(q: seq<Chunk>, d: nat) {
    |q| > 1 && q[1].mb.buffer.address + d <= q[1].address
  }

  /** Once n bytes are gone, is the front window past its own buffer, and does the second one go on from it? */
  predicate PassedOver(q: seq<Chunk>, n: nat) {
    |q| > 1 && q[0].address + n >= q[0].mb.buffer.address + q[0].mb.buffer.length && q[1].address == q[0].End()
  }

  /**
    What pop makes of the queue. The rest of the front window moves below the second one if the front is
    a pool buffer and there is room, or if it lies past its own buffer; otherwise it stays. Nothing but
    spent windows is dropped beside it.
   */
  predicate AfterPop(q: seq<Chunk>, inPool: bool, n: nat, q': seq<Chunk>, inPool': bool)
    requires q != [] && n <= q[0].length
  {
    var d := q[0].length - n;
    var moved := (inPool && RoomBelow(q, d)) || PassedOver(q, n);
    && (d == 0 ==> Skips(q[1..], q'))
    && (d > 0 && moved ==>
          && |q'| == |q| - 1 && q'[1..] == q[2..]
          && q'[0].mb == q[1].mb && q'[0].End() == q[1].End() && q'[0].length == d + q[1].length)
    && (d > 0 && !moved ==>
          && |q'| == |q| && q'[1..] == q[1..]
          && q'[0].mb == q[0].mb && q'[0].End() == q[0].End() && q'[0].length == d)
    && (inPool' <==> inPool && d > 0 && !moved)
  }

  lemma {:induction false} WithoutSpentSkips(q: seq<Chunk>)
    ensures Skips(q, WithoutSpent(q))
  {
    if q != [] && q[0].length == 0 {
      WithoutSpentSkips(q[1..]);
      assert forall i :: 0 < i < |q| ==> q[i] == q[1..][i - 1];
    }
  }

  lemma PoppedExact(q: seq<Chunk>, inPool: bool, n: nat)
    requires q != [] && n <= q[0].length && SecondAbove(q)
    ensures var s := Settled(q[0 := Advanced(q[0], n)], inPool);
      AfterPop(q, inPool, n, Popped(q, inPool, n), inPool && |s| == |q|)
  {
    var q1 := q[0 := Advanced(q[0], n)];
    var s := Settled(q1, inPool);
    assert q1[1..] == q[1..];
    if q[0].length == n {
      assert s == q[1..];
      WithoutSpentSkips(q[1..]);
    } else {
      assert WithoutSpent(s) == s;
    }
  }

  /** Do the d bytes below b, if its buffer has them, repeat the end of the window p? */
  ghost predicate RepeatsLast(mem: Mem, p: Chunk, b: Chunk, d: nat)
    requires b.mb.buffer.address <= b.address
  {
    d <= Offset(b) && d <= p.length ==> Window(mem, b.address - d, d) == Window(mem, p.End() - d, d)
  }

  lemma CoherentIsRepeats(mem: Mem, p: Chunk, b: Chunk)
    requires b.mb.buffer.address <= b.address
    ensures Coherent(mem, b, Window(mem, p.address, p.length)) <==>
      forall d: nat :: RepeatsLast(mem, p, b, d)
  {
    var w := Window(mem, p.address, p.length);
    if Coherent(mem, b, w) {
      forall d: nat ensures RepeatsLast(mem, p, b, d) {
        if d <= Offset(b) && d <= p.length {
          var below, last := Window(mem, b.address - d, d), Window(mem, p.End() - d, d);
          forall i | 0 <= i < d ensures below[i] == last[i] {
            assert mem(b.address - (d - i)) == Last(w, d - i);
          }
          assert below == last;
        }
      }
    }
    if forall d: nat :: RepeatsLast(mem, p, b, d) {
      forall d: nat | 0 < d <= Offset(b) && d <= |w| ensures mem(b.address - d) == Last(w, d) {
        assert RepeatsLast(mem, p, b, d);
        assert Window(mem, b.address - d, d)[0] == Window(mem, p.End() - d, d)[0];
      }
    }
  }

  lemma AdvancedStream(mem: Mem, p: Chunk, n: nat, B: seq<Chunk>)
    requires n <= p.length
    ensures Stream(mem, [Advanced(p, n)] + B) == Stream(mem, [p] + B)[n..]
  {
    var p' := Advanced(p, n);
    assert ([p] + B)[1..] == B && ([p'] + B)[1..] == B;
    WindowSplit(mem, p.address, n, p.length - n);
    var w, w', rest := Window(mem, p.address, p.length), Window(mem, p'.address, p'.length), Stream(mem, B);
    assert w == Window(mem, p.address, n) + w';
    assert (w + rest)[n..] == w' + rest;
  }

  /** Does pop drop the first n bytes of the stream when the window p in front is from the pool? */
  ghost predicate PopsRight(mem: Mem, p: Chunk, b: Chunk, B: seq<Chunk>, n: nat)
    requires b.mb.buffer.address <= b.address
  {
    n <= p.length ==> Stream(mem, Popped([p, b] + B, true, n)) == Stream(mem, [p, b] + B)[n..]
  }

  /** A pop is right exactly if it gives nothing back, or the bytes it gives back lie below the second window. */
  lemma PopExact(mem: Mem, p: Chunk, b: Chunk, B: seq<Chunk>, n: nat)
    requires p.End() <= p.mb.buffer.End() && n <= p.length && b.length > 0 && b.mb.buffer.address <= b.address
    ensures var d := p.length - n;
      PopsRight(mem, p, b, B, n) <==> RepeatsLast(mem, p, b, d)
  {
    var q, f, d := [p, b] + B, Advanced(p, n), p.length - n;
    var q' := q[0 := f];
    assert q == [p] + ([b] + B) && q' == [f] + ([b] + B);
    AdvancedStream(mem, p, n, [b] + B);
    assert q'[0] == f && q'[1] == b && q'[2..] == B;
    if d <= Offset(b) {
      assert Settled(q', true) == Folded(q') == [Lowered(b, d)] + B;
      assert WithoutSpent(Folded(q')) == Folded(q');
      GiveBackExact(mem, q');
    } else {
      assert Settled(q', true) == q' && WithoutSpent(q') == q';
    }
  }

  /**
    The coherence that push asks for is what the give-back needs: with a pool window in front, every
    pop is right exactly if the bytes below the second window repeat the end of the front window.
   */
  lemma CoherenceNeeded(mem: Mem, p: Chunk, b: Chunk, B: seq<Chunk>)
    requires p.End() <= p.mb.buffer.End() && b.length > 0 && b.mb.buffer.address <= b.address
    ensures (forall n: nat :: PopsRight(mem, p, b, B, n)) <==> Coherent(mem, b, Window(mem, p.address, p.length))
  {
    CoherentIsRepeats(mem, p, b);
    assert forall d: nat :: d > p.length ==> RepeatsLast(mem, p, b, d);
    assert forall n: nat :: n > p.length ==> PopsRight(mem, p, b, B, n);
    hide PopsRight, RepeatsLast, Coherent;
    forall n: nat ensures n <= p.length ==> (PopsRight(mem, p, b, B, n) <==> RepeatsLast(mem, p, b, p.length - n)) {
      if n <= p.length {
        PopExact(mem, p, b, B, n);
      }
    }
    if d: nat :| !RepeatsLast(mem, p, b, d) {
      assert !PopsRight(mem, p, b, B, p.length - d);
    }
  }

  /** A window pushed behind one that it does not adjoin stays as it is. */
  lemma PushedBehind(p: Chunk, b: Chunk)
    requires b.length > 0 && !Adjoins(p, b)
    ensures Trimmed(Amalgamated([p, b], 1)) == [p, b]
  {
  }

  /** An alias merge reads the right bytes, whatever they are, exactly when it stays inside the double mapping. */
  lemma AliasMergeExact(f: Chunk, b: Chunk)
    requires f.Slab() == b.Slab() && b.Slab().circular && b.length > 0
    requires b.Slab().base <= b.address && b.End() <= b.Slab().Top()
    requires f.End() == b.address + b.Slab().length
    ensures (forall mem: Mem :: Periodic(mem, b.Slab()) ==>
      Window(mem, f.End(), b.length) == Window(mem, b.address, b.length))
      <==> f.End() + b.length <= b.Slab().Top()
  {
    var s := b.Slab();
    if f.End() + b.length <= s.Top() {
      forall mem: Mem | Periodic(mem, s) ensures Window(mem, f.End(), b.length) == Window(mem, b.address, b.length) {
        forall i | 0 <= i < b.length ensures Window(mem, f.End(), b.length)[i] == Window(mem, b.address, b.length)[i] {
          assert Mirror(s, b.address + i) == f.End() + i;
        }
      }
    } else {
      var mem: Mem := (a: nat) => if a >= s.Top() then 1 else 0;
      assert Periodic(mem, s);
      assert Window(mem, f.End(), b.length)[b.length - 1] != Window(mem, b.address, b.length)[b.length - 1];
    }
  }

  /**
    One turn of queued bytes is not a safe bound for a circular slab: here exactly slab.length bytes
    are queued after the push, the windows adjoin, and the merged window leaves the double mapping.
    What must fit in one turn is counted from the base of the front window's own buffer.
   */
  lemma OneTurnOfBytesIsNotEnough() returns (f: Chunk, b: Chunk)
    ensures ChunkOk(f) && ChunkOk(b) && f.Slab() == b.Slab() && b.Slab().circular && Tiled(f, b)
    ensures Reaches(f, []) && Reaches(b, []) && Adjoins(f, b)
    ensures SlabBytes([f, b], b.Slab()) == b.Slab().length
    ensures f.End() + b.length > b.Slab().Top() && !Reaches(f, [b])
  {
    var s := Slab(1000, 100, true);
    f := Chunk(1110, 20, ManagedBuffer(1, SharedBuffer(1090, 25, s)), 0);
    b := Chunk(1030, 80, ManagedBuffer(2, SharedBuffer(1030, 25, s)), 3);
    assert [f, b][1..] == [b] && [b][1..] == [];
    assert [f][1..] == [];
  }
}
