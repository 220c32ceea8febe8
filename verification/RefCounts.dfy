/**
  Reference counts of managed buffers (include/Pothos/Framework/ManagedBuffer.hpp,
  lib/Framework/ManagedBuffer.cpp, include/Pothos/Framework/BufferChunk.hpp and
  lib/Framework/BufferChunk.cpp). A chunk refers to its managed buffer and to the next buffers that its
  window runs into. What cleanup does is left to the manager; the model records that it was called.
 */
module RefCounts {
  import opened Values

  type Id = nat

  /** The fixed part of ManagedBuffer::Impl: the end and length of its buffer, and the next in the chain. */
  datatype Impl = Impl(end: int, length: nat, next: Option<Id>)
  type Heap = Id -> Impl

  /** A BufferChunk: end is getEnd(), nexts is _nextBuffers. */
  datatype Chunk = Chunk(end: int, buffer: Option<Id>, nexts: nat)
  const NULL := Chunk(0, None, 0)

  /** Where an object lives: nothing, a ManagedBuffer handle, or a chunk. */
  datatype Slot = Dead | Handle(buffer: Option<Id>) | Live(chunk: Chunk)

  /** No buffer is empty. */
  ghost predicate HeapOk(heap: Heap) {
    forall b {:trigger heap(b)} :: heap(b).length > 0
  }

  // ---------- chains ----------

  /** The n buffers after b in the chain, fewer if it ends. */
  function Chain(heap: Heap, b: Id, n: nat): seq<Id>
    decreases n
  {
    if n == 0 || heap(b).next.None? then [] else [heap(b).next.value] + Chain(heap, heap(b).next.value, n - 1)
  }

  /** The number of next buffers that a window runs into that goes this far past b. */
  ghost function Covered(heap: Heap, b: Id, remain: int): nat
    requires HeapOk(heap)
    decreases if remain > 0 then remain else 0
  {
    if remain <= 0 || heap(b).next.None? then 0
    else 1 + Covered(heap, heap(b).next.value, remain - heap(heap(b).next.value).length)
  }

  lemma {:induction false} CoveredInChain(heap: Heap, b: Id, remain: int)
    requires HeapOk(heap)
    ensures |Chain(heap, b, Covered(heap, b, remain))| == Covered(heap, b, remain)
    decreases if remain > 0 then remain else 0
  {
    if remain > 0 && heap(b).next.Some? {
      CoveredInChain(heap, heap(b).next.value, remain - heap(heap(b).next.value).length);
    }
  }

  predicate ChunkOk(heap: Heap, c: Chunk) {
    match c.buffer
    case None => c.nexts == 0
    case Some(b) => |Chain(heap, b, c.nexts)| == c.nexts
  }

  /** Do the next buffers it holds match its window? */
  ghost predicate Exact(heap: Heap, c: Chunk)
    requires HeapOk(heap)
  {
    c.buffer.Some? ==> c.nexts == Covered(heap, c.buffer.value, c.end - heap(c.buffer.value).end)
  }

  /** The lengths of these buffers, added up. */
  function Bytes(heap: Heap, ids: seq<Id>): nat {
    if ids == [] then 0 else heap(ids[0]).length + Bytes(heap, ids[1..])
  }

  /** The last of these buffers, or b if there is none. */
  function LastOf(b: Id, ids: seq<Id>): Id {
    if ids == [] then b else ids[|ids| - 1]
  }

  /** The buffers ids follow b in the chain, one after the other. */
  predicate InChain(heap: Heap, b: Id, ids: seq<Id>) {
    forall i :: 0 <= i < |ids| ==> heap(LastOf(b, ids[..i])).next == Some(ids[i])
  }

  /**
    The buffers ids, which follow b, hold the bytes that a window has past b, or the chain ends with them;
    without the last of them they do not.
   */
  predicate Spans(heap: Heap, b: Id, remain: int, ids: seq<Id>) {
    && (Bytes(heap, ids) >= remain || heap(LastOf(b, ids)).next.None?)
    && (ids != [] ==> Bytes(heap, ids[..|ids| - 1]) < remain)
  }

  lemma {:induction false} ChainFollows(heap: Heap, b: Id, n: nat)
    ensures InChain(heap, b, Chain(heap, b, n))
    decreases n
  {
    var ids := Chain(heap, b, n);
    if ids != [] {
      ChainFollows(heap, ids[0], n - 1);
      forall i | 0 < i < |ids| ensures heap(LastOf(b, ids[..i])).next == Some(ids[i]) {
        assert ids[..i][1..] == ids[1..][..i - 1];
        assert heap(LastOf(ids[0], ids[1..][..i - 1])).next == Some(ids[1..][i - 1]);
      }
    }
  }

  /** One buffer more in front. */
  lemma SpansStep(heap: Heap, b: Id, remain: int, ids: seq<Id>)
    requires ids != []
    ensures var rest, m := ids[1..], remain - heap(ids[0]).length;
      Spans(heap, b, remain, ids) <==> Spans(heap, ids[0], m, rest) && (rest == [] ==> remain > 0)
  {
    var rest, less := ids[1..], ids[..|ids| - 1];
    if rest != [] {
      assert less[1..] == rest[..|rest| - 1];
    }
  }

  /** The next buffers that a copy counts are those that its window needs: these and no other number of them. */
  lemma {:induction false} CoveredExact(heap: Heap, b: Id, remain: int, n: nat)
    requires HeapOk(heap) && |Chain(heap, b, n)| == n
    ensures n == Covered(heap, b, remain) <==> Spans(heap, b, remain, Chain(heap, b, n))
    decreases n
  {
    var ids := Chain(heap, b, n);
    if n > 0 {
      assert ids[1..] == Chain(heap, ids[0], n - 1);
      CoveredExact(heap, ids[0], remain - heap(ids[0]).length, n - 1);
      SpansStep(heap, b, remain, ids);
      hide Spans;
    }
  }

  /** The next buffers that a chunk holds are those in the chain that its window needs. */
  predicate SpansWindow(heap: Heap, c: Chunk) {
    match c.buffer
    case None => c.nexts == 0
    case Some(b) =>
      var ids := Chain(heap, b, c.nexts);
      |ids| == c.nexts && InChain(heap, b, ids) && Spans(heap, b, c.end - heap(b).end, ids)
  }

  lemma ExactSpans(heap: Heap, c: Chunk)
    requires HeapOk(heap) && ChunkOk(heap, c)
    ensures Exact(heap, c) <==> SpansWindow(heap, c)
  {
    if c.buffer.Some? {
      ChainFollows(heap, c.buffer.value, c.nexts);
      CoveredExact(heap, c.buffer.value, c.end - heap(c.buffer.value).end, c.nexts);
    }
  }

  lemma CountsNexts(heap: Heap, counter: Counters, end: int, b: Id)
    requires HeapOk(heap)
    ensures var n := Covered(heap, b, end - heap(b).end);
      && SpansWindow(heap, Chunk(end, Some(b), n))
      && CountedUp(counter, IncrAll(counter, Chain(heap, b, n)), Chain(heap, b, n))
  {
    var n := Covered(heap, b, end - heap(b).end);
    assert ChunkOk(heap, Chunk(end, Some(b), n)) by { CoveredInChain(heap, b, end - heap(b).end); }
    ExactSpans(heap, Chunk(end, Some(b), n));
    hide IncrAll, CountIn, Chain, SpansWindow;
    forall x: Id ensures IncrAll(counter, Chain(heap, b, n))(x) == counter(x) + CountIn(Chain(heap, b, n), x) {
      IncrAllCounts(counter, Chain(heap, b, n), x);
    }
  }

  /** The buffers a chunk holds, in the order in which it lets go of them. */
  function Refs(heap: Heap, c: Chunk): seq<Id> {
    if c.buffer.None? then [] else Chain(heap, c.buffer.value, c.nexts) + [c.buffer.value]
  }

  function SlotRefs(heap: Heap, s: Slot): seq<Id> {
    match s
    case Dead => []
    case Handle(buffer) => if buffer.None? then [] else [buffer.value]
    case Live(chunk) => Refs(heap, chunk)
  }

  function CountIn(ids: seq<Id>, b: Id): nat {
    multiset(ids)[b]
  }

  // ---------- what live objects hold ----------

  /** How often one object refers to b. */
  function SlotHolds(heap: Heap, s: Slot, b: Id): nat {
    CountIn(SlotRefs(heap, s), b)
  }

  /** How often the live objects refer to b, all together. */
  function Holds(heap: Heap, slots: seq<Slot>, b: Id): nat {
    if slots == [] then 0 else Holds(heap, slots[..|slots| - 1], b) + SlotHolds(heap, slots[|slots| - 1], b)
  }

  lemma {:induction false} HoldsUpdate(heap: Heap, slots: seq<Slot>, i: nat, s: Slot, b: Id)
    requires i < |slots|
    ensures Holds(heap, slots[i := s], b) == Holds(heap, slots, b) - SlotHolds(heap, slots[i], b) + SlotHolds(heap, s,
      b)
  {
    hide SlotHolds;
    var n := |slots| - 1;
    if i < n {
      HoldsUpdate(heap, slots[..n], i, s, b);
      assert slots[i := s][..n] == slots[..n][i := s];
    } else {
      assert slots[i := s][..n] == slots[..n];
    }
  }

  lemma {:induction false} HoldsAtLeast(heap: Heap, slots: seq<Slot>, i: nat, b: Id)
    requires i < |slots|
    ensures Holds(heap, slots, b) >= SlotHolds(heap, slots[i], b)
  {
    if i < |slots| - 1 {
      HoldsAtLeast(heap, slots[..|slots| - 1], i, b);
    }
  }

  // ---------- counting up and down ----------

  type Counters = Id -> int

  /** Each buffer has one count more for every time that it is among ids. */
  ghost predicate CountedUp(counter: Counters, counter': Counters, ids: seq<Id>) {
    forall b: Id :: counter'(b) == counter(b) + CountIn(ids, b)
  }

  function Put(counter: Counters, b: Id, n: int): Counters {
    (x: Id) => if x == b then n else counter(x)
  }

  function IncrAll(counter: Counters, ids: seq<Id>): Counters {
    if ids == [] then counter else IncrAll(Put(counter, ids[0], counter(ids[0]) + 1), ids[1..])
  }

  function DecrAll(counter: Counters, ids: seq<Id>): Counters {
    if ids == [] then counter else DecrAll(Put(counter, ids[0], counter(ids[0]) - 1), ids[1..])
  }

  /** The buffers that are cleaned up on the way. */
  function Drops(counter: Counters, ids: seq<Id>): seq<Id> {
    if ids == [] then []
    else (if counter(ids[0]) == 1 then [ids[0]] else []) + Drops(Put(counter, ids[0], counter(ids[0]) - 1), ids[1..])
  }

  lemma CountFirst(ids: seq<Id>, b: Id)
    requires ids != []
    ensures CountIn(ids, b) == (if ids[0] == b then 1 else 0) + CountIn(ids[1..], b)
  {
    assert ids == [ids[0]] + ids[1..];
  }

  lemma {:induction false} IncrAllCounts(counter: Counters, ids: seq<Id>, b: Id)
    ensures IncrAll(counter, ids)(b) == counter(b) + CountIn(ids, b)
  {
    if ids != [] {
      CountFirst(ids, b);
      IncrAllCounts(Put(counter, ids[0], counter(ids[0]) + 1), ids[1..], b);
    }
  }

  lemma {:induction false} DecrAllCounts(counter: Counters, ids: seq<Id>, b: Id)
    ensures DecrAll(counter, ids)(b) == counter(b) - CountIn(ids, b)
  {
    if ids != [] {
      CountFirst(ids, b);
      DecrAllCounts(Put(counter, ids[0], counter(ids[0]) - 1), ids[1..], b);
    }
  }

  /** A buffer is cleaned up once if its last reference is among those let go, and not at all otherwise. */
  lemma {:induction false} DropsLast(counter: Counters, ids: seq<Id>, b: Id)
    requires counter(b) >= CountIn(ids, b)
    ensures CountIn(Drops(counter, ids), b) == if CountIn(ids, b) > 0 && counter(b) == CountIn(ids, b) then 1 else 0
  {
    if ids != [] {
      CountFirst(ids, b);
      DropsLast(Put(counter, ids[0], counter(ids[0]) - 1), ids[1..], b);
    }
  }

  lemma Associate(a: seq<Id>, b: seq<Id>, c: seq<Id>)
    ensures (a + b) + c == a + (b + c)
  {
  }

  lemma FirstGoes(counter: Counters, ids: seq<Id>)
    requires ids != []
    ensures var less := Put(counter, ids[0], counter(ids[0]) - 1);
      && DecrAll(counter, ids) == DecrAll(less, ids[1..])
      && Drops(counter, ids) == (if counter(ids[0]) == 1 then [ids[0]] else []) + Drops(less, ids[1..])
  {
  }

  lemma {:induction false} GoInTurn(counter: Counters, a: seq<Id>, c: seq<Id>)
    ensures DecrAll(counter, a + c) == DecrAll(DecrAll(counter, a), c)
    ensures Drops(counter, a + c) == Drops(counter, a) + Drops(DecrAll(counter, a), c)
  {
    if a == [] {
      assert a + c == c;
      assert Drops(counter, a) + Drops(counter, c) == Drops(counter, c);
    } else {
      assert (a + c)[0] == a[0] && (a + c)[1..] == a[1..] + c;
      hide DecrAll, Drops, Put;
      FirstGoes(counter, a);
      FirstGoes(counter, a + c);
      var less := Put(counter, a[0], counter(a[0]) - 1);
      GoInTurn(less, a[1..], c);
      Associate(if counter(a[0]) == 1 then [a[0]] else [], Drops(less, a[1..]), Drops(DecrAll(less, a[1..]), c));
    }
  }

  // ---------- conservation ----------

  /** Every counter is the number of references that live objects have. */
  ghost predicate Conserved(heap: Heap, slots: seq<Slot>, counter: Counters) {
    forall b: Id :: counter(b) == Holds(heap, slots, b)
  }

  /** Cleanup was called once for each buffer that lost its last reference, and for no other. */
  ghost predicate CleanedUp(heap: Heap, slots: seq<Slot>, after: seq<Slot>, cleaned: seq<Id>) {
    forall b: Id :: CountIn(cleaned, b) == if Holds(heap, slots, b) > 0 && Holds(heap, after, b) == 0 then 1 else 0
  }

  lemma LetGoOne(heap: Heap, slots: seq<Slot>, counter: Counters, i: nat, s: Slot, b: Id)
    requires Conserved(heap, slots, counter) && i < |slots| && SlotRefs(heap, s) == []
    ensures var ids := SlotRefs(heap, slots[i]);
      && counter(b) >= CountIn(ids, b)
      && DecrAll(counter, ids)(b) == Holds(heap, slots[i := s], b)
      && CountIn(Drops(counter, ids), b) == if Holds(heap, slots, b) > 0 &&
        Holds(heap, slots[i := s], b) == 0 then 1 else 0
  {
    var ids := SlotRefs(heap, slots[i]);
    assert SlotHolds(heap, s, b) == 0 && SlotHolds(heap, slots[i], b) == CountIn(ids, b);
    hide Holds, SlotRefs, SlotHolds, Drops, DecrAll, CountIn;
    HoldsUpdate(heap, slots, i, s, b);
    HoldsAtLeast(heap, slots, i, b);
    DecrAllCounts(counter, ids, b);
    DropsLast(counter, ids, b);
  }

  /** Letting go of everything that one object holds. */
  lemma LetGo(heap: Heap, slots: seq<Slot>, counter: Counters, i: nat, s: Slot)
    requires Conserved(heap, slots, counter) && i < |slots| && SlotRefs(heap, s) == []
    ensures var ids := SlotRefs(heap, slots[i]);
      && Conserved(heap, slots[i := s], DecrAll(counter, ids))
      && CleanedUp(heap, slots, slots[i := s], Drops(counter, ids))
      && forall b: Id :: counter(b) >= CountIn(ids, b)
  {
    hide Holds, SlotRefs, DecrAll, Drops, CountIn, Conserved;
    var ids := SlotRefs(heap, slots[i]);
    forall b: Id
      ensures counter(b) >= CountIn(ids, b) && DecrAll(counter, ids)(b) == Holds(heap, slots[i := s], b)
      ensures CountIn(Drops(counter, ids), b) == if Holds(heap, slots, b) > 0 &&
        Holds(heap, slots[i := s], b) == 0 then 1 else 0
    {
      LetGoOne(heap, slots, counter, i, s, b);
    }
    AllCounted(heap, slots[i := s], DecrAll(counter, ids));
  }

  lemma AllCounted(heap: Heap, slots: seq<Slot>, counter: Counters)
    requires forall b: Id :: counter(b) == Holds(heap, slots, b)
    ensures Conserved(heap, slots, counter)
  {
  }

  lemma TakeUp(heap: Heap, slots: seq<Slot>, counter: Counters, i: nat, s: Slot, ids: seq<Id>)
    requires Conserved(heap, slots, counter) && i < |slots| && SlotRefs(heap, slots[i]) == []
    requires multiset(ids) == multiset(SlotRefs(heap, s))
    ensures Conserved(heap, slots[i := s], IncrAll(counter, ids))
  {
    forall b: Id ensures IncrAll(counter, ids)(b) == Holds(heap, slots[i := s], b) {
      HoldsUpdate(heap, slots, i, s, b);
      assert SlotHolds(heap, slots[i], b) == 0 && SlotHolds(heap, s, b) == CountIn(ids, b);
      hide Holds, IncrAll, SlotRefs, SlotHolds;
      IncrAllCounts(counter, ids, b);
    }
  }

  /** A reference that changes hands changes no count. */
  lemma HandOver(heap: Heap, slots: seq<Slot>, i: nat, j: nat, s: Slot, b: Id)
    requires i < |slots| && j < |slots| && i != j && SlotRefs(heap, slots[i]) == [] && SlotRefs(heap, s) == []
    ensures Holds(heap, slots[i := slots[j]][j := s], b) == Holds(heap, slots, b)
  {
    HoldsUpdate(heap, slots, i, slots[j], b);
    HoldsUpdate(heap, slots[i := slots[j]], j, s, b);
    assert SlotHolds(heap, slots[i], b) == 0 && SlotHolds(heap, s, b) == 0;
  }

  lemma Appended(heap: Heap, slots: seq<Slot>, b: Id)
    ensures Holds(heap, slots + [Dead], b) == Holds(heap, slots, b)
  {
    assert (slots + [Dead])[..|slots|] == slots;
  }

  /** Taking up what another live object holds brings nothing back that was cleaned up. */
  lemma NothingRevived(heap: Heap, before: seq<Slot>, mid: seq<Slot>, i: nat, j: nat, s: Slot, cleaned: seq<Id>)
    requires CleanedUp(heap, before, mid, cleaned)
    requires i < |mid| && j < |mid| && i != j && SlotRefs(heap, mid[i]) == [] &&
      SlotRefs(heap, s) == SlotRefs(heap, mid[j])
    ensures CleanedUp(heap, before, mid[i := s], cleaned)
  {
    forall b: Id ensures Holds(heap, mid[i := s], b) == 0 <==> Holds(heap, mid, b) == 0 {
      HoldsUpdate(heap, mid, i, s, b);
      HoldsAtLeast(heap, mid, j, b);
      assert SlotHolds(heap, mid[i], b) == 0 && SlotHolds(heap, s, b) == SlotHolds(heap, mid[j], b);
    }
    hide Holds, SlotRefs, SlotHolds;
  }

  /** A chunk as a copy of it comes out: with the next buffers that its window runs into. */
  ghost function Recounted(heap: Heap, c: Chunk): Chunk
    requires HeapOk(heap)
  {
    c.(nexts := if c.buffer.None? then 0 else Covered(heap, c.buffer.value, c.end - heap(c.buffer.value).end))
  }

  /** No buffer that a copy of slot j takes up loses its last reference when slot i lets go. */
  ghost predicate LastsThrough(heap: Heap, slots: seq<Slot>, i: nat, j: nat)
    requires HeapOk(heap) && i < |slots| && j < |slots| && slots[j].Live?
  {
    forall b: Id :: b in Refs(heap, Recounted(heap, slots[j].chunk)) && Holds(heap, slots, b) > 0 ==>
      Holds(heap, slots[i := Live(NULL)], b) > 0
  }

  lemma TakenUp(heap: Heap, mid: seq<Slot>, i: nat, s: Slot, b: Id)
    requires i < |mid| && SlotRefs(heap, mid[i]) == []
    ensures Holds(heap, mid[i := s], b) == 0 <==> Holds(heap, mid, b) == 0 && b !in SlotRefs(heap, s)
  {
    HoldsUpdate(heap, mid, i, s, b);
    assert SlotHolds(heap, mid[i], b) == 0;
    assert SlotHolds(heap, s, b) == 0 <==> b !in SlotRefs(heap, s);
  }

  /** Cleanup is still right after taking up s exactly if nothing is taken up that was just cleaned up. */
  lemma RevivedExactly(heap: Heap, before: seq<Slot>, mid: seq<Slot>, i: nat, s: Slot, cleaned: seq<Id>)
    requires CleanedUp(heap, before, mid, cleaned) && i < |mid| && SlotRefs(heap, mid[i]) == []
    ensures CleanedUp(heap, before, mid[i := s], cleaned) <==>
      forall b: Id :: b in SlotRefs(heap, s) && Holds(heap, before, b) > 0 ==> Holds(heap, mid, b) > 0
  {
    forall b: Id
      ensures Holds(heap, mid[i := s], b) == 0 <==> Holds(heap, mid, b) == 0 && b !in SlotRefs(heap, s)
    {
      TakenUp(heap, mid, i, s, b);
    }
    hide Holds, SlotRefs, CountIn;
    if b: Id :| b in SlotRefs(heap, s) && Holds(heap, before, b) > 0 && Holds(heap, mid, b) == 0 {
      assert CountIn(cleaned, b) == 1;
    }
  }

  lemma AssignExactly(heap: Heap, slots: seq<Slot>, i: nat, j: nat, cleaned: seq<Id>)
    requires HeapOk(heap) && i < |slots| && j < |slots| && slots[j].Live?
    requires CleanedUp(heap, slots, slots[i := Live(NULL)], cleaned)
    ensures CleanedUp(heap, slots, slots[i := Live(Recounted(heap, slots[j].chunk))], cleaned) <==>
      LastsThrough(heap, slots, i, j)
  {
    var mid, s := slots[i := Live(NULL)], Live(Recounted(heap, slots[j].chunk));
    assert mid[i := s] == slots[i := s];
    assert SlotRefs(heap, s) == Refs(heap, s.chunk) && SlotRefs(heap, mid[i]) == [];
    hide Holds, CleanedUp, SlotRefs, Refs, Recounted;
    RevivedExactly(heap, slots, mid, i, s, cleaned);
  }

  /** A chunk whose next buffers match its window can be assigned to any other. */
  lemma ExactLasts(heap: Heap, slots: seq<Slot>, i: nat, j: nat)
    requires HeapOk(heap) && i < |slots| && j < |slots| && i != j && slots[j].Live? && Exact(heap, slots[j].chunk)
    requires ChunkOk(heap, slots[j].chunk)
    ensures LastsThrough(heap, slots, i, j)
  {
    var mid := slots[i := Live(NULL)];
    assert Recounted(heap, slots[j].chunk) == slots[j].chunk;
    forall b: Id | b in Refs(heap, slots[j].chunk) ensures Holds(heap, mid, b) > 0 {
      HoldsAtLeast(heap, mid, j, b);
      assert SlotRefs(heap, mid[j]) == Refs(heap, slots[j].chunk);
    }
  }

  lemma {:induction false} HoldsNothing(heap: Heap, slots: seq<Slot>, b: Id)
    ensures Holds(heap, slots, b) == 0 <==> forall j :: 0 <= j < |slots| ==> SlotHolds(heap, slots[j], b) == 0
  {
    hide SlotHolds;
    if slots != [] {
      var n := |slots| - 1;
      HoldsNothing(heap, slots[..n], b);
      assert forall j :: 0 <= j < n ==> slots[..n][j] == slots[j];
    }
  }

  /** ManagedBuffer::unique of a reference that is held: nothing else refers to the buffer. */
  lemma UniqueIsAlone(heap: Heap, slots: seq<Slot>, counter: Counters, i: nat, b: Id)
    requires Conserved(heap, slots, counter) && i < |slots| && SlotHolds(heap, slots[i], b) == 1
    ensures counter(b) == 1 <==> forall j :: 0 <= j < |slots| && j != i ==> SlotHolds(heap, slots[j], b) == 0
  {
    var rest := slots[i := Dead];
    HoldsUpdate(heap, slots, i, Dead, b);
    HoldsNothing(heap, rest, b);
    assert SlotHolds(heap, Dead, b) == 0;
    hide SlotHolds, Holds;
    assert forall j :: 0 <= j < |slots| && j != i ==> rest[j] == slots[j];
    assert rest[i] == Dead;
  }

  // ---------- the loops ----------

  /** The n buffers after this one are about to be counted, and what comes of it. */
  ghost predicate Coming(heap: Heap, at: Id, remain: int, n: nat, counter: Counters, counter': Counters) {
    HeapOk(heap) && n == Covered(heap, at, remain) && IncrAll(counter, Chain(heap, at, n)) == counter'
  }

  lemma ComingStart(heap: Heap, at: Id, remain: int, counter: Counters)
    requires HeapOk(heap)
    ensures var n := Covered(heap, at, remain);
      Coming(heap, at, remain, n, counter, IncrAll(counter, Chain(heap, at, n)))
  {
  }

  lemma ComingStep(heap: Heap, at: Id, remain: int, n: nat, counter: Counters, counter': Counters)
    requires Coming(heap, at, remain, n, counter, counter')
    ensures n == 0 ==> counter == counter'
    ensures n == 0 <==> remain <= 0 || heap(at).next.None?
    ensures n > 0 ==> var mb := heap(at).next.value;
      && heap(mb).length > 0
      && Coming(heap, mb, remain - heap(mb).length, n - 1, Put(counter, mb, counter(mb) + 1), counter')
  {
    if n > 0 {
      var mb := heap(at).next.value;
      assert Chain(heap, at, n) == [mb] + Chain(heap, mb, n - 1);
      assert Chain(heap, at, n)[1..] == Chain(heap, mb, n - 1);
    }
  }

  /** What is yet to be let go is counted, before and after the first of it goes. */
  lemma HeldOnce(counter: Counters, ids: seq<Id>)
    requires ids != [] && forall b: Id :: counter(b) >= CountIn(ids, b)
    ensures counter(ids[0]) >= 1
    ensures forall b: Id :: Put(counter, ids[0], counter(ids[0]) - 1)(b) >= CountIn(ids[1..], b)
  {
    hide CountIn;
    forall b: Id ensures CountIn(ids, b) == (if ids[0] == b then 1 else 0) + CountIn(ids[1..], b) {
      CountFirst(ids, b);
    }
    assert counter(ids[0]) >= CountIn(ids, ids[0]);
  }

  /** The n buffers after this one are about to be let go, and what comes of it. */
  ghost predicate Going(heap: Heap, at: Id, n: nat, counter: Counters, cleaned: seq<Id>, counter': Counters,
      cleaned': seq<Id>) {
    var ids := Chain(heap, at, n);
    && |ids| == n && (forall b: Id :: counter(b) >= CountIn(ids, b))
    && DecrAll(counter, ids) == counter' && cleaned + Drops(counter, ids) == cleaned'
  }

  /** The next of them is still counted when it is looked at. */
  lemma GoingStep(heap: Heap, at: Id, n: nat, counter: Counters, cleaned: seq<Id>, counter': Counters,
      cleaned': seq<Id>)
    requires n > 0 && Going(heap, at, n, counter, cleaned, counter', cleaned')
    ensures heap(at).next.Some?
    ensures var mb := heap(at).next.value;
      && counter(mb) >= 1
      && Going(heap, mb, n - 1, Put(counter, mb, counter(mb) - 1), cleaned + (if counter(mb) == 1 then [mb] else []),
        counter', cleaned')
  {
    var ids := Chain(heap, at, n);
    var mb, rest := ids[0], ids[1..];
    assert heap(at).next == Some(mb) && rest == Chain(heap, mb, n - 1);
    hide DecrAll, Drops, Chain, CountIn, Put;
    FirstGoes(counter, ids);
    HeldOnce(counter, ids);
    Associate(cleaned, if counter(mb) == 1 then [mb] else [], Drops(Put(counter, mb, counter(mb) - 1), rest));
  }

  lemma GoingEnd(heap: Heap, at: Id, counter: Counters, cleaned: seq<Id>, counter': Counters, cleaned': seq<Id>)
    requires Going(heap, at, 0, counter, cleaned, counter', cleaned')
    ensures counter == counter' && cleaned == cleaned'
  {
  }

  lemma OneGoes(counter: Counters, b: Id)
    ensures DecrAll(counter, [b]) == Put(counter, b, counter(b) - 1)
    ensures Drops(counter, [b]) == if counter(b) == 1 then [b] else []
  {
  }

  /** A chunk lets go of its next buffers, and then of its own. */
  lemma BufferGoesLast(heap: Heap, c: Chunk, counter: Counters, cleaned: seq<Id>)
    returns (less: Counters, some: seq<Id>)
    requires ChunkOk(heap, c) && c.buffer.Some? && forall x: Id :: counter(x) >= CountIn(Refs(heap, c), x)
    ensures Going(heap, c.buffer.value, c.nexts, counter, cleaned, less, some)
    ensures Put(less, c.buffer.value, less(c.buffer.value) - 1) == DecrAll(counter, Refs(heap, c))
    ensures some + (if less(c.buffer.value) == 1 then [c.buffer.value] else []) == cleaned + Drops(counter,
      Refs(heap, c))
  {
    var b := c.buffer.value;
    var ids := Chain(heap, b, c.nexts);
    assert Refs(heap, c) == ids + [b];
    assert |ids| == c.nexts;
    hide DecrAll, Drops, Chain, Put, Refs;
    forall x: Id ensures CountIn(ids + [b], x) >= CountIn(ids, x) {
      MoreCounted(ids, [b], x);
    }
    hide CountIn;
    GoInTurn(counter, ids, [b]);
    less, some := DecrAll(counter, ids), cleaned + Drops(counter, ids);
    OneGoes(less, b);
    Associate(cleaned, Drops(counter, ids), Drops(less, [b]));
  }

  lemma MoreCounted(a: seq<Id>, c: seq<Id>, x: Id)
    ensures CountIn(a + c, x) >= CountIn(a, x)
  {
  }

  /** A copy holds its buffer, and then the next buffers. */
  lemma BufferFirst(heap: Heap, c: Chunk, counter: Counters)
    requires HeapOk(heap) && c.buffer.Some?
    ensures var b := c.buffer.value; var nexts := Covered(heap, b, c.end - heap(b).end);
      && |Chain(heap, b, nexts)| == nexts
      && IncrAll(Put(counter, b, counter(b) + 1), Chain(heap, b, nexts)) == IncrAll(counter,
        [b] + Chain(heap, b, nexts))
      && multiset([b] + Chain(heap, b, nexts)) == multiset(Refs(heap, c.(nexts := nexts)))
  {
    var b := c.buffer.value;
    var nexts := Covered(heap, b, c.end - heap(b).end);
    CoveredInChain(heap, b, c.end - heap(b).end);
    var chain := Chain(heap, b, nexts);
    assert ([b] + chain)[0] == b && ([b] + chain)[1..] == chain;
    assert Refs(heap, c.(nexts := nexts)) == chain + [b];
  }

  class Objects {
    const heap: Heap
    var counter: Counters
    var slots: seq<Slot>
    /** The buffers that cleanup was called for, in order. */
    var cleaned: seq<Id>

    ghost predicate Valid()
      reads this
    {
      && HeapOk(heap) && Conserved(heap, slots, counter)
      && forall i :: 0 <= i < |slots| && slots[i].Live? ==> ChunkOk(heap, slots[i].chunk)
    }

    constructor (heap: Heap)
      requires HeapOk(heap)
      ensures Valid() && this.heap == heap && slots == [] && cleaned == []
    {
      this.heap := heap;
      counter := x => 0;
      slots, cleaned := [], [];
    }

    /** Impl::incr */
    method Incr(b: Id)
      modifies this`counter
      ensures counter == Put(old(counter), b, old(counter)(b) + 1)
    {
      counter := Put(counter, b, counter(b) + 1);
    }

    /** Impl::decr */
    method Decr(b: Id)
      modifies this`counter, this`cleaned
      ensures counter == Put(old(counter), b, old(counter)(b) - 1) &&
        cleaned == old(cleaned) + if old(counter)(b) == 1 then [b] else []
    {
      if counter(b) == 1 {
        cleaned := cleaned + [b];
      }
      counter := Put(counter, b, counter(b) - 1);
    }

    /** _incrNextBuffers: one reference for every next buffer that the window runs into. */
    method IncrNextBuffers(end: int, b: Id) returns (nexts: nat)
      modifies this`counter
      requires HeapOk(heap)
      ensures nexts == Covered(heap, b, end - heap(b).end) && counter == IncrAll(old(counter), Chain(heap, b, nexts))
      ensures SpansWindow(heap, Chunk(end, Some(b), nexts))
      ensures CountedUp(old(counter), counter, Chain(heap, b, nexts))
    {
      hide SpansWindow, CountedUp, IncrAll, Chain, Covered, Put, Coming;
      CountsNexts(heap, counter, end, b);
      nexts := 0;
      var mb := b;
      var lengthRemain := end - heap(b).end;
      ghost var all := Covered(heap, b, lengthRemain);
      ghost var counter' := IncrAll(counter, Chain(heap, b, all));
      ComingStart(heap, b, lengthRemain, counter);
      while lengthRemain > 0
        invariant nexts <= all && Coming(heap, mb, lengthRemain, all - nexts, counter, counter')
        decreases lengthRemain
      {
        ComingStep(heap, mb, lengthRemain, all - nexts, counter, counter');
        if heap(mb).next.None? { return; }
        mb := heap(mb).next.value;
        nexts := nexts + 1;
        Incr(mb);
        lengthRemain := lengthRemain - heap(mb).length;
      }
      ComingStep(heap, mb, lengthRemain, all - nexts, counter, counter');
    }

    /** _decrNextBuffers: the next buffers in chain order, each still counted when it is looked at. */
    method DecrNextBuffers(b: Id, count: nat, ghost counter': Counters, ghost cleaned': seq<Id>)
      modifies this`counter, this`cleaned
      requires Going(heap, b, count, counter, cleaned, counter', cleaned')
      ensures counter == counter' && cleaned == cleaned'
    {
      hide *;
      var next := heap(b).next;
      var nexts := count;
      ghost var at := b;
      while nexts != 0
        invariant next == heap(at).next && Going(heap, at, nexts, counter, cleaned, counter', cleaned')
        decreases nexts
      {
        GoingStep(heap, at, nexts, counter, cleaned, counter', cleaned');
        var mb := next.value;
        next := heap(mb).next;
        Decr(mb);
        nexts := nexts - 1;
        at := mb;
      }
      GoingEnd(heap, at, counter, cleaned, counter', cleaned');
    }

    /** _decrNextBuffers and the reset of the managed buffer: everything that one object holds goes. */
    method LetGoOf(c: Chunk)
      modifies this`counter, this`cleaned
      requires ChunkOk(heap, c) && forall x: Id :: counter(x) >= CountIn(Refs(heap, c), x)
      ensures counter == DecrAll(old(counter), Refs(heap, c)) &&
        cleaned == old(cleaned) + Drops(old(counter), Refs(heap, c))
    {
      if c.buffer.None? {
        assert DecrAll(counter, []) == counter && Drops(counter, []) == [];
        return;
      }
      ghost var less, some := BufferGoesLast(heap, c, counter, cleaned);
      hide *;
      DecrNextBuffers(c.buffer.value, c.nexts, less, some);
      Decr(c.buffer.value);
    }

    /** The managed buffer is copied, then _incrNextBuffers. */
    method HoldCopy(c: Chunk) returns (copy: Chunk)
      modifies this`counter
      requires HeapOk(heap)
      ensures copy.end == c.end && copy.buffer == c.buffer && ChunkOk(heap, copy) && Exact(heap, copy)
      ensures exists ids: seq<Id> ::
        multiset(ids) == multiset(Refs(heap, copy)) && counter == IncrAll(old(counter), ids)
    {
      hide IncrAll, Chain, Covered, Put, SpansWindow, CountedUp;
      copy := c.(nexts := 0);
      if c.buffer.None? {
        assert IncrAll(counter, []) == counter by { NoneComes(counter); }
        return;
      }
      BufferFirst(heap, c, counter);
      hide Refs;
      Incr(c.buffer.value);
      var nexts := IncrNextBuffers(c.end, c.buffer.value);
      copy := c.(nexts := nexts);
    }

    // ---------- operations ----------

    /** Since then, cleanup was called once for each buffer that lost its last reference, and for no other. */
    ghost predicate Cleans(before: seq<Slot>, log: seq<Id>)
      reads this
    {
      |log| <= |cleaned| && cleaned[..|log|] == log && CleanedUp(heap, before, slots, cleaned[|log|..])
    }

    method LetGoSlot(s: Slot)
      modifies this`counter, this`cleaned
      requires s.Live? ==> ChunkOk(heap, s.chunk)
      requires forall x: Id :: counter(x) >= CountIn(SlotRefs(heap, s), x)
      ensures counter == DecrAll(old(counter), SlotRefs(heap, s)) &&
        cleaned == old(cleaned) + Drops(old(counter), SlotRefs(heap, s))
    {
      hide DecrAll, Drops, CountIn, Put, Refs;
      match s
      case Live(chunk) => LetGoOf(chunk);
      case Handle(Some(b)) =>
        OneGoes(counter, b);
        Decr(b);
      case _ => NoneGoes(counter);
    }

    /** The object in slot i lets go of all it holds, and s takes its place. */
    method Release(i: nat, s: Slot)
      modifies this
      requires Valid() && i < |slots| && s in {Dead, Handle(None), Live(NULL)}
      ensures Valid() && slots == old(slots)[i := s] && Cleans(old(slots), old(cleaned))
    {
      ghost var ids := SlotRefs(heap, slots[i]);
      assert SlotRefs(heap, s) == [];
      hide DecrAll, Drops, Holds, CountIn, Conserved, CleanedUp, SlotRefs;
      LetGo(heap, slots, counter, i, s);
      LetGoSlot(slots[i]);
      slots := slots[i := s];
      assert cleaned[|old(cleaned)|..] == Drops(old(counter), ids);
    }

    /** An object that holds nothing becomes a copy of c. */
    method Hold(i: nat, c: Chunk) returns (copy: Chunk)
      modifies this`counter, this`slots
      requires Valid() && i < |slots| && SlotRefs(heap, slots[i]) == []
      ensures Valid() && slots == old(slots)[i := Live(copy)] && IsCopy(heap, copy, c)
    {
      copy := HoldCopy(c);
      ghost var ids: seq<Id> :| multiset(ids) == multiset(Refs(heap, copy)) && counter == IncrAll(old(counter), ids);
      TakeUp(heap, slots, old(counter), i, Live(copy), ids);
      hide Conserved, IncrAll;
      slots := slots[i := Live(copy)];
    }

    /** A place for a new object. */
    method Grow() returns (i: nat)
      modifies this`slots
      requires Valid()
      ensures Valid() && i == |old(slots)| && slots == old(slots) + [Dead] &&
        forall b: Id :: Holds(heap, slots, b) == Holds(heap, old(slots), b)
    {
      i := |slots|;
      forall b: Id ensures Holds(heap, slots + [Dead], b) == Holds(heap, slots, b) {
        Appended(heap, slots, b);
      }
      hide Holds;
      slots := slots + [Dead];
    }

    /** A handle on a buffer, as its maker or its manager gives it out. */
    method NewHandle(b: Id)
      modifies this
      requires Valid()
      ensures Valid() && slots == old(slots) + [Handle(Some(b))] && cleaned == old(cleaned)
    {
      hide Conserved, Holds;
      var i := Grow();
      HoldHandle(i, Some(b));
    }

    /** A chunk on the buffer of a handle. */
    method MakeChunk(j: nat)
      modifies this
      requires Valid() && j < |slots| && slots[j].Handle? && slots[j].buffer.Some?
      ensures Valid() && slots == old(slots) + [Live(Chunk(heap(old(slots)[j].buffer.value).end, old(slots)[j].buffer,
        0))] && cleaned == old(cleaned)
    {
      var b := slots[j].buffer.value;
      var i := Grow();
      var s := Live(Chunk(heap(b).end, Some(b), 0));
      IncrAllOne(counter, b);
      TakeUp(heap, slots, counter, i, s, [b]);
      hide Conserved, IncrAll;
      Incr(b);
      slots := slots[i := s];
    }

    /** Copy construction of a chunk. */
    method CopyChunk(j: nat) returns (copy: Chunk)
      modifies this
      requires Valid() && j < |slots| && slots[j].Live?
      ensures Valid() && slots == old(slots) + [Live(copy)] && cleaned == old(cleaned) &&
        IsCopy(heap, copy, old(slots)[j].chunk)
      ensures SpansWindow(heap, copy)
      ensures CountedUp(old(counter), counter, Refs(heap, copy))
    {
      hide Conserved, IsCopy, Holds, SpansWindow, CountedUp, Refs;
      var i := Grow();
      copy := Hold(i, slots[j].chunk);
      CopySpans(heap, copy, old(slots)[j].chunk);
      assert slots == old(slots) + [Live(copy)];
      AddedCounts(heap, old(slots), old(counter), counter, copy);
    }

    /** Move construction: the references change hands. */
    method Move(j: nat)
      modifies this
      requires Valid() && j < |slots| && !slots[j].Dead?
      ensures Valid() && slots == old(slots)[j := Emptied(old(slots)[j])] + [old(slots)[j]] && cleaned == old(cleaned)
    {
      var i := Grow();
      HandOverAll(heap, slots, counter, i, j);
      hide Conserved, Holds;
      slots := slots[i := slots[j]][j := Emptied(slots[j])];
    }

    /**
      Copy assignment, not to itself. Cleanup is called for last references and for nothing else exactly
      if what is taken up outlasts what is let go.
     */
    method AssignChunk(i: nat, j: nat) returns (copy: Chunk)
      modifies this
      requires Valid() && i < |slots| && j < |slots| && i != j && slots[i].Live? && slots[j].Live?
      ensures Valid() && slots == old(slots)[i := Live(copy)] && copy == Recounted(heap, old(slots)[j].chunk)
      ensures Cleans(old(slots), old(cleaned)) <==> LastsThrough(heap, old(slots), i, j)
      ensures old(cleaned) <= cleaned &&
        CleanedUp(heap, old(slots), old(slots)[i := Live(NULL)], cleaned[|old(cleaned)|..])
      ensures copy.end == old(slots)[j].chunk.end && copy.buffer == old(slots)[j].chunk.buffer
      ensures SpansWindow(heap, copy)
    {
      assert SlotRefs(heap, Live(NULL)) == [];
      hide Holds, CleanedUp, Conserved, Refs, Covered, LastsThrough, Recounted, SpansWindow, Exact;
      Release(i, Live(NULL));
      copy := Hold(i, slots[j].chunk);
      CopyIsRecounted(heap, copy, old(slots)[j].chunk);
      CopySpans(heap, copy, old(slots)[j].chunk);
      AssignExactly(heap, old(slots), i, j, cleaned[|old(cleaned)|..]);
    }

    /** Copy assignment of a handle, not to itself. */
    method AssignHandle(i: nat, j: nat)
      modifies this
      requires Valid() && i < |slots| && j < |slots| && i != j && slots[i].Handle? && slots[j].Handle?
      ensures Valid() && slots == old(slots)[i := old(slots)[j]] && Cleans(old(slots), old(cleaned))
    {
      Release(i, Handle(None));
      ghost var mid := slots;
      NothingRevived(heap, old(slots), mid, i, j, slots[j], cleaned[|old(cleaned)|..]);
      hide Conserved, CleanedUp, Holds, CountIn;
      HoldHandle(i, slots[j].buffer);
    }

    /** A handle that holds nothing takes up a buffer. */
    method HoldHandle(i: nat, buffer: Option<Id>)
      modifies this`counter, this`slots
      requires Valid() && i < |slots| && SlotRefs(heap, slots[i]) == []
      ensures Valid() && slots == old(slots)[i := Handle(buffer)]
    {
      if buffer.Some? {
        IncrAllOne(counter, buffer.value);
        TakeUp(heap, slots, counter, i, Handle(buffer), [buffer.value]);
        hide Conserved, IncrAll;
        Incr(buffer.value);
      } else {
        TakeUp(heap, slots, counter, i, Handle(buffer), []);
        assert IncrAll(counter, []) == counter;
        hide Conserved, IncrAll;
      }
      slots := slots[i := Handle(buffer)];
    }

    /** Move assignment, not to itself. */
    method MoveAssign(i: nat, j: nat)
      modifies this
      requires Valid() && i < |slots| && j < |slots| && i != j
      requires (slots[i].Live? && slots[j].Live?) || (slots[i].Handle? && slots[j].Handle?)
      ensures Valid() && slots == old(slots)[i := old(slots)[j]][j := Emptied(old(slots)[j])] &&
        Cleans(old(slots), old(cleaned))
    {
      Release(i, Emptied(slots[i]));
      HandOverAll(heap, slots, counter, i, j);
      hide Conserved, Holds;
      slots := slots[i := slots[j]][j := Emptied(slots[j])];
    }

    /** clear, or reset of a handle. */
    method Clear(i: nat)
      modifies this
      requires Valid() && i < |slots| && !slots[i].Dead?
      ensures Valid() && slots == old(slots)[i := Emptied(old(slots)[i])] && Cleans(old(slots), old(cleaned))
    {
      Release(i, Emptied(slots[i]));
    }

    /** The destructors. */
    method Destroy(i: nat)
      modifies this
      requires Valid() && i < |slots| && !slots[i].Dead?
      ensures Valid() && slots == old(slots)[i := Dead] && Cleans(old(slots), old(cleaned))
    {
      Release(i, Dead);
    }

    /** The public fields address and length: the counts do not follow. */
    method SetEnd(i: nat, end: int)
      modifies this`slots
      requires Valid() && i < |slots| && slots[i].Live?
      ensures Valid() && slots == old(slots)[i := Live(old(slots)[i].chunk.(end := end))]
    {
      var s := Live(slots[i].chunk.(end := end));
      forall b: Id ensures Holds(heap, slots[i := s], b) == Holds(heap, slots, b) {
        HoldsUpdate(heap, slots, i, s, b);
        assert SlotHolds(heap, s, b) == SlotHolds(heap, slots[i], b);
      }
      hide Holds;
      slots := slots[i := s];
    }
  }

  /** A moved-from object. */
  function Emptied(s: Slot): Slot {
    match s
    case Dead => Dead
    case Handle(_) => Handle(None)
    case Live(_) => Live(NULL)
  }

  ghost predicate IsCopy(heap: Heap, copy: Chunk, c: Chunk)
    requires HeapOk(heap)
  {
    copy.end == c.end && copy.buffer == c.buffer && ChunkOk(heap, copy) && Exact(heap, copy)
  }

  lemma CopySpans(heap: Heap, copy: Chunk, c: Chunk)
    requires HeapOk(heap) && IsCopy(heap, copy, c)
    ensures SpansWindow(heap, copy)
  {
    ExactSpans(heap, copy);
  }

  lemma AddedCounts(heap: Heap, slots: seq<Slot>, counter: Counters, counter': Counters, c: Chunk)
    requires Conserved(heap, slots, counter) && Conserved(heap, slots + [Live(c)], counter')
    ensures CountedUp(counter, counter', Refs(heap, c))
  {
    assert (slots + [Live(c)])[..|slots|] == slots;
  }

  lemma CopyIsRecounted(heap: Heap, copy: Chunk, c: Chunk)
    requires HeapOk(heap) && IsCopy(heap, copy, c)
    ensures copy == Recounted(heap, c)
  {
  }

  lemma NoneGoes(counter: Counters)
    ensures DecrAll(counter, []) == counter && Drops(counter, []) == []
  {
  }

  lemma NoneComes(counter: Counters)
    ensures IncrAll(counter, []) == counter
  {
  }

  lemma IncrAllOne(counter: Counters, b: Id)
    ensures IncrAll(counter, [b]) == Put(counter, b, counter(b) + 1)
  {
  }

  lemma HandOverAll(heap: Heap, slots: seq<Slot>, counter: Counters, i: nat, j: nat)
    requires Conserved(heap, slots, counter) && i < |slots| && j < |slots| && i != j && SlotRefs(heap, slots[i]) == []
    ensures Conserved(heap, slots[i := slots[j]][j := Emptied(slots[j])], counter)
    ensures forall before, cleaned :: CleanedUp(heap, before, slots, cleaned) ==>
      CleanedUp(heap, before, slots[i := slots[j]][j := Emptied(slots[j])], cleaned)
  {
    forall b: Id ensures Holds(heap, slots[i := slots[j]][j := Emptied(slots[j])], b) == Holds(heap, slots, b) {
      HandOver(heap, slots, i, j, Emptied(slots[j]), b);
    }
    hide Holds;
  }

  /**
    Assigned to itself, a chunk has a buffer cleaned up that it still refers to exactly when no other
    object refers to it.
   */
  lemma SelfAssignment(heap: Heap, slots: seq<Slot>, counter: Counters, i: nat, b: Id)
    requires Conserved(heap, slots, counter) && i < |slots| && SlotHolds(heap, slots[i], b) > 0
    ensures b in Drops(counter, SlotRefs(heap, slots[i])) <==> Holds(heap, slots, b) == SlotHolds(heap, slots[i], b)
  {
    HoldsAtLeast(heap, slots, i, b);
    DropsLast(counter, SlotRefs(heap, slots[i]), b);
  }

  // ---------- a buffer that is cleaned up and referred to ----------

  /** Two buffers of ten bytes, the second after the first. */
  const TWO_BUFFERS: Heap := (b: Id) => if b == 1 then Impl(10, 10, Some(2)) else Impl(20, 10, None)

  lemma FiveBytesOver()
    ensures HeapOk(TWO_BUFFERS) && Covered(TWO_BUFFERS, 1, 5) == 1 && Chain(TWO_BUFFERS, 1, 1) == [2]
  {
    assert Covered(TWO_BUFFERS, 2, -5) == 0;
    assert Chain(TWO_BUFFERS, 2, 0) == [];
  }

  /**
    A window is made to run five bytes into the next buffer, as an amalgamation does, and copied. When
    the copy is assigned the same window again, the next buffer is cleaned up and then referred to.
   */
  method AssignAmalgamated() returns (o: Objects, ghost before: seq<Slot>, ghost log: seq<Id>)
    ensures o.Valid() && !o.Cleans(before, log) && 2 in o.cleaned && Holds(o.heap, o.slots, 2) > 0
  {
    FiveBytesOver();
    o := new Objects(TWO_BUFFERS);
    o.NewHandle(1);
    o.MakeChunk(0);
    o.SetEnd(1, 15);
    var window := Live(Chunk(15, Some(1), 0));
    assert o.slots == [Handle(Some(1)), window];
    var copy := o.CopyChunk(1);
    assert copy == Chunk(15, Some(1), 1);
    before, log := o.slots, o.cleaned;
    assert before == [Handle(Some(1)), window, Live(copy)];
    OnlyTheCopy(before, copy);
    copy := o.AssignChunk(2, 1);
    assert o.slots == before;
  }

  lemma HoldsThree(heap: Heap, x: Slot, y: Slot, z: Slot, b: Id)
    ensures Holds(heap, [x, y, z], b) == SlotHolds(heap, x, b) + SlotHolds(heap, y, b) + SlotHolds(heap, z, b)
  {
    hide SlotHolds;
    assert [x][..0] == [];
    assert Holds(heap, [x], b) == SlotHolds(heap, x, b);
    assert [x, y][..1] == [x];
    assert Holds(heap, [x, y], b) == Holds(heap, [x], b) + SlotHolds(heap, y, b);
    assert [x, y, z][..2] == [x, y];
  }

  lemma OnlyTheCopy(slots: seq<Slot>, copy: Chunk)
    requires copy == Chunk(15, Some(1), 1) && slots == [Handle(Some(1)), Live(Chunk(15, Some(1), 0)), Live(copy)]
    ensures HeapOk(TWO_BUFFERS) && Recounted(TWO_BUFFERS, slots[1].chunk) == copy
    ensures Holds(TWO_BUFFERS, slots, 2) == 1 && !LastsThrough(TWO_BUFFERS, slots, 2, 1)
  {
    FiveBytesOver();
    assert Refs(TWO_BUFFERS, copy) == [2, 1];
    assert Refs(TWO_BUFFERS, slots[1].chunk) == [1];
    assert SlotHolds(TWO_BUFFERS, slots[0], 2) == 0 && SlotHolds(TWO_BUFFERS, slots[1], 2) == 0;
    assert SlotHolds(TWO_BUFFERS, slots[2], 2) == 1 && SlotHolds(TWO_BUFFERS, Live(NULL), 2) == 0;
    HoldsThree(TWO_BUFFERS, slots[0], slots[1], slots[2], 2);
    HoldsThree(TWO_BUFFERS, slots[0], slots[1], Live(NULL), 2);
    assert slots[2 := Live(NULL)] == [slots[0], slots[1], Live(NULL)];
    hide Holds, SlotHolds;
    assert 2 in Refs(TWO_BUFFERS, copy);
  }
}
