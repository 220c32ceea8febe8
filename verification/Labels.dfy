/**
  Labels on a stream (lib/Framework/InputPort.cpp, include/Pothos/Framework/InputPortImpl.hpp,
  include/Pothos/Framework/OutputPortImpl.hpp and the pre- and post-work of
  lib/Framework/WorkerActor.cpp). The accumulator is the byte queue that module Accumulator proves it
  to be, and module PortStream joins the two. Label positions are natural numbers; that the source's
  unsigned subtractions never go below zero is part of what is proved.
 */
module Labels {
  import Accumulator
  import opened Values

  /** The object that a label carries, which nothing here looks into. */
  type Data = nat

  datatype Label = Label(id: string, data: Data, index: nat, width: nat)

  /** Label::adjust */
  function Adjusted(l: Label, mult: nat, div: nat): Label
    requires div > 0
  {
    l.(index := l.index * mult / div, width := l.width * mult / div)
  }

  /** postLabel counts in bytes, and the front of a port of the same type counts in elements again: k elements on. */
  lemma PostedArrives(l: Label, k: nat, size: nat)
    requires size > 0
    ensures Adjusted(Shifted([Adjusted(l, size, 1)], k * size)[0], 1, size) == l.(index := k + l.index)
  {
    DivShift(l.index * size, k, size);
    DivShift(0, l.index, size);
    DivShift(0, l.width, size);
    assert l.index * size / 1 == l.index * size && l.width * size / 1 == l.width * size;
  }

  function Join(buffers: seq<seq<Byte>>): seq<Byte> {
    if buffers == [] then [] else Join(buffers[..|buffers| - 1]) + buffers[|buffers| - 1]
  }

  lemma {:induction false} JoinConcat(a: seq<seq<Byte>>, b: seq<seq<Byte>>)
    ensures Join(a + b) == Join(a) + Join(b)
  {
    if b == [] {
      assert a + b == a;
    } else {
      var n := |b| - 1;
      assert (a + b)[..|a| + n] == a + b[..n];
      JoinConcat(a, b[..n]);
    }
  }

  function Shifted(ls: seq<Label>, n: nat): seq<Label> {
    seq(|ls|, i requires 0 <= i < |ls| => ls[i].(index := ls[i].index + n))
  }

  /** The same labels, n further on. */
  predicate AreShifted(ls: seq<Label>, n: nat, ls': seq<Label>) {
    |ls'| == |ls| && forall i :: 0 <= i < |ls| ==>
      ls'[i] == Label(ls[i].id, ls[i].data, ls[i].index + n, ls[i].width)
  }

  lemma ShiftedAre(ls: seq<Label>, n: nat)
    ensures AreShifted(ls, n, Shifted(ls, n))
  {
  }

  /** The same labels, counted in elements. */
  predicate AreDivided(ls: seq<Label>, size: nat, ls': seq<Label>)
    requires size > 0
  {
    |ls'| == |ls| && forall i :: 0 <= i < |ls| ==>
      ls'[i] == Label(ls[i].id, ls[i].data, ls[i].index / size, ls[i].width / size)
  }

  /** The places of labels whose positions count from base. */
  function Places(ls: seq<Label>, base: nat): seq<nat> {
    seq(|ls|, i requires 0 <= i < |ls| => base + ls[i].index)
  }

  // ---------- retiring labels ----------

  /** The number of labels before position n. */
  function CountBelow(ls: seq<Label>, n: nat): (c: nat)
    ensures c <= |ls|
  {
    if ls == [] then 0 else CountBelow(ls[..|ls| - 1], n) + if ls[|ls| - 1].index < n then 1 else 0
  }

  /** It is the number of places at which a label is before n. */
  lemma {:induction false} CountIsNumber(ls: seq<Label>, n: nat)
    ensures CountBelow(ls, n) == |set i | 0 <= i < |ls| && ls[i].index < n|
  {
    var here := set i | 0 <= i < |ls| && ls[i].index < n;
    if ls != [] {
      var m := |ls| - 1;
      CountIsNumber(ls[..m], n);
      var before := set i | 0 <= i < |ls[..m]| && ls[..m][i].index < n;
      assert here == before + if ls[m].index < n then {m} else {};
    }
  }

  function MovedOn(l: Label, n: nat): Label {
    if l.index < n then l else l.(index := l.index - n)
  }

  /** What post-work leaves of the labels: the rest is moved on, and as many as are passed are erased in front. */
  function Retired(ls: seq<Label>, n: nat): seq<Label> {
    seq(|ls|, i requires 0 <= i < |ls| => MovedOn(ls[i], n))[CountBelow(ls, n)..]
  }

  /** The last labels of ls are left, each at its distance from n, or where it was if it is before that. */
  predicate AreLeft(ls: seq<Label>, n: nat, ls': seq<Label>) {
    |ls'| <= |ls| && forall i :: 0 <= i < |ls'| ==>
      var l := ls[|ls| - |ls'| + i];
      ls'[i] == Label(l.id, l.data, if l.index < n then l.index else l.index - n, l.width)
  }

  lemma RetiredAreLeft(ls: seq<Label>, n: nat)
    ensures AreLeft(ls, n, Retired(ls, n)) && |Retired(ls, n)| == |ls| - |set i | 0 <= i < |ls| && ls[i].index < n|
  {
    CountIsNumber(ls, n);
  }

  /** The labels that are passed come first. */
  predicate PassedFirst(ls: seq<Label>, n: nat) {
    forall i, j :: 0 <= i < j < |ls| && ls[j].index < n ==> ls[i].index < n
  }

  lemma {:induction false} CountAll(ls: seq<Label>, n: nat)
    ensures CountBelow(ls, n) == |ls| <==> forall i :: 0 <= i < |ls| ==> ls[i].index < n
  {
    if ls != [] {
      var rest := ls[..|ls| - 1];
      CountAll(rest, n);
      assert forall i :: 0 <= i < |rest| ==> rest[i] == ls[i];
    }
  }

  lemma {:induction false} CountSplit(a: seq<Label>, b: seq<Label>, n: nat)
    ensures CountBelow(a + b, n) == CountBelow(a, n) + CountBelow(b, n)
  {
    if b == [] {
      assert a + b == a;
    } else {
      assert (a + b)[..|a + b| - 1] == a + b[..|b| - 1];
      CountSplit(a, b[..|b| - 1], n);
    }
  }

  lemma {:induction false} CountNone(ls: seq<Label>, n: nat)
    ensures CountBelow(ls, n) == 0 <==> forall i :: 0 <= i < |ls| ==> ls[i].index >= n
  {
    if ls != [] {
      var rest := ls[..|ls| - 1];
      CountNone(rest, n);
      assert forall i :: 0 <= i < |rest| ==> rest[i] == ls[i];
    }
  }

  /** The labels that are erased are exactly the passed ones if and only if those come first. */
  lemma ErasedArePassed(ls: seq<Label>, n: nat)
    ensures (forall i :: 0 <= i < |ls| ==> (i < CountBelow(ls, n) <==> ls[i].index < n)) <==> PassedFirst(ls, n)
  {
    if PassedFirst(ls, n) {
      CountsFirst(ls, n);
    }
  }

  lemma {:induction false} CountsFirst(ls: seq<Label>, n: nat)
    requires PassedFirst(ls, n)
    ensures forall i :: 0 <= i < |ls| ==> (i < CountBelow(ls, n) <==> ls[i].index < n)
  {
    if ls != [] {
      var rest := ls[..|ls| - 1];
      assert forall i :: 0 <= i < |rest| ==> rest[i] == ls[i];
      if ls[|ls| - 1].index < n {
        CountAll(ls, n);
      } else {
        CountsFirst(rest, n);
      }
    }
  }

  // ---------- where labels belong ----------

  /** Labels in bytes, relative to the front of the queue, belong at these places of the stream. */
  ghost predicate BytesAt(ls: seq<Label>, at: seq<nat>, popped: nat) {
    |at| == |ls| && forall i :: 0 <= i < |ls| ==> popped + ls[i].index == at[i]
  }

  /** Labels in elements, relative to the elements consumed, are on the elements of these places. */
  ghost predicate ElementsAt(ls: seq<Label>, at: seq<nat>, consumed: nat, size: nat)
    requires size > 0
  {
    |at| == |ls| && forall i :: 0 <= i < |ls| ==> consumed + ls[i].index == at[i] / size
  }

  /** Labels that go in behind n bytes belong there. */
  lemma MoreBytesAt(ls: seq<Label>, at: seq<nat>, popped: nat, posted: seq<Label>, n: nat)
    requires BytesAt(ls, at, popped)
    ensures BytesAt(ls + Shifted(posted, n), at + Places(posted, popped + n), popped)
    ensures forall i :: 0 <= i < |Shifted(posted, n)| ==> Shifted(posted, n)[i].index >= n
  {
  }

  predicate Ascending(at: seq<nat>) {
    forall i, j :: 0 <= i < j < |at| ==> at[i] <= at[j]
  }

  /** Places in stream order, none of them past the end. */
  predicate Orderly(at: seq<nat>, end: nat) {
    Ascending(at) && forall i :: 0 <= i < |at| ==> at[i] <= end
  }

  /** Labels in stream order: those on consumed elements come first. */
  lemma OrderlyPassesFirst(ls: seq<Label>, at: seq<nat>, consumed: nat, size: nat, n: nat)
    requires size > 0 && ElementsAt(ls, at, consumed, size) && Ascending(at)
    ensures PassedFirst(ls, n)
  {
    forall i, j | 0 <= i < j < |ls| ensures ls[i].index <= ls[j].index {
      DivMonotone(at[i], at[j], size);
    }
  }

  lemma DivMonotone(x: nat, y: nat, size: nat)
    requires size > 0 && x <= y
    ensures x / size <= y / size
  {
    Accumulator.DivAtLeast(x, x / size, size);
    Accumulator.DivAtLeast(y, x / size, size);
  }

  /** Labels that are posted in order and not past their buffers stay in order behind the others. */
  lemma PushKeepsOrder(before: seq<nat>, end: nat, posted: seq<Label>, bytes: nat)
    requires Orderly(before, end) && Fits(posted, bytes)
    ensures Orderly(before + Places(posted, end), end + bytes)
  {
    var places := Places(posted, end);
    var at := before + places;
    assert forall i :: 0 <= i < |at| ==> at[i] == if i < |before| then before[i] else places[i - |before|];
  }

  lemma SuffixOrderly(at: seq<nat>, end: nat, c: nat)
    requires Orderly(at, end) && c <= |at|
    ensures Orderly(at[c..], end)
  {
    assert forall i :: 0 <= i < |at[c..]| ==> at[c..][i] == at[c + i];
  }

  lemma GapOrderly(at: seq<nat>, end: nat, i: nat)
    requires Orderly(at, end) && i < |at|
    ensures Orderly(at[..i] + at[i + 1..], end)
  {
    var gap := at[..i] + at[i + 1..];
    assert forall j :: 0 <= j < |gap| ==> gap[j] == at[if j < i then j else j + 1];
  }

  lemma PrefixAscending(a: seq<nat>, b: seq<nat>)
    requires Ascending(a + b)
    ensures Ascending(a)
  {
    assert forall i :: 0 <= i < |a| ==> (a + b)[i] == a[i];
  }

  lemma DivShift(x: nat, k: nat, size: nat)
    requires size > 0
    ensures (k * size + x) / size == k + x / size
  {
    var q := x / size;
    assert q * size <= x < (q + 1) * size;
    assert (k + q) * size == k * size + q * size && (k + q + 1) * size == k * size + (q + 1) * size;
    Accumulator.DivAtLeast(k * size + x, k + q, size);
    Accumulator.DivAtLeast(k * size + x, k + q + 1, size);
  }

  /** Retiring keeps every label on its element exactly when the passed labels come first. */
  lemma RetireExact(ls: seq<Label>, at: seq<nat>, consumed: nat, size: nat, n: nat)
    requires size > 0 && ElementsAt(ls, at, consumed, size)
    ensures ElementsAt(Retired(ls, n), at[CountBelow(ls, n)..], consumed + n, size) <==> PassedFirst(ls, n)
  {
    ErasedArePassed(ls, n);
    var c := CountBelow(ls, n);
    var r := Retired(ls, n);
    assert forall i :: 0 <= i < |r| ==> r[i] == MovedOn(ls[c + i], n) && at[c..][i] == at[c + i];
    hide PassedFirst, CountBelow, Retired;
    if PassedFirst(ls, n) {
      forall i | 0 <= i < |r| ensures consumed + n + r[i].index == at[c + i] / size {
        assert ls[c + i].index >= n;
      }
    } else if ElementsAt(r, at[c..], consumed + n, size) {
      forall i | c <= i < |ls| ensures ls[i].index >= n {
        assert r[i - c] == MovedOn(ls[i], n);
        assert consumed + ls[i].index == at[i] / size;
        assert at[c..][i - c] == at[i];
      }
      TailPassed(ls, n, c);
    }
  }

  /** If nothing after the erased labels is passed, the erased labels are the passed ones. */
  lemma TailPassed(ls: seq<Label>, n: nat, c: nat)
    requires c == CountBelow(ls, n) && forall i :: c <= i < |ls| ==> ls[i].index >= n
    ensures PassedFirst(ls, n)
  {
    CountFront(ls, n, c);
    CountAll(ls[..c], n);
    hide CountBelow;
    forall i | 0 <= i < c ensures ls[i].index < n {
      assert ls[..c][i] == ls[i];
    }
  }

  lemma CountFront(ls: seq<Label>, n: nat, c: nat)
    requires c <= |ls| && forall i :: c <= i < |ls| ==> ls[i].index >= n
    ensures CountBelow(ls[..c], n) == CountBelow(ls, n)
  {
    CountSplit(ls[..c], ls[c..], n);
    CountNone(ls[c..], n);
    hide CountBelow;
    assert ls[..c] + ls[c..] == ls;
    forall i | 0 <= i < |ls[c..]| ensures ls[c..][i].index >= n {
      assert ls[c..][i] == ls[c + i];
    }
  }

  /** The bytes of n elements. */
  function Span(n: nat, size: nat): nat {
    n * size
  }

  lemma SpanAdds(a: nat, b: nat, size: nat)
    ensures Span(a + b, size) == Span(a, size) + Span(b, size)
  {
  }

  // ---------- the input port ----------

  class InputPort {
    const size: nat
    /** The bytes in the accumulator. */
    var stream: seq<Byte>
    /** _inputInlineMessages, in bytes from the front of the accumulator. */
    var inputInlineMessages: seq<Label>
    /** _inlineMessages, in elements from the front. */
    var inlineMessages: seq<Label>
    var totalElements: nat
    var pendingElements: nat
    /** The length of the front buffer that the work function sees; none between work calls. */
    var working: bool
    var front: nat

    /** Bytes popped so far, and the places in the stream that the labels belong to. */
    ghost var popped: nat
    ghost var inputAt: seq<nat>
    ghost var inlineAt: seq<nat>

    ghost predicate Valid()
      reads this
    {
      && size > 0 && popped == Span(totalElements, size)
      && BytesAt(inputInlineMessages, inputAt, popped)
      && ElementsAt(inlineMessages, inlineAt, totalElements, size)
      && (working ==>
            && Span(pendingElements, size) <= front <= |stream|
            && forall i :: 0 <= i < |inputInlineMessages| ==> inputInlineMessages[i].index >= front)
    }

    /** The labels are in stream order, and none is past the end of the stream. */
    ghost predicate InOrder()
      reads this
    {
      Orderly(inlineAt + inputAt, popped + |stream|)
    }

    constructor (size: nat)
      requires size > 0
      ensures Valid() && InOrder() && fresh(this) && stream == [] && inputInlineMessages == [] && inlineMessages == []
      ensures !working && totalElements == 0 && pendingElements == 0
    {
      this.size := size;
      stream, inputInlineMessages, inlineMessages, totalElements, pendingElements, working, front := [], [], [], 0, 0,
        false, 0;
      popped, inputAt, inlineAt := 0, [], [];
    }

    /**
      Labels go in behind the bytes that are queued, in bytes; then the buffers. When moved, the caller's
      lists are emptied.
     */
    method BufferLabelPush(enableMove: bool, posted: seq<Label>, buffers: seq<seq<Byte>>)
      returns (labels: seq<Label>, bufs: seq<seq<Byte>>)
      modifies this
      requires Valid()
      ensures Valid()
      ensures stream == old(stream) + Join(buffers)
      ensures inputInlineMessages == old(inputInlineMessages) + Shifted(posted, |old(stream)|)
      ensures AreShifted(posted, |old(stream)|, inputInlineMessages[|old(inputInlineMessages)|..])
      ensures inputAt == old(inputAt) + Places(posted, old(popped) + |old(stream)|)
      ensures inlineMessages == old(inlineMessages) && inlineAt == old(inlineAt) && popped == old(popped)
      ensures totalElements == old(totalElements) && working == old(working) && front == old(front) &&
        pendingElements == old(pendingElements)
      ensures if enableMove then labels == [] && bufs == [] else labels == posted && bufs == buffers
      ensures old(InOrder()) && Fits(posted, |Join(buffers)|) ==> InOrder()
    {
      hide Orderly, Join, Fits, AreShifted, Shifted, Places, BytesAt, ElementsAt;
      PushOrder(posted, |Join(buffers)|);
      MoreBytesAt(inputInlineMessages, inputAt, popped, posted, |stream|);
      ShiftedAre(posted, |stream|);
      var currentBytes := |stream|;
      inputAt := inputAt + Places(posted, popped + currentBytes);
      var shifted, more;
      if enableMove {
        shifted := MoveLabels(posted, currentBytes);
        more := MoveBuffers(buffers);
        labels, bufs := [], [];
      } else {
        shifted := CopyLabels(posted, currentBytes);
        more := CopyBuffers(buffers);
        labels, bufs := posted, buffers;
      }
      inputInlineMessages := inputInlineMessages + shifted;
      assert inputInlineMessages[|old(inputInlineMessages)|..] == shifted;
      stream := stream + more;
    }

    lemma PushOrder(posted: seq<Label>, bytes: nat)
      ensures InOrder() && Fits(posted, bytes) ==>
        Orderly(inlineAt + (inputAt + Places(posted, popped + |stream|)), popped + |stream| + bytes)
    {
      var places := Places(posted, popped + |stream|);
      if InOrder() && Fits(posted, bytes) {
        PushKeepsOrder(inlineAt + inputAt, popped + |stream|, posted, bytes);
      }
      assert inlineAt + inputAt + places == inlineAt + (inputAt + places);
    }

    lemma InOrderPassesFirst()
      requires Valid() && InOrder()
      ensures PassedFirst(inlineMessages, pendingElements)
    {
      PrefixAscending(inlineAt, inputAt);
      OrderlyPassesFirst(inlineMessages, inlineAt, totalElements, size, pendingElements);
    }

    lemma PostWorkOrder()
      requires Valid() && working
      ensures InOrder() ==> PassedFirst(inlineMessages, pendingElements)
      ensures InOrder() ==> Orderly(inlineAt[CountBelow(inlineMessages, pendingElements)..] + inputAt,
        popped + |stream|)
    {
      var c := CountBelow(inlineMessages, pendingElements);
      assert inlineAt[c..] + inputAt == (inlineAt + inputAt)[c..];
      if InOrder() {
        InOrderPassesFirst();
        SuffixOrderly(inlineAt + inputAt, popped + |stream|, c);
      }
    }

    /** Pre-work: the queued labels go over to elements, and the work function sees the front buffer. */
    method Front(length: nat)
      modifies this
      requires Valid() && !working && length <= |stream|
      ensures Valid() && working && front == length && pendingElements == 0 && stream == old(stream)
      ensures inputInlineMessages == [] && inputAt == [] && inlineAt == old(inlineAt) + old(inputAt)
      ensures popped == old(popped) && totalElements == old(totalElements)
      ensures old(inlineMessages) <= inlineMessages
      ensures AreDivided(old(inputInlineMessages), size, inlineMessages[|old(inlineMessages)|..])
      ensures old(InOrder()) ==> InOrder()
    {
      while inputInlineMessages != []
        invariant size > 0 && popped == Span(totalElements, size)
        invariant BytesAt(inputInlineMessages, inputAt, popped) &&
          ElementsAt(inlineMessages, inlineAt, totalElements, size)
        invariant inlineAt + inputAt == old(inlineAt) + old(inputAt)
        invariant old(inlineMessages) <= inlineMessages
        invariant var k := |inlineMessages| - |old(inlineMessages)|;
          && k <= |old(inputInlineMessages)| && inputInlineMessages == old(inputInlineMessages)[k..]
          && AreDivided(old(inputInlineMessages)[..k], size, inlineMessages[|old(inlineMessages)|..])
        invariant stream == old(stream) && popped == old(popped) && totalElements == old(totalElements)
        decreases |inputInlineMessages|
      {
        DivShift(inputInlineMessages[0].index, totalElements, size);
        assert popped + inputInlineMessages[0].index == inputAt[0];
        inlineMessages := inlineMessages + [Adjusted(inputInlineMessages[0], 1, size)];
        inlineAt := inlineAt + [inputAt[0]];
        inputInlineMessages, inputAt := inputInlineMessages[1..], inputAt[1..];
      }
      assert inputAt == [];
      working, front, pendingElements := true, length, 0;
    }

    /** consume, within the front buffer. */
    method Consume(n: nat)
      modifies this`pendingElements
      requires Valid() && working && Span(pendingElements + n, size) <= front
      ensures Valid() && pendingElements == old(pendingElements) + n
    {
      pendingElements := pendingElements + n;
    }

    /** removeLabel: the first label equal to this one goes, and no other label moves. */
    method RemoveLabel(l: Label)
      modifies this`inlineMessages, this`inlineAt
      requires Valid()
      ensures Valid()
      ensures if l in old(inlineMessages) then
          exists i :: 0 <= i < |old(inlineMessages)| && old(inlineMessages)[i] == l && l !in old(inlineMessages)[..i]
            && inlineMessages == old(inlineMessages)[..i] + old(inlineMessages)[i + 1..] &&
              inlineAt == old(inlineAt)[..i] + old(inlineAt)[i + 1..]
        else inlineMessages == old(inlineMessages) && inlineAt == old(inlineAt)
      ensures old(InOrder()) ==> InOrder()
    {
      var i := 0;
      while i < |inlineMessages|
        invariant 0 <= i <= |inlineMessages| && l !in inlineMessages[..i]
        invariant inlineMessages == old(inlineMessages) && inlineAt == old(inlineAt) && Valid()
      {
        if inlineMessages[i] == l {
          if InOrder() {
            GapOrderly(inlineAt + inputAt, popped + |stream|, i);
            ghost var all := inlineAt + inputAt;
            assert all[..i] + all[i + 1..] == (inlineAt[..i] + inlineAt[i + 1..]) + inputAt;
          }
          inlineMessages := inlineMessages[..i] + inlineMessages[i + 1..];
          inlineAt := inlineAt[..i] + inlineAt[i + 1..];
          return;
        }
        i := i + 1;
      }
    }

    /** The label part of post-work: passed labels are erased and the others moved on. */
    method RetireLabels()
      modifies this`inlineMessages, this`inlineAt
      requires Valid()
      ensures inlineMessages == Retired(old(inlineMessages), pendingElements)
      ensures inlineAt == old(inlineAt)[CountBelow(old(inlineMessages), pendingElements)..]
      ensures ElementsAt(inlineMessages, inlineAt, totalElements + pendingElements, size) <==>
        PassedFirst(old(inlineMessages), pendingElements)
    {
      var numLabels, labels := AdjustLabels(inlineMessages, pendingElements);
      RetireExact(inlineMessages, inlineAt, totalElements, size, pendingElements);
      hide *;
      inlineMessages, inlineAt := labels[numLabels..], inlineAt[numLabels..];
    }

    /** bufferAccumulatorPop, within what is queued: no label position goes below zero. */
    method Pop(bytes: nat)
      modifies this`stream, this`inputInlineMessages, this`popped
      requires bytes <= |stream| && BytesAt(inputInlineMessages, inputAt, popped)
      requires forall i :: 0 <= i < |inputInlineMessages| ==> inputInlineMessages[i].index >= bytes
      ensures stream == old(stream)[bytes..] && popped == old(popped) + bytes &&
        BytesAt(inputInlineMessages, inputAt, popped)
      ensures popped + |stream| == old(popped + |stream|)
      ensures AreShifted(inputInlineMessages, bytes, old(inputInlineMessages))
    {
      var labels := Unshift(inputInlineMessages, bytes);
      hide *;
      stream, inputInlineMessages, popped := stream[bytes..], labels, popped + bytes;
    }

    /** Post-work: every label is still on its element exactly when the passed labels came first. */
    method PostWork()
      modifies this
      requires Valid() && working
      ensures Valid() <==> PassedFirst(old(inlineMessages), old(pendingElements))
      ensures !working && stream == old(stream)[Span(old(pendingElements), size)..]
      ensures totalElements == old(totalElements) + old(pendingElements) &&
        popped == old(popped) + Span(old(pendingElements), size)
      ensures inlineMessages == Retired(old(inlineMessages), old(pendingElements))
      ensures AreLeft(old(inlineMessages), old(pendingElements), inlineMessages)
      ensures |inlineMessages| == |old(inlineMessages)| -
        |set i | 0 <= i < |old(inlineMessages)| && old(inlineMessages)[i].index < old(pendingElements)|
      ensures AreShifted(inputInlineMessages, Span(old(pendingElements), size), old(inputInlineMessages))
      ensures old(InOrder()) ==> Valid() && InOrder()
    {
      hide Span, PassedFirst, Retired, CountBelow, ElementsAt, Orderly, BytesAt, AreLeft, AreShifted;
      RetiredAreLeft(inlineMessages, pendingElements);
      PostWorkOrder();
      SpanAdds(totalElements, pendingElements, size);
      RetireLabels();
      assert Span(pendingElements, size) <= |stream|;
      Pop(Span(pendingElements, size));
      totalElements, working := totalElements + pendingElements, false;
    }
  }

  /** The label loop of bufferAccumulatorPop. */
  method Unshift(ls: seq<Label>, bytes: nat) returns (labels: seq<Label>)
    requires forall i :: 0 <= i < |ls| ==> ls[i].index >= bytes
    ensures |labels| == |ls| && forall i :: 0 <= i < |ls| ==> labels[i] == ls[i].(index := ls[i].index - bytes)
    ensures forall at, popped: nat :: BytesAt(ls, at, popped) ==> BytesAt(labels, at, popped + bytes)
    ensures AreShifted(labels, bytes, ls)
  {
    labels := ls;
    var i := 0;
    while i < |labels|
      invariant 0 <= i <= |labels| == |ls|
      invariant forall j :: 0 <= j < |ls| ==> labels[j] == if j < i then ls[j].(index := ls[j].index - bytes) else ls[j]
    {
      labels := labels[i := labels[i].(index := labels[i].index - bytes)];
      i := i + 1;
    }
  }

  /** Labels in order, and none past the end of what they come with. */
  predicate Fits(ls: seq<Label>, bytes: nat) {
    (forall i, j :: 0 <= i < j < |ls| ==> ls[i].index <= ls[j].index) && forall i :: 0 <= i < |ls| ==>
      ls[i].index <= bytes
  }

  /** The label loop of post-work. */
  method AdjustLabels(all: seq<Label>, pending: nat) returns (numLabels: nat, labels: seq<Label>)
    ensures numLabels == CountBelow(all, pending) && |labels| == |all| && labels[numLabels..] == Retired(all, pending)
  {
    numLabels, labels := 0, all;
    var i := 0;
    while i < |labels|
      invariant 0 <= i <= |labels| == |all| && numLabels == CountBelow(all[..i], pending)
      invariant forall j :: 0 <= j < |labels| ==> labels[j] == if j < i then MovedOn(all[j], pending) else all[j]
    {
      assert all[..i + 1][..i] == all[..i];
      if labels[i].index < pending {
        numLabels := numLabels + 1;
      } else {
        labels := labels[i := labels[i].(index := labels[i].index - pending)];
      }
      i := i + 1;
    }
    assert all[..i] == all;
  }

  /** Labels taken over in place: each is moved on in the caller's list and handed over. */
  method MoveLabels(posted: seq<Label>, currentBytes: nat) returns (pushed: seq<Label>)
    ensures pushed == Shifted(posted, currentBytes)
  {
    var labels := posted;
    pushed := [];
    var i := 0;
    while i < |labels|
      invariant 0 <= i <= |labels| == |posted| && labels[i..] == posted[i..]
      invariant pushed == Shifted(posted, currentBytes)[..i]
    {
      assert labels[i] == labels[i..][0] == posted[i];
      labels := labels[i := labels[i].(index := labels[i].index + currentBytes)];
      pushed := pushed + [labels[i]];
      i := i + 1;
    }
  }

  method CopyLabels(posted: seq<Label>, currentBytes: nat) returns (pushed: seq<Label>)
    ensures pushed == Shifted(posted, currentBytes)
  {
    pushed := [];
    var i := 0;
    while i < |posted|
      invariant 0 <= i <= |posted| && pushed == Shifted(posted, currentBytes)[..i]
    {
      var copy := posted[i];
      copy := copy.(index := copy.index + currentBytes);
      pushed := pushed + [copy];
      i := i + 1;
    }
  }

  method MoveBuffers(buffers: seq<seq<Byte>>) returns (pushed: seq<Byte>)
    ensures pushed == Join(buffers)
  {
    var queue := buffers;
    pushed := [];
    ghost var k := 0;
    while queue != []
      invariant 0 <= k <= |buffers| && queue == buffers[k..] && pushed == Join(buffers[..k])
      decreases |queue|
    {
      assert buffers[..k + 1][..k] == buffers[..k];
      pushed := pushed + queue[0];
      queue := queue[1..];
      k := k + 1;
    }
    assert buffers[..k] == buffers;
  }

  method CopyBuffers(buffers: seq<seq<Byte>>) returns (pushed: seq<Byte>)
    ensures pushed == Join(buffers)
  {
    pushed := [];
    var i := 0;
    while i < |buffers|
      invariant 0 <= i <= |buffers| && pushed == Join(buffers[..i])
    {
      assert buffers[..i + 1][..i] == buffers[..i];
      pushed := pushed + buffers[i];
      i := i + 1;
    }
    assert buffers[..i] == buffers;
  }

  /**
    A label posted past the end of its buffer: a is posted four bytes on with two bytes of data, then b
    at the start of the next data. Three bytes on, b is passed and a is not, but a is erased and b stays.
   */
  lemma PastItsBuffer()
    ensures
      var a, b := Label("a", 7, 4, 1), Label("b", 8, 0, 1);
      var queued := Shifted([a], 0) + Shifted([b], 2);
      && !Fits([a], 2) && !PassedFirst(queued, 3)
      && Retired(queued, 3) == [b.(index := 2)]
  {
    var a, b := Label("a", 7, 4, 1), Label("b", 8, 0, 1);
    var queued := Shifted([a], 0) + Shifted([b], 2);
    assert queued == [a, b.(index := 2)];
    assert queued[..1] == [a] && [a][..0] == [];
    assert CountBelow([a], 3) == 0;
    assert CountBelow(queued, 3) == 1;
    assert queued[1].index < 3 && queued[0].index >= 3;
  }

  // ---------- fan-out ----------

  /** One subscriber got the labels behind the bytes that it had, and all the buffers. */
  twostate predicate Received(port: InputPort, posted: seq<Label>, buffers: seq<seq<Byte>>)
    reads port
  {
    && port.stream == old(port.stream) + Join(buffers)
    && port.inputInlineMessages == old(port.inputInlineMessages) + Shifted(posted, |old(port.stream)|)
    && port.inputAt == old(port.inputAt) + Places(posted, old(port.popped) + |old(port.stream)|)
    && port.popped == old(port.popped)
  }

  /** The end of post-work: every subscriber gets the same labels and bytes, the last one the originals. */
  method SendToSubscribers(subscribers: seq<InputPort>, posted: seq<Label>, buffers: seq<seq<Byte>>)
    modifies subscribers
    requires forall i, j :: 0 <= i < j < |subscribers| ==> subscribers[i] != subscribers[j]
    requires forall i :: 0 <= i < |subscribers| ==> subscribers[i].Valid()
    ensures forall i :: 0 <= i < |subscribers| ==> subscribers[i].Valid() && Received(subscribers[i], posted, buffers)
  {
    hide Join, Shifted, Places, Orderly, BytesAt, ElementsAt, Span, Fits;
    var labels, bufs := posted, buffers;
    var i := 0;
    while i < |subscribers|
      invariant 0 <= i <= |subscribers|
      invariant i < |subscribers| ==> labels == posted && bufs == buffers
      invariant forall j :: 0 <= j < i ==> subscribers[j].Valid() && Received(subscribers[j], posted, buffers)
      invariant forall j :: i <= j < |subscribers| ==> subscribers[j].Valid() && unchanged(subscribers[j])
    {
      var last := i == |subscribers| - 1;
      labels, bufs := subscribers[i].BufferLabelPush(last, labels, bufs);
      i := i + 1;
    }
  }
}
