/**
  An input port on its accumulator: the byte stream that labels are placed on is what the accumulator
  holds, over every push, require and pop (lib/Framework/InputPort.cpp, lib/Framework/WorkerActor.cpp).
 */
module PortStream {
  import opened Values
  import opened Buffers
  import opened BufferQueue
  import opened BufferPools
  import opened Accumulator
  import opened Labels

  class BufferedPort {
    const port: InputPort
    const accumulator: BufferAccumulator

    ghost predicate Valid()
      reads this, port, accumulator, accumulator.pool
    {
      && port.Valid() && accumulator.Valid()
      && port.stream == accumulator.Contents()
      && (port.working ==> port.front <= accumulator.queue[0].length)
    }

    constructor (size: nat, mem: Mem)
      requires size > 0
      ensures Valid() && port.InOrder() && port.stream == []
    {
      port := new InputPort(size);
      accumulator := new BufferAccumulator(mem);
    }

    /** bufferLabelPush with one buffer, also while the block works. */
    method Push(b: Chunk, next: map<nat, ManagedBuffer>, posted: seq<Label>)
      requires Valid()
      requires Pushable(accumulator.mem, Kept(accumulator.queue), b, next) && PoolAdmits(accumulator.pool.buffs, b)
      modifies port, accumulator
      ensures Valid()
      ensures port.stream == old(port.stream) + Window(accumulator.mem, b.address, b.length)
      ensures port.inputInlineMessages == old(port.inputInlineMessages) + Shifted(posted, |old(port.stream)|)
      ensures old(port.InOrder()) && Fits(posted, b.length) ==> port.InOrder()
    {
      hide Join, QueueOk, Live, Pushable, PoolAdmits, Fits, Orderly, AreShifted, AfterPush, Places, Shifted;
      hide BytesAt, ElementsAt, Stream, PoolsApart;
      var bytes := Window(accumulator.mem, b.address, b.length);
      OneBuffer(bytes);
      accumulator.Push(b, next);
      var labels, bufs := port.BufferLabelPush(false, posted, [bytes]);
    }

    /** Pre-work: enough bytes are required, and the block sees the front window. */
    method BeginWork(numBytes: nat, held: set<nat>, spare: ManagedBuffer)
      requires Valid() && !port.working
      requires var least := accumulator.pool.minBuffSize; Allocation(spare,
        if numBytes > least then numBytes else least)
      requires spare.id !in held
      requires forall i :: 0 <= i < |accumulator.pool.buffs| ==> Distinct(accumulator.pool.buffs[i], spare)
      requires forall i :: 0 <= i < |Live(accumulator.queue)| ==> SpareFor(spare, Live(accumulator.queue)[i])
      modifies port, accumulator, accumulator.pool
      ensures Valid() && port.working && port.stream == old(port.stream)
      ensures port.front >= numBytes || port.front == |port.stream|
      ensures old(port.InOrder()) ==> port.InOrder()
    {
      accumulator.Require(numBytes, held, spare);
      hide QueueOk, Orderly;
      FrontFits(accumulator.mem, Live(accumulator.queue));
      SingleOrNot(accumulator.mem, accumulator.queue);
      port.Front(accumulator.queue[0].length);
    }

    /**
      Post-work after consuming n elements of the front window: labels stay on their elements, and bytes go
      together.
     */
    method EndWork(n: nat)
      requires Valid() && port.working && port.pendingElements == 0 && Span(n, port.size) <= port.front
      modifies port, accumulator
      ensures port.stream == accumulator.Contents() == old(port.stream)[Span(n, port.size)..]
      ensures accumulator.Valid() && !port.working
      ensures Valid() <==> PassedFirst(old(port.inlineMessages), n)
      ensures old(port.InOrder()) ==> Valid() && port.InOrder()
    {
      hide QueueOk, Orderly, Span, PassedFirst, Retired;
      port.Consume(n);
      port.PostWork();
      accumulator.Pop(Span(n, port.size));
    }
  }

  lemma OneBuffer(bytes: seq<Byte>)
    ensures Join([bytes]) == bytes
  {
    var none: seq<seq<Byte>> := [];
    assert [bytes][..0] == none;
    assert Join(none) == [];
  }
}
