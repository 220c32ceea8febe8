/**
  Memory, slabs, shared buffers and chunks: the values that the buffer queue works on
  (include/Pothos/Framework/SharedBuffer.hpp, BufferChunk.hpp).
 */
module Buffers {
  import opened Values

  /** Memory as a total map from addresses to bytes. */
  type Mem = nat -> Byte

  /** The n bytes found at address a. */
  function Window(mem: Mem, a: nat, n: nat): seq<Byte> {
    seq(n, (i: nat) => mem(a + i))
  }

  /** memcpy of n bytes from src to dst. */
  function Copy(mem: Mem, dst: nat, src: nat, n: nat): Mem {
    (a: nat) => if dst <= a < dst + n then mem(src + (a - dst)) else mem(a)
  }

  /** An allocation. A circular slab of length L is mapped twice, at base and at base + L. */
  datatype Slab = Slab(base: nat, length: nat, circular: bool) {
    function Top(): nat {
      base + if circular then 2 * length else length
    }
    /** BufferChunk::getAlias can name an address up to one more length above the double mapping. */
    function Guard(): nat {
      Top() + if circular then length else 0
    }
  }

  datatype SharedBuffer = SharedBuffer(address: nat, length: nat, slab: Slab) {
    function End(): nat {
      address + length
    }
    /** SharedBuffer::getAlias: zero when the slab is not circular. */
    function Alias(): nat {
      if slab.circular then address + slab.length else 0
    }
  }

  /** A reference counted buffer; id plays the role of the Impl pointer, zero is null. */
  datatype ManagedBuffer = ManagedBuffer(id: nat, buffer: SharedBuffer)

  const NULL_MANAGED := ManagedBuffer(0, SharedBuffer(0, 0, Slab(0, 0, false)))

  /** A window of memory backed by a managed buffer. nexts is _nextBuffers. */
  datatype Chunk = Chunk(address: nat, length: nat, mb: ManagedBuffer, nexts: nat) {
    function End(): nat {
      address + length
    }
    function Slab(): Slab {
      mb.buffer.slab
    }
    function GetAlias(): nat {
      if mb.buffer.Alias() == 0 then 0
      else if address > mb.buffer.Alias() then address - Slab().length
      else address + Slab().length
    }
  }

  const NULL_CHUNK := Chunk(0, 0, NULL_MANAGED, 0)

  lemma WindowSplit(mem: Mem, a: nat, m: nat, n: nat)
    ensures Window(mem, a, m + n) == Window(mem, a, m) + Window(mem, a + m, n)
  {
  }
}
