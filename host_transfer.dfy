/**
 How the host program moves operand and result bytes between its buffers and
 an accelerator: either it programs the DMA controller through four
 memory-mapped registers, or it copies the bytes itself with `memcpy`. The
 12-byte `union pack` (three floats) is copied to and from the transfer
 buffer byte by byte.

 A C pointer is modelled as its 32-bit address together with the bytes it
 reaches. The DMA controller itself is not modelled: a DMA transfer is the
 record of the register stores that start it.
 */
module HostTransfer {
  import opened Wrappers
  import opened Platform

  /** The DMA controller's registers. */
  const DMA_SRC_ADDR: UInt32 := 0x7000_0000
  const DMA_DST_ADDR: UInt32 := 0x7000_0004
  const DMA_LEN_ADDR: UInt32 := 0x7000_0008
  const DMA_OP_ADDR: UInt32 := 0x7000_000C
  const DMA_OP_MEMCPY: UInt32 := 1

  /** The size of `union pack`: three 4-byte floats. */
  const PACK_SIZE: nat := 12

  /** A pointer: its address as the DMA controller is given it, and the bytes behind it. */
  datatype Pointer = Pointer(address: UInt32, bytes: array<bv8>)

  /** One volatile 32-bit store to a DMA register. */
  datatype Store = Store(register: UInt32, value: UInt32)

  /** The value most recently stored to `register`, if any. */
  function Latched(stores: seq<Store>, register: UInt32): Option<UInt32>
  {
    if stores == [] then None
    else if stores[|stores| - 1].register == register then Some(stores[|stores| - 1].value)
    else Latched(stores[..|stores| - 1], register)
  }

  /** Stores to other registers do not change what a register holds. */
  lemma {:induction false} LatchedOther(stores: seq<Store>, more: seq<Store>, register: UInt32)
    requires forall s :: s in more ==> s.register != register
    ensures Latched(stores + more, register) == Latched(stores, register)
    decreases |more|
  {
    if more != [] {
      var all := stores + more;
      assert all[..|all| - 1] == stores + more[..|more| - 1];
      assert all[|all| - 1] == more[|more| - 1] && more[|more| - 1] in more;
      LatchedOther(stores, more[..|more| - 1], register);
    } else {
      assert stores + more == stores;
    }
  }

  /**
   The stores that start a DMA copy of `len` bytes from `src` to `dst`:
   source, destination, length (an `int` narrowed to `uint32_t`), then the
   operation.
   */
  function DmaProgram(src: UInt32, dst: UInt32, len: int): (p: seq<Store>)
  {
    [ Store(DMA_SRC_ADDR, src),
      Store(DMA_DST_ADDR, dst),
      Store(DMA_LEN_ADDR, len % WORD_SPAN),
      Store(DMA_OP_ADDR, DMA_OP_MEMCPY) ]
  }

  /**
   Whatever was stored before, the operation register is written last, and
   at that moment the source, destination and length registers hold the
   copy's parameters.
   */
  lemma DmaProgramLatches(before: seq<Store>, src: UInt32, dst: UInt32, len: int)
    ensures var p := DmaProgram(src, dst, len);
            && p[|p| - 1] == Store(DMA_OP_ADDR, DMA_OP_MEMCPY)
            && Latched(before + p[..|p| - 1], DMA_SRC_ADDR) == Some(src)
            && Latched(before + p[..|p| - 1], DMA_DST_ADDR) == Some(dst)
            && Latched(before + p[..|p| - 1], DMA_LEN_ADDR) == Some(len % WORD_SPAN)
            && Latched(before + p, DMA_OP_ADDR) == Some(DMA_OP_MEMCPY)
  {
    var p := DmaProgram(src, dst, len);
    var s1 := before + p[..1];
    var s2 := before + p[..2];
    var s3 := before + p[..3];
    assert s2 == s1 + [p[1]] && s3 == s2 + [p[2]];
    LatchedOther(s1, [p[1], p[2]], DMA_SRC_ADDR);
    assert s1 + [p[1], p[2]] == s3;
    LatchedOther(s2, [p[2]], DMA_DST_ADDR);
    assert (before + p)[..|before + p| - 1] == s3;
  }

  /**
   The host's side of the transfers. `_is_using_dma` is set once and never
   changed; `stores` records the DMA register stores in program order.
   */
  class Host {
    const usingDma: bool
    var stores: seq<Store>

    constructor (usingDma: bool)
      ensures this.usingDma == usingDma && stores == []
    {
      this.usingDma := usingDma;
      stores := [];
    }

    /**
     `memcpy(dst, src, len)`: the first `len` bytes of `dst` become those of
     `src`; nothing else changes.
     */
    static method MemCopy(dst: array<bv8>, src: array<bv8>, len: nat)
      requires dst != src && len <= dst.Length && len <= src.Length
      modifies dst
      ensures dst[..len] == src[..len] && dst[len..] == old(dst[len..])
    {
      forall i | 0 <= i < len {
        dst[i] := src[i];
      }
    }

    /** `write_data_to_ACC`: move `len` bytes from `buffer` to the accelerator at `acc`. */
    method WriteDataToAcc(acc: Pointer, buffer: Pointer, len: int)
      requires !usingDma ==> acc.bytes != buffer.bytes && 0 <= len <= buffer.bytes.Length && len <= acc.bytes.Length
      modifies this, acc.bytes
      ensures usingDma ==> stores == old(stores) + DmaProgram(buffer.address, acc.address, len)
      ensures usingDma ==> acc.bytes[..] == old(acc.bytes[..])
      ensures !usingDma ==> stores == old(stores)
      ensures !usingDma ==> acc.bytes[..len] == buffer.bytes[..len] && acc.bytes[len..] == old(acc.bytes[len..])
    {
      if usingDma {
        stores := stores + [Store(DMA_SRC_ADDR, buffer.address)];
        stores := stores + [Store(DMA_DST_ADDR, acc.address)];
        stores := stores + [Store(DMA_LEN_ADDR, len % WORD_SPAN)];
        stores := stores + [Store(DMA_OP_ADDR, DMA_OP_MEMCPY)];
      } else {
        MemCopy(acc.bytes, buffer.bytes, len);
      }
    }

    /** `read_data_from_ACC`: move `len` bytes from the accelerator at `acc` to `buffer`. */
    method ReadDataFromAcc(acc: Pointer, buffer: Pointer, len: int)
      requires !usingDma ==> acc.bytes != buffer.bytes && 0 <= len <= buffer.bytes.Length && len <= acc.bytes.Length
      modifies this, buffer.bytes
      ensures usingDma ==> stores == old(stores) + DmaProgram(acc.address, buffer.address, len)
      ensures usingDma ==> buffer.bytes[..] == old(buffer.bytes[..])
      ensures !usingDma ==> stores == old(stores)
      ensures !usingDma ==> buffer.bytes[..len] == acc.bytes[..len] && buffer.bytes[len..] == old(buffer.bytes[len..])
    {
      if usingDma {
        stores := stores + [Store(DMA_SRC_ADDR, acc.address)];
        stores := stores + [Store(DMA_DST_ADDR, buffer.address)];
        stores := stores + [Store(DMA_LEN_ADDR, len % WORD_SPAN)];
        stores := stores + [Store(DMA_OP_ADDR, DMA_OP_MEMCPY)];
      } else {
        MemCopy(buffer.bytes, acc.bytes, len);
      }
    }
  }

  /** `for (l = 0; l < 12; l++) buffer[l] = data.uc[l];` */
  method Pack(data: seq<bv8>, buffer: array<bv8>)
    requires |data| == PACK_SIZE && buffer.Length == PACK_SIZE
    modifies buffer
    ensures buffer[..] == data
  {
    for l := 0 to PACK_SIZE
      invariant buffer[..l] == data[..l]
    {
      buffer[l] := data[l];
    }
    assert buffer[..] == buffer[..PACK_SIZE];
  }

  /** `for (l = 0; l < 12; l++) data.uc[l] = buffer[l];` */
  method Unpack(buffer: array<bv8>) returns (data: seq<bv8>)
    requires buffer.Length == PACK_SIZE
    ensures data == buffer[..]
  {
    data := seq(PACK_SIZE, _ => 0);
    for l := 0 to PACK_SIZE
      invariant |data| == PACK_SIZE
      invariant data[..l] == buffer[..l]
    {
      data := data[l := buffer[l]];
    }
    assert data == data[..PACK_SIZE];
  }

  /** Packing the 12 bytes into a buffer and unpacking them again gives them back. */
  method PackRoundTrip(data: seq<bv8>) returns (back: seq<bv8>)
    requires |data| == PACK_SIZE
    ensures back == data
  {
    var buffer := new bv8[PACK_SIZE];
    Pack(data, buffer);
    back := Unpack(buffer);
  }
}
