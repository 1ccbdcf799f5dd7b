/** The length-prefix header: a usize word holding the requested size,
    stored at the start of each block, just before the data the caller gets.
    Memory is a sequence of bytes indexed by address; `width` is LEN_SIZE,
    the byte width of usize. */
module Header {
  import opened Words

  /** Memory after `store_len(block_ptr, size)`: the `width` bytes at
      `blockPtr` hold `size`; every other byte is as before. */
  function WriteHeader(m: seq<Byte>, blockPtr: nat, size: nat, width: nat): (r: seq<Byte>)
    requires blockPtr + width <= |m|
    ensures |r| == |m|
    ensures r[blockPtr..blockPtr + width] == Encode(size, width)
    ensures forall i | 0 <= i < |m| && !(blockPtr <= i < blockPtr + width) :: r[i] == m[i]
  {
    m[..blockPtr] + Encode(size, width) + m[blockPtr + width..]
  }

  /** What `get_len(data_ptr)` returns: the word held by the `width` bytes
      just below `dataPtr`, and the address of that word. */
  function ReadHeader(m: seq<Byte>, dataPtr: nat, width: nat): (r: (nat, nat))
    requires width <= dataPtr <= |m|
    ensures r.0 < Pow256(width)
    ensures r.1 + width == dataPtr
  {
    (Decode(m[dataPtr - width..dataPtr]), dataPtr - width)
  }

  /** `get_len(store_len(b, s)) == (s, b)`: the data pointer that store_len
      returns leads get_len back to the size stored and to the block start. */
  lemma HeaderRoundTrip(m: seq<Byte>, blockPtr: nat, size: nat, width: nat)
    requires blockPtr + width <= |m|
    requires size < Pow256(width)
    ensures ReadHeader(WriteHeader(m, blockPtr, size, width), blockPtr + width, width) == (size, blockPtr)
  {
    DecodeEncode(size, width);
  }

  /** A header reads the same in two memories that agree on its bytes. */
  lemma HeaderUnchanged(m: seq<Byte>, m': seq<Byte>, dataPtr: nat, width: nat)
    requires width <= dataPtr <= |m| == |m'|
    requires forall i | dataPtr - width <= i < dataPtr :: m'[i] == m[i]
    ensures ReadHeader(m', dataPtr, width) == ReadHeader(m, dataPtr, width)
  {
    assert m'[dataPtr - width..dataPtr] == m[dataPtr - width..dataPtr];
  }
}
