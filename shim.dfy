/** The allocator shim of the `risc0_ffi` module: `malloc`, `calloc` and
    `free` for the C library, built on Rust's global allocator. Each block
    the shim obtains starts with a usize header holding the size the caller
    asked for; the caller gets the address just past the header, and `free`
    reads the header back to rebuild the layout it hands to `dealloc`.

    The model works in a build with overflow checks: `size + LEN_SIZE` and
    `nobj * size` panic when they overflow. */
module Shim {
  import opened Wrappers
  import opened Words
  import opened Layouts
  import opened Header

  /** The alignment the shim asks the backing allocator for. */
  const ALIGN: nat := 4

  /** Why a call did not return. Each of these is a Rust panic or an abort
      and ends the program. */
  datatype Abort =
    | AddOverflow              // `size + LEN_SIZE` overflowed
    | MulOverflow              // `nobj * size` overflowed
    | BadLayout                // `Layout::from_size_align(..).expect(..)` panicked
    | AllocFailed(layout: Layout)  // the backing allocator gave null: `handle_alloc_error(layout)`
    | Panic(msg: string)       // an explicit `panic!`

  /** The outcome of `malloc` or `calloc`: a data pointer, never null. */
  datatype AllocResult = Returned(ptr: nat) | Aborted(why: Abort)

  /** The outcome of `free`: the size the header held, the address and the
      layout handed to `dealloc`, and whether that layout was the block's
      allocation layout so the block was released. Rust leaves a `dealloc`
      with any other layout undefined; the model then keeps the block
      allocated. */
  datatype FreeResult =
    | Freed(size: nat, ptr: nat, layout: Layout, released: bool)
    | FreeAborted(why: Abort)

  /** The layout `malloc` and `calloc` request for a data region of `size`
      bytes: `size + LEN_SIZE` bytes at alignment 4. */
  function AllocLayout(size: nat, width: nat): Result<Layout, Abort>
  {
    match CheckedAdd(size, width, width)
    case None => Err(AddOverflow)
    case Some(total) =>
      match FromSizeAlign(total, ALIGN, width)
      case None => Err(BadLayout)
      case Some(layout) => Ok(layout)
  }

  /** The layout `free` builds from a header holding `size`: the header value
      alone, at alignment 4. */
  function FreeLayout(size: nat, width: nat): Result<Layout, Abort>
  {
    match FromSizeAlign(size, ALIGN, width)
    case None => Err(BadLayout)
    case Some(layout) => Ok(layout)
  }

  /** The layout `malloc` would request in a build without overflow checks,
      where `size + LEN_SIZE` wraps around. */
  function WrappingAllocLayout(size: nat, width: nat): Result<Layout, Abort>
  {
    match FromSizeAlign(WrappingAdd(size, width, width), ALIGN, width)
    case None => Err(BadLayout)
    case Some(layout) => Ok(layout)
  }

  /** Exactly when malloc's layout can be built, and what it is: the header
      and the data together, at alignment 4. Overflow of `size + LEN_SIZE`
      is one way to fail; a total above isize::MAX - 3 is the other. */
  lemma AllocLayoutOk(size: nat, width: nat)
    ensures AllocLayout(size, width).Ok? <==> size + width <= IsizeMax(width) - 3
    ensures AllocLayout(size, width).Ok? ==> AllocLayout(size, width).value == Layout(size + width, ALIGN)
    ensures AllocLayout(size, width) == Err(AddOverflow) <==> size + width >= Pow256(width)
  {
    assert IsPowerOfTwo(4) by {
      assert IsPowerOfTwo(2);
    }
  }

  /** `free` never panics on a header written by malloc or calloc, but the
      layout it builds is LEN_SIZE bytes short of the layout the block was
      allocated with. */
  lemma FreeLayoutMismatch(size: nat, width: nat)
    requires width >= 1
    requires AllocLayout(size, width).Ok?
    ensures FreeLayout(size, width).Ok?
    ensures FreeLayout(size, width).value.size + width == AllocLayout(size, width).value.size
    ensures FreeLayout(size, width).value != AllocLayout(size, width).value
  {
    AllocLayoutOk(size, width);
    assert IsPowerOfTwo(4) by {
      assert IsPowerOfTwo(2);
    }
  }

  /** Without overflow checks, `malloc(usize::MAX)` asks for a block of
      LEN_SIZE - 1 bytes, too small even for the header store_len then
      writes into it. */
  lemma WrappingAllocLayoutTooSmall(width: nat)
    requires width >= 1
    ensures WrappingAllocLayout(Pow256(width) - 1, width) == Ok(Layout(width - 1, ALIGN))
  {
    var m := Pow256(width);
    Pow256Grows(width);
    WrapOnce(m - 1 + width, m);
    assert WrappingAdd(m - 1, width, width) == width - 1;
    assert width - 1 <= IsizeMax(width) - 3 by {
      assert m / 2 >= 128 * width;
    }
    assert IsPowerOfTwo(4) by {
      assert IsPowerOfTwo(2);
    }
  }

  /** Memory with the bytes of [lo, hi) set to zero, as `alloc_zeroed` leaves
      the block it returns. */
  function Zeroed(m: seq<Byte>, lo: nat, hi: nat): (r: seq<Byte>)
    requires lo <= hi <= |m|
    ensures |r| == |m|
    ensures forall i | 0 <= i < |m| :: r[i] == if lo <= i < hi then 0 else m[i]
  {
    m[..lo] + seq(hi - lo, _ => 0) + m[hi..]
  }

  /** The data region of a zeroed block whose header was then written
      reads as zeros: the header lies wholly below it. */
  lemma ZeroedDataRegion(m: seq<Byte>, b: nat, end: nat, size: nat, width: nat)
    requires end == b + width + size <= |m|
    ensures forall i | b + width <= i < end :: WriteHeader(Zeroed(m, b, end), b, size, width)[i] == 0
  {
    var z := Zeroed(m, b, end);
    forall i | b + width <= i < end
      ensures WriteHeader(z, b, size, width)[i] == 0
    {
      assert z[i] == 0;
    }
  }

  /** Block [b, b + l.size) is not empty, lies above null inside a memory of
      `memSize` bytes, and starts at a multiple of its alignment. */
  predicate Placed(b: nat, l: Layout, memSize: nat)
  {
    0 < b && 0 < l.size && 0 < l.align && b % l.align == 0 && b + l.size <= memSize
  }

  /** Blocks [b, b + l.size) and [c, c + k.size) do not overlap. */
  predicate Apart(b: nat, l: Layout, c: nat, k: Layout)
  {
    b + l.size <= c || c + k.size <= b
  }

  /** Data pointer `p` came from malloc or calloc with `size`: its block is
      live with the layout those requested, and its header holds `size`. */
  ghost predicate Tagged(width: nat, m: seq<Byte>, live: map<nat, Layout>, p: nat, size: nat)
  {
    && width <= p <= |m|
    && p - width in live
    && live[p - width] == Layout(size + width, ALIGN)
    && ReadHeader(m, p, width).0 == size
  }

  /** The backing allocator's side of the invariant: live blocks are valid
      Rust layouts, placed inside a memory of `memSize` bytes and pairwise
      disjoint. */
  predicate LiveInv(width: nat, memSize: nat, live: map<nat, Layout>)
  {
    && (forall b | b in live :: Placed(b, live[b], memSize))
    && (forall b | b in live :: FromSizeAlign(live[b].size, live[b].align, width) == Some(live[b]))
    && (forall b, c | b in live && c in live && b != c :: Apart(b, live[b], c, live[c]))
  }

  /** The shim's side: every data pointer handed out is tagged with the
      size it was requested with. */
  ghost predicate TagInv(width: nat, m: seq<Byte>, live: map<nat, Layout>, shim: map<nat, nat>)
  {
    forall p | p in shim :: Tagged(width, m, live, p, shim[p])
  }

  /** The invariant of the heap. */
  ghost predicate HeapInv(width: nat, m: seq<Byte>, live: map<nat, Layout>, shim: map<nat, nat>)
  {
    LiveInv(width, |m|, live) && TagInv(width, m, live, shim)
  }

  /** The backing allocator placing a new block, and possibly zeroing it,
      disturbs no header: the new block overlaps no live block. */
  lemma InvAfterPlace(width: nat, m: seq<Byte>, m': seq<Byte>, live: map<nat, Layout>,
                      shim: map<nat, nat>, b: nat, layout: Layout)
    requires HeapInv(width, m, live, shim)
    requires Placed(b, layout, |m|)
    requires FromSizeAlign(layout.size, layout.align, width) == Some(layout)
    requires forall c | c in live :: Apart(b, layout, c, live[c])
    requires |m'| == |m|
    requires forall i | 0 <= i < |m| && !(b <= i < b + layout.size) :: m'[i] == m[i]
    ensures b !in live
    ensures forall p | p in shim :: p - width != b
    ensures HeapInv(width, m', live[b := layout], shim)
  {
    assert b in live ==> Apart(b, layout, b, live[b]);
    forall p | p in shim
      ensures Tagged(width, m', live[b := layout], p, shim[p])
    {
      assert Tagged(width, m, live, p, shim[p]);
      assert Apart(b, layout, p - width, live[p - width]);
      HeaderUnchanged(m, m', p, width);
    }
  }

  /** Writing the header of a block that no data pointer yet points into
      tags it, and leaves every other tag as it was. */
  lemma InvAfterTag(width: nat, m: seq<Byte>, m': seq<Byte>, live: map<nat, Layout>,
                    shim: map<nat, nat>, shim': map<nat, nat>, b: nat, size: nat)
    requires HeapInv(width, m, live, shim)
    requires b in live && live[b] == Layout(size + width, ALIGN)
    requires forall p | p in shim :: p - width != b
    requires size < Pow256(width)
    requires b + width <= |m| && m' == WriteHeader(m, b, size, width)
    requires shim' == shim[b + width := size]
    ensures b + width + size <= |m|
    ensures b + width !in shim
    ensures HeapInv(width, m', live, shim')
  {
    assert Placed(b, live[b], |m|);
    TagsSurviveHeader(width, m, m', live, shim, b, size);
    HeaderRoundTrip(m, b, size, width);
    forall p | p in shim'
      ensures Tagged(width, m', live, p, shim'[p])
    {
      if p != b + width {
        assert p in shim && shim'[p] == shim[p];
      }
    }
  }

  /** The header written at `b` lies inside `b`'s block, apart from every
      other block, so every existing tag reads the same afterwards. */
  lemma TagsSurviveHeader(width: nat, m: seq<Byte>, m': seq<Byte>, live: map<nat, Layout>,
                          shim: map<nat, nat>, b: nat, size: nat)
    requires HeapInv(width, m, live, shim)
    requires b in live && live[b] == Layout(size + width, ALIGN)
    requires forall p | p in shim :: p - width != b
    requires b + width <= |m| && m' == WriteHeader(m, b, size, width)
    ensures forall p | p in shim :: Tagged(width, m', live, p, shim[p])
  {
    forall p | p in shim
      ensures Tagged(width, m', live, p, shim[p])
    {
      assert Tagged(width, m, live, p, shim[p]);
      assert Apart(b, live[b], p - width, live[p - width]);
      HeaderUnchanged(m, m', p, width);
    }
  }

  /** A byte the caller stores inside the data region of one of its blocks
      touches no header: every block still reads back its requested size. */
  lemma InvAfterStore(width: nat, m: seq<Byte>, live: map<nat, Layout>, shim: map<nat, nat>,
                      p: nat, i: nat, v: Byte)
    requires HeapInv(width, m, live, shim)
    requires p in shim && i < shim[p]
    ensures p + i < |m|
    ensures HeapInv(width, m[p + i := v], live, shim)
  {
    assert Tagged(width, m, live, p, shim[p]);
    assert Placed(p - width, live[p - width], |m|);
    var m' := m[p + i := v];
    forall q | q in shim
      ensures Tagged(width, m', live, q, shim[q])
    {
      assert Tagged(width, m, live, q, shim[q]);
      if q != p {
        assert Apart(p - width, live[p - width], q - width, live[q - width]);
      }
      HeaderUnchanged(m, m', q, width);
    }
  }

  /** Forgetting the data pointer `p` keeps every other tag, and no
      remaining data pointer points into `p`'s block. */
  lemma InvAfterForget(width: nat, m: seq<Byte>, live: map<nat, Layout>, shim: map<nat, nat>, p: nat)
    requires HeapInv(width, m, live, shim)
    requires p in shim
    ensures p - width in live && live[p - width] == Layout(shim[p] + width, ALIGN)
    ensures forall q | q in shim - {p} :: q - width != p - width
    ensures HeapInv(width, m, live, shim - {p})
  {
    assert Tagged(width, m, live, p, shim[p]);
    forall q | q in shim - {p}
      ensures Tagged(width, m, live, q, (shim - {p})[q])
    {
      assert Tagged(width, m, live, q, shim[q]);
    }
  }

  /** `__assert_func`, the C library's assertion hook: it never returns,
      whatever its arguments. */
  method AssertFunc(file: nat, line: int, func: nat, expr: nat) returns (r: Abort)
    ensures r == Panic("c_kzg assertion failure.")
  {
    r := Panic("c_kzg assertion failure.");
  }

  /** The whole address space of a target with `width`-byte pointers, the
      backing allocator's table of live blocks, and the shim's functions. */
  class Heap {
    /** LEN_SIZE: the byte width of usize, and so of the header. */
    const width: nat
    /** The bytes of memory, indexed by address; address 0 is null. */
    const mem: array<Byte>
    /** The backing allocator's live blocks: start address to the layout the
        block was allocated with. */
    var live: map<nat, Layout>
    /** Each data pointer the shim handed out and not yet freed, with the
        size it was requested with. The shim keeps no such table itself:
        this only names what the headers must hold. */
    ghost var shim: map<nat, nat>
    /** Every `dealloc(ptr, layout)` call whose layout was not the block's
        allocation layout, in order: calls Rust leaves undefined. */
    ghost var badDeallocs: seq<(nat, Layout)>

    ghost predicate Valid()
      reads this, mem
    {
      && width >= 1
      && mem.Length == Pow256(width)
      && HeapInv(width, mem[..], live, shim)
    }

    constructor (width: nat, init: seq<Byte>)
      requires width >= 1 && |init| == Pow256(width)
      ensures Valid() && fresh(mem)
      ensures this.width == width && mem[..] == init
      ensures live == map[] && shim == map[] && badDeallocs == []
    {
      this.width := width;
      mem := new Byte[|init|](i requires 0 <= i < |init| => init[i]);
      live := map[];
      shim := map[];
      badDeallocs := [];
    }

    /** Would the backing allocator accept block [b, b + layout.size)? */
    predicate CanPlace(b: nat, layout: Layout)
      reads this
    {
      Placed(b, layout, mem.Length) && forall c | c in live :: Apart(b, layout, c, live[c])
    }

    /** `alloc::alloc::alloc(layout)`, or `alloc_zeroed(layout)` when
        `zeroed`. `offer` is the address the allocator picks; the model takes
        it when it is a free, suitably aligned range and returns null (0)
        otherwise, which covers every behaviour of a correct allocator. */
    method BackingAlloc(layout: Layout, zeroed: bool, offer: nat) returns (blockPtr: nat)
      requires Valid()
      requires FromSizeAlign(layout.size, layout.align, width) == Some(layout)
      modifies this`live, mem
      ensures Valid() && shim == old(shim)
      ensures blockPtr == if old(CanPlace(offer, layout)) then offer else 0
      ensures blockPtr != 0 ==>
        && blockPtr !in old(live)
        && blockPtr + layout.size <= mem.Length
        && (forall p | p in shim :: p - width != blockPtr)
        && live == old(live)[blockPtr := layout]
      ensures blockPtr == 0 ==> live == old(live)
      ensures mem[..] == if blockPtr != 0 && zeroed
                         then Zeroed(old(mem[..]), blockPtr, blockPtr + layout.size)
                         else old(mem[..])
    {
      if CanPlace(offer, layout) {
        blockPtr := offer;
        ghost var before := mem[..];
        if zeroed {
          forall i | blockPtr <= i < blockPtr + layout.size {
            mem[i] := 0;
          }
          assert mem[..] == Zeroed(before, blockPtr, blockPtr + layout.size);
        }
        InvAfterPlace(width, before, mem[..], live, shim, blockPtr, layout);
        live := live[blockPtr := layout];
      } else {
        blockPtr := 0;
      }
    }

    /** `alloc::alloc::dealloc(ptr, layout)`: releases the block when
        `layout` is the one it was allocated with. Any other layout is
        undefined behaviour in Rust; the model then releases nothing. */
    method Dealloc(ptr: nat, layout: Layout) returns (released: bool)
      requires Valid()
      requires forall p | p in shim :: p - width != ptr
      modifies this`live, this`badDeallocs
      ensures Valid()
      ensures released <==> ptr in old(live) && old(live)[ptr] == layout
      ensures live == if released then old(live) - {ptr} else old(live)
      ensures badDeallocs == if released then old(badDeallocs) else old(badDeallocs) + [(ptr, layout)]
    {
      released := ptr in live && live[ptr] == layout;
      if released {
        live := live - {ptr};
      } else {
        badDeallocs := badDeallocs + [(ptr, layout)];
      }
    }

    /** `store_len(block_ptr, size)`: writes `size` into the header word at
        `blockPtr` and returns the data pointer just past it. */
    method StoreLen(blockPtr: nat, size: nat) returns (dataPtr: nat)
      requires blockPtr + width <= mem.Length
      requires size < Pow256(width)
      modifies mem
      ensures mem[..] == WriteHeader(old(mem[..]), blockPtr, size, width)
      ensures dataPtr == blockPtr + width
      ensures ReadHeader(mem[..], dataPtr, width) == (size, blockPtr)
    {
      ghost var before := mem[..];
      var word := Encode(size, width);
      forall i | blockPtr <= i < blockPtr + width {
        mem[i] := word[i - blockPtr];
      }
      assert mem[..] == WriteHeader(before, blockPtr, size, width);
      dataPtr := blockPtr + width;
      HeaderRoundTrip(before, blockPtr, size, width);
    }

    /** `store_len(block_ptr, size)` on a block just obtained from the
        backing allocator, which no data pointer points into yet: from now on
        the data pointer it returns is tagged with `size`. */
    method StoreNewLen(blockPtr: nat, size: nat) returns (dataPtr: nat)
      requires Valid()
      requires blockPtr in live && live[blockPtr] == Layout(size + width, ALIGN)
      requires forall p | p in shim :: p - width != blockPtr
      requires size < Pow256(width)
      modifies this`shim, mem
      ensures Valid()
      ensures dataPtr == blockPtr + width && dataPtr + size <= mem.Length
      ensures shim == old(shim)[dataPtr := size]
      ensures mem[..] == WriteHeader(old(mem[..]), blockPtr, size, width)
    {
      assert Placed(blockPtr, live[blockPtr], mem.Length);
      ghost var before, untagged := mem[..], shim;
      dataPtr := StoreLen(blockPtr, size);
      shim := shim[dataPtr := size];
      InvAfterTag(width, before, mem[..], live, untagged, shim, blockPtr, size);
    }

    /** `get_len(data_ptr)`: the size in the header just below `dataPtr`
        and the header's address. For a data pointer from malloc or calloc,
        that is the size the caller asked for and the block's start. */
    method GetLen(dataPtr: nat) returns (size: nat, lenPtr: nat)
      requires width <= dataPtr <= mem.Length
      ensures (size, lenPtr) == ReadHeader(mem[..], dataPtr, width)
      ensures Valid() && dataPtr in shim ==>
        size == shim[dataPtr] && lenPtr in live && live[lenPtr] == Layout(size + width, ALIGN)
    {
      size := Decode(mem[dataPtr - width..dataPtr]);
      lenPtr := dataPtr - width;
      assert mem[dataPtr - width..dataPtr] == mem[..][dataPtr - width..dataPtr];
      if Valid() && dataPtr in shim {
        assert Tagged(width, mem[..], live, dataPtr, shim[dataPtr]);
      }
    }

    /** `malloc(size)`: a block of `size + LEN_SIZE` bytes at alignment 4
        whose header holds `size`; the caller gets the address past the
        header. It never returns null: a layout that cannot be built panics
        and a null block ends in `handle_alloc_error`. */
    method Malloc(size: nat, offer: nat) returns (r: AllocResult)
      requires Valid() && size < Pow256(width)
      modifies this`live, this`shim, mem
      ensures Valid()
      ensures r.Returned? ==> r.ptr != 0
      ensures AllocLayout(size, width).Err? ==> r == Aborted(AllocLayout(size, width).error)
      ensures AllocLayout(size, width).Ok? ==>
        r == if old(CanPlace(offer, AllocLayout(size, width).value))
             then Returned(offer + width)
             else Aborted(AllocFailed(AllocLayout(size, width).value))
      ensures r.Returned? ==>
        && r.ptr - width !in old(live)
        && live == old(live)[r.ptr - width := Layout(size + width, ALIGN)]
        && shim == old(shim)[r.ptr := size]
        && r.ptr + size <= mem.Length
        && mem[..] == WriteHeader(old(mem[..]), r.ptr - width, size, width)
      ensures r.Aborted? ==> live == old(live) && shim == old(shim) && mem[..] == old(mem[..])
    {
      var layout := AllocLayout(size, width);
      if layout.Err? {
        return Aborted(layout.error);
      }
      AllocLayoutOk(size, width);
      var blockPtr := BackingAlloc(layout.value, false, offer);
      if blockPtr == 0 {
        return Aborted(AllocFailed(layout.value));
      }
      var dataPtr := StoreNewLen(blockPtr, size);
      r := Returned(dataPtr);
    }

    /** `calloc(nobj, size)`: as malloc for `nobj * size` bytes, except that
        the block comes from `alloc_zeroed`, so the data region reads as
        zeros. The header holds the product. */
    method Calloc(nobj: nat, size: nat, offer: nat) returns (r: AllocResult)
      requires Valid() && nobj < Pow256(width) && size < Pow256(width)
      modifies this`live, this`shim, mem
      ensures Valid()
      ensures r.Returned? ==> r.ptr != 0
      ensures CheckedMul(nobj, size, width).None? ==> r == Aborted(MulOverflow)
      ensures CheckedMul(nobj, size, width).Some? && AllocLayout(nobj * size, width).Err? ==>
        r == Aborted(AllocLayout(nobj * size, width).error)
      ensures CheckedMul(nobj, size, width).Some? && AllocLayout(nobj * size, width).Ok? ==>
        r == if old(CanPlace(offer, AllocLayout(nobj * size, width).value))
             then Returned(offer + width)
             else Aborted(AllocFailed(AllocLayout(nobj * size, width).value))
      ensures r.Returned? ==>
        var total := nobj * size;
        && r.ptr - width !in old(live)
        && live == old(live)[r.ptr - width := Layout(total + width, ALIGN)]
        && shim == old(shim)[r.ptr := total]
        && r.ptr + total <= mem.Length
        && mem[..] == WriteHeader(Zeroed(old(mem[..]), r.ptr - width, r.ptr + total),
                                  r.ptr - width, total, width)
        && (forall i | r.ptr <= i < r.ptr + total :: mem[i] == 0)
      ensures r.Aborted? ==> live == old(live) && shim == old(shim) && mem[..] == old(mem[..])
    {
      ghost var before := mem[..];
      var product := CheckedMul(nobj, size, width);
      if product.None? {
        return Aborted(MulOverflow);
      }
      var total := product.value;
      var layout := AllocLayout(total, width);
      if layout.Err? {
        return Aborted(layout.error);
      }
      AllocLayoutOk(total, width);
      var blockPtr := BackingAlloc(layout.value, true, offer);
      if blockPtr == 0 {
        return Aborted(AllocFailed(layout.value));
      }
      var dataPtr := StoreNewLen(blockPtr, total);
      ZeroedDataRegion(before, blockPtr, blockPtr + width + total, total, width);
      r := Returned(dataPtr);
    }

    /** `free(p)` as written: reads the header below `p` and deallocates the
        block at `p - LEN_SIZE` with the layout (header value, 4). That is
        not the layout the block was allocated with, so `dealloc` is called
        against its contract: the call is logged in `badDeallocs`, and the
        model releases nothing. */
    method Free(p: nat) returns (r: FreeResult)
      requires Valid() && p in shim
      modifies this`live, this`shim, this`badDeallocs
      ensures Valid()
      ensures r == Freed(old(shim)[p], p - width, Layout(old(shim)[p], ALIGN), false)
      ensures old(live)[p - width] == Layout(old(shim)[p] + width, ALIGN)
      ensures live == old(live) && shim == old(shim) - {p}
      ensures badDeallocs == old(badDeallocs) + [(p - width, Layout(old(shim)[p], ALIGN))]
      ensures mem[..] == old(mem[..])
    {
      var size, freePtr := GetLen(p);
      var layout := FreeLayout(size, width);
      if layout.Err? {
        return FreeAborted(BadLayout);
      }
      InvAfterForget(width, mem[..], live, shim, p);
      shim := shim - {p};
      var released := Dealloc(freePtr, layout.value);
      r := Freed(size, freePtr, layout.value, released);
    }

    /** `free(p)` with the layout rebuilt as malloc and calloc built it,
        `size + LEN_SIZE` bytes at alignment 4: the block is released and
        nothing else changes. */
    method FreeCorrected(p: nat) returns (r: FreeResult)
      requires Valid() && p in shim
      modifies this`live, this`shim, this`badDeallocs
      ensures Valid()
      ensures r == Freed(old(shim)[p], p - width, Layout(old(shim)[p] + width, ALIGN), true)
      ensures live == old(live) - {p - width} && shim == old(shim) - {p}
      ensures badDeallocs == old(badDeallocs)
      ensures mem[..] == old(mem[..])
    {
      var size, freePtr := GetLen(p);
      var layout := AllocLayout(size, width);
      if layout.Err? {
        return FreeAborted(BadLayout);
      }
      AllocLayoutOk(size, width);
      InvAfterForget(width, mem[..], live, shim, p);
      shim := shim - {p};
      var released := Dealloc(freePtr, layout.value);
      r := Freed(size, freePtr, layout.value, released);
    }

    /** The C caller storing byte `v` at offset `i` of the data region it got
        as `p`: no header changes, so a later free still reads the size
        requested, and no other block's bytes change. */
    method Store(p: nat, i: nat, v: Byte)
      requires Valid() && p in shim && i < shim[p]
      modifies mem
      ensures Valid()
      ensures p + i < mem.Length && mem[..] == old(mem[..])[p + i := v]
    {
      InvAfterStore(width, mem[..], live, shim, p, i, v);
      mem[p + i] := v;
    }
  }
}
