# A verified model of the c-kzg RISC Zero allocator shim

The c-kzg library is written in C. On the RISC Zero zkVM it finds no C
allocator, so the Rust bindings supply `malloc`, `calloc` and `free` on top
of Rust's global allocator. Each block starts with a one-word header, a
`usize` of `LEN_SIZE` bytes, that holds the size the caller asked for. The
caller gets the address just past the header. `free` reads the header back
and rebuilds the layout it hands to `dealloc`. There are two copies of this
shim:

- the `risc0_ffi` module of the bindings crate, written by hand, which also
  has the assertion hook `__assert_func`;
- the `risc0_c_kzg_alloc_mod` attribute macro, which appends the same items
  to any module it is applied to.

The Dafny modules are:

- `Wrappers` (wrappers.dfy): `Option` and `Result`.
- `Words` (words.dfy): bytes, the usize range `[0, 256^LEN_SIZE)`, the
  little-endian encoding of a word, and usize addition and multiplication.
  A build with overflow checks panics on overflow; a build without them
  wraps.
- `Layouts` (layouts.dfy): `core::alloc::Layout` and the rule
  `Layout::from_size_align` applies: the alignment must be a power of two,
  and the size, rounded up to the alignment, must not exceed `isize::MAX`.
- `Header` (header.dfy): what `store_len` and `get_len` do to memory, seen
  as a sequence of bytes, and the header round trip.
- `Shim` (shim.dfy): the class `Heap`. Its fields are:
  - `mem`: the whole address space as an array of bytes;
  - `live`: the backing allocator's table of live blocks, mapping each
    block's start to the layout it was allocated with;
  - `shim`: a ghost map from each data pointer handed out to the size that
    was requested for it;
  - `badDeallocs`: a ghost log of the `dealloc` calls made with a layout
    other than the block's allocation layout, which Rust leaves undefined.

  The methods `StoreLen`, `GetLen`, `Malloc`, `Calloc` and `Free` follow the
  source step by step. `Valid()` is the heap invariant:
  - live blocks are valid layouts, placed above null, aligned and pairwise
    disjoint;
  - every data pointer handed out has a live block with malloc's layout, and
    a header that holds its size.

  Every method except `StoreLen` preserves `Valid()`. `StoreLen` is the
  raw header write; only `StoreNewLen` calls it, on a block no data pointer
  points into yet, and `StoreNewLen` re-establishes the invariant.
- `AllocMacro` (alloc_macro.dfy): the attribute macro, as an operation on
  module items.

`LEN_SIZE` is the parameter `width` (the class constant `Heap.width`). It
is at least 1; on the 32-bit RISC Zero target it is 4. The backing
allocator is abstract. Each allocation takes the address the allocator
would choose as a parameter, `offer`. The model accepts that address when
the block would be non-empty, non-null, aligned, inside memory and disjoint
from every live block. Otherwise the allocator returns null. This covers
every behaviour of a correct allocator, including running out of memory.

Panics and aborts (`expect`, `handle_alloc_error`, `panic!`, arithmetic
overflow) are results of the datatype `Abort`. They are never a null
pointer. The `Heap` uses the arithmetic of a build with overflow checks:
`size + LEN_SIZE` and `nobj * size` panic when they overflow.

The generated copy (c-kzg-risc0-alloc/src/lib.rs:27-82) is the hand-written
one (bindings/rust/src/lib.rs:35-90) token for token, minus
`__assert_func`. `AllocMacro.BuiltinMatchesHandWritten` records this. Each
generated function therefore has the semantics of the `Shim.Heap` method
of the same name. The macro appends seven items, `extern crate alloc;`
included.

`malloc` and `calloc` allocate with the layout `(size + LEN_SIZE, 4)`
(bindings/rust/src/lib.rs:53, :69). `free` hands `dealloc` the layout
`(size, 4)` (bindings/rust/src/lib.rs:86-89). Rust's `dealloc` requires the
layout the block was allocated with. The model follows the code; see
Findings.

## Model

| member | source | states |
|---|---|---|
| `Words.DecodeEncode` | bindings/rust/src/lib.rs:39-49 | a header word read back gives the value stored in it, for every usize value |
| `Words.EncodeDecode` | bindings/rust/src/lib.rs:46-49 | every byte pattern is the encoding of the value `get_len` reads from it, so header encoding is a bijection between usize values and `LEN_SIZE`-byte strings |
| `Header.HeaderRoundTrip` | bindings/rust/src/lib.rs:39-49 | `get_len(store_len(b, s)) == (s, b)`: from the data pointer `store_len` returns, `get_len` recovers both the stored size and the block start |
| `Header.WriteHeader` | bindings/rust/src/lib.rs:39-44 | memory after `store_len(block_ptr, size)`: the same length, the `LEN_SIZE` bytes at `block_ptr` hold the little-endian encoding of `size`, and every other byte is unchanged |
| `Header.ReadHeader` | bindings/rust/src/lib.rs:46-49 | `get_len(data_ptr)`: a usize value, read from the word whose address is `data_ptr - LEN_SIZE`, which it returns as the second component |
| `Shim.AllocLayoutOk` | bindings/rust/src/lib.rs:53-54 | malloc's layout exists exactly when `size + LEN_SIZE <= isize::MAX - 3`, and it is then `(size + LEN_SIZE, 4)`; it fails with an overflow panic exactly when `size + LEN_SIZE` exceeds usize, and with the `expect` panic otherwise |
| `Shim.FreeLayoutMismatch` | bindings/rust/src/lib.rs:86-87 | for every size malloc or calloc accepts, `free`'s `from_size_align(size, 4)` never panics, yet its layout is `LEN_SIZE` bytes smaller than the allocation layout and so differs from it |
| `Shim.WrappingAllocLayoutTooSmall` | bindings/rust/src/lib.rs:53-54 | in a build without overflow checks, `malloc(usize::MAX)` requests a block of `LEN_SIZE - 1` bytes, too small for the header `store_len` writes |
| `Shim.InvAfterPlace` | bindings/rust/src/lib.rs:55-59 | a block the backing allocator places, zeroed or not, was not live before and overlaps no live block, so every header keeps its value |
| `Shim.InvAfterTag` | bindings/rust/src/lib.rs:61 | writing the header of a fresh block tags its data pointer with the requested size and leaves every other data pointer's header intact |
| `Shim.InvAfterStore` | bindings/rust/src/lib.rs:61-63 | a byte the caller stores inside `[data, data + size)` of one of its blocks changes no header, so every block, that one included, still reads back its requested size |
| `Shim.AssertFunc` | bindings/rust/src/lib.rs:92-100 | `__assert_func` never returns: it panics with "c_kzg assertion failure." whatever its arguments |
| `Shim.Heap.BackingAlloc` | bindings/rust/src/lib.rs:55-59 | `alloc`/`alloc_zeroed` return either null, with nothing changed, or a new block that is aligned and disjoint from the live ones, which becomes live with that layout; `alloc_zeroed` zeroes exactly that block |
| `Shim.Heap.Dealloc` | bindings/rust/src/lib.rs:89 | `dealloc` releases the block exactly when given the layout the block was allocated with. A call with any other layout, which Rust leaves undefined, releases nothing and is appended to `badDeallocs` |
| `Shim.Heap.StoreLen` | bindings/rust/src/lib.rs:39-44 | `store_len` writes `size` into the `LEN_SIZE` bytes at `block_ptr`, changes no other byte, and returns `block_ptr + LEN_SIZE`, from which the header reads back `(size, block_ptr)` |
| `Shim.Heap.StoreNewLen` | bindings/rust/src/lib.rs:61 | `store_len` on a block just obtained keeps the heap invariant and tags the returned data pointer with `size`; the data region ends inside the block |
| `Shim.Heap.GetLen` | bindings/rust/src/lib.rs:46-49 | `get_len(p)` returns the word below `p` and its address; for a pointer from malloc or calloc, that is the size requested and the start of a live block allocated with `(size + LEN_SIZE, 4)` |
| `Shim.Heap.Malloc` | bindings/rust/src/lib.rs:52-64 | `malloc(size)` never returns null. It panics with the layout error of `AllocLayout`, or aborts in `handle_alloc_error` when the allocator returns null; in both cases nothing changes. Otherwise it returns `block + LEN_SIZE`, where the new block has layout `(size + LEN_SIZE, 4)`. Its header holds `size`, no other byte changes, and the heap invariant is kept |
| `Shim.ZeroedDataRegion` | bindings/rust/src/lib.rs:71-77 | in a block that `alloc_zeroed` zeroed and `store_len` then gave a header, every byte of the data region is still 0 |
| `Shim.InvAfterForget` | bindings/rust/src/lib.rs:84-89 | forgetting a data pointer keeps every other tag, and no remaining data pointer has its header in the freed block, so `dealloc` of that block disturbs no other allocation |
| `Shim.Heap.Calloc` | bindings/rust/src/lib.rs:67-80 | `calloc(nobj, size)` is malloc of `nobj * size` on a zeroed block: it panics when the product overflows, the header holds the product, every byte of the data region is 0, and nothing outside the block changes |
| `Shim.Heap.Free` | bindings/rust/src/lib.rs:83-90 | `free(p)` as written recovers the size requested and hands `dealloc` the right block, `p - LEN_SIZE`, but with the layout `(size, 4)` instead of the allocation layout `(size + LEN_SIZE, 4)`. That call is logged in `badDeallocs`. The model treats such a call, which Rust leaves undefined, as releasing nothing, so here the block stays allocated; memory is unchanged and `p` is no longer tagged |
| `Shim.Heap.FreeCorrected` | bindings/rust/src/lib.rs:83-90 | `free(p)` with the layout rebuilt as `(size + LEN_SIZE, 4)` recovers the size requested, hands `dealloc` the block `p - LEN_SIZE` with its allocation layout, and releases exactly that block; no undefined call is made, and memory and every other block stay as they were |
| `Shim.Heap.Store` | bindings/rust/src/lib.rs:61-63 | a caller's store into its data region keeps the heap invariant and changes only that byte |
| `AllocMacro.Expand` | c-kzg-risc0-alloc/src/lib.rs:21-94 | input that is not a module panics with "Failed to parse input as a module". Otherwise the module keeps its attributes, visibility and name, and its content becomes its own items in order followed by the seven generated items. A bodiless `mod m;` gets exactly the generated items. The output is determined by `input` alone, so `_attr` has no influence, and the wrapper name `__risc0_c_kzg_alloc_mod` does not appear |
| `AllocMacro.BuiltinMatchesHandWritten` | c-kzg-risc0-alloc/src/lib.rs:26-83 | the generated items are the hand-written module's first seven items, in the same order; the only hand-written item left out is `__assert_func` |
| `AllocMacro.ExportsConcat` | c-kzg-risc0-alloc/src/lib.rs:87-89 | the C symbols of a module whose items are extended are those of the original items plus those of the added ones |
| `AllocMacro.BuiltinExports` | c-kzg-risc0-alloc/src/lib.rs:43-82 | the generated items export exactly the symbols `malloc`, `calloc` and `free` |
| `AllocMacro.ExpandedExports` | c-kzg-risc0-alloc/src/lib.rs:87-93 | after expansion a module exports what it exported before plus `malloc`, `calloc` and `free` |

## Findings

| source | as written | input that shows it | evidently intended | confidence | as-written member | corrected member |
|---|---|---|---|---|---|---|
| bindings/rust/src/lib.rs:86 | `free` deallocates with `Layout::from_size_align(size, 4)`, where `size` is the header value. The generated copy does the same at c-kzg-risc0-alloc/src/lib.rs:78 | `malloc(16)` allocates its block with layout `(16 + LEN_SIZE, 4)`; `free` on the returned pointer passes `(16, 4)` to `dealloc`, breaking `dealloc`'s requirement that the layout be the allocation layout | `from_size_align(size + LEN_SIZE, 4)`, as in malloc and calloc | high, not executed | `Shim.Heap.Free` (with `Shim.FreeLayoutMismatch`) | `Shim.Heap.FreeCorrected` |

## Left out

- `bindings/rust/src/ethereum_kzg_settings/mod.rs` is not part of this model. Its lazy process-wide settings singleton is about concurrent one-time initialisation. It loads its data from `include_bytes!` blobs, and it builds the settings through foreign calls into the C library.
- The re-exports and crate attributes (bindings/rust/src/lib.rs:1-32) are declarations with no behaviour.
- The backing allocator's own algorithm and its thread safety are not modelled; it is the `offer` parameter described above.
- Token parsing and printing by `syn` and `quote` are not modelled. Items are opaque values, and an input is either a module or not.
- The `Heap` uses overflow-checked arithmetic. The wrap-around of a build without overflow checks appears only in `Shim.WrappingAllocLayoutTooSmall`. A wrapped `nobj * size` in `calloc` is not modelled.
- `Shim.Heap.StoreLen` writes the header byte by byte. It does not capture that the `usize` store may be misaligned when `LEN_SIZE` is 8 and the block is only 4-aligned.
- `Shim.Heap.Free` and `Shim.Heap.FreeCorrected` require a pointer that malloc or calloc returned and that has not been freed. Any other pointer is undefined behaviour and is not modelled. This includes `free(NULL)`, which C defines as a no-op but which here would read a header below address 0.
- `Shim.Heap.Dealloc` models a layout mismatch, which is undefined behaviour, as releasing nothing. What a real allocator does then is not captured.
