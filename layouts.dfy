/** Rust's `core::alloc::Layout`, reduced to what the allocator shim uses:
    a size and an alignment, and the rule `Layout::from_size_align` applies
    before it builds one. */
module Layouts {
  import opened Wrappers
  import opened Words

  datatype Layout = Layout(size: nat, align: nat)

  /** isize::MAX for a usize of `width` bytes: 2^(8 * width - 1) - 1. */
  function IsizeMax(width: nat): int
  {
    Pow256(width) / 2 - 1
  }

  predicate IsPowerOfTwo(n: nat)
  {
    n == 1 || (n >= 2 && n % 2 == 0 && IsPowerOfTwo(n / 2))
  }

  /** `Layout::from_size_align(size, align)`: refused (None) unless `align` is
      a power of two and `size`, rounded up to a multiple of `align`, does not
      exceed isize::MAX. */
  function FromSizeAlign(size: nat, align: nat, width: nat): Option<Layout>
  {
    if IsPowerOfTwo(align) && size <= IsizeMax(width) - (align - 1)
    then Some(Layout(size, align))
    else None
  }
}
