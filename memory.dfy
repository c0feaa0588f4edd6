/**
 * The C memory model shared by the rosidl_runtime_c string modules:
 * `size_t`, bytes and UTF-16 code units, heap blocks that may be NULL,
 * an allocator whose every request may fail, and `memcmp(...) == 0`.
 */
module Memory {

  /** Largest value of a 64-bit `size_t`. */
  const SIZE_MAX: nat := 0xFFFF_FFFF_FFFF_FFFF

  type SizeT = n: nat | n <= SIZE_MAX

  /** An `unsigned char`. */
  type Byte = b: int | 0 <= b < 0x100

  /** A `uint16_t`. */
  type UInt16 = u: int | 0 <= u < 0x1_0000

  /**
   * A pointer to a heap block: NULL, or a block whose elements are `elems`
   * (the length of `elems` is the number of elements the block was
   * allocated with). Blocks are values: two strings never share one.
   */
  datatype Buffer<T> = Null | Block(elems: seq<T>)

  /**
   * One request to the allocator (`allocate`, `zero_allocate`,
   * `reallocate`, `malloc`). Whether it succeeds is not determined by
   * anything the caller can see, so every caller must cope with both.
   */
  method Allocate() returns (ok: bool)
  {
    ok :| true;
  }

  /**
   * Index of the first position below `n` where `x` and `y` differ, or
   * `n` when their first `n` elements agree: the scan `memcmp` performs.
   */
  function FirstDifference<T(==)>(x: seq<T>, y: seq<T>, n: nat): (r: nat)
    requires n <= |x| && n <= |y|
    ensures r <= n
    ensures x[..r] == y[..r]
    ensures r < n ==> x[r] != y[r]
    decreases n
  {
    if n == 0 then 0
    else
      var r := FirstDifference(x, y, n - 1);
      if r < n - 1 then r
      else if x[n - 1] == y[n - 1] then
        assert x[..n] == x[..n - 1] + [x[n - 1]] && y[..n] == y[..n - 1] + [y[n - 1]];
        n
      else n - 1
  }

  /** `memcmp(x, y, n) == 0`: the first `n` elements agree. */
  predicate MemEqual<T(==)>(x: seq<T>, y: seq<T>, n: nat)
    requires n <= |x| && n <= |y|
  {
    FirstDifference(x, y, n) == n
  }

  lemma MemEqualIsPrefixEquality<T>(x: seq<T>, y: seq<T>, n: nat)
    requires n <= |x| && n <= |y|
    ensures MemEqual(x, y, n) <==> x[..n] == y[..n]
  {
    var r := FirstDifference(x, y, n);
    if r < n {
      assert x[..n][r] == x[r] && y[..n][r] == y[r];
    }
  }
}
