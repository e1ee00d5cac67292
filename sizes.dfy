/**
  Machine sizes and the store-wide limits the append/prepend operator works
  against. The limits are defined in headers outside this model, so they are
  declared here without a value: every proof holds for all choices of them.
 */
module Sizes {

  /** One more than the largest value of C++ `size_t` on a 64-bit target. */
  const SizeTModulus: nat := 0x1_0000_0000_0000_0000

  /** A value of C++ `size_t`. */
  type SizeT = n: nat | n < SizeTModulus

  /** A byte of a stored value or of a payload. */
  newtype byte = b: int | 0 <= b < 256

  /** `MAX_VALUE_SIZE`: no stored value may be longer than this. */
  const MaxValueSize: SizeT

  /** `MAX_IN_NODE_VALUE_SIZE`: the size from which a payload needs large-value blocks. */
  const MaxInNodeValueSize: SizeT

  /**
    `ceil_aligned(value, alignment)`: `value` rounded up to a multiple of
    `alignment`.
   */
  function CeilAligned(value: nat, alignment: nat): (r: nat)
    requires alignment > 0
    ensures r % alignment == 0
    ensures value <= r < value + alignment
  {
    var rest := (value + alignment - 1) % alignment;
    var q := (value + alignment - 1) / alignment;
    assert value + alignment - 1 == q * alignment + rest;
    MultipleIsAligned(q, alignment);
    value + alignment - 1 - rest
  }

  /** A multiple of `alignment` leaves no remainder. */
  lemma MultipleIsAligned(q: nat, alignment: nat)
    requires alignment > 0
    ensures (q * alignment) % alignment == 0
  {
    var x := q * alignment;
    var k := q - x / alignment;
    assert x == (x / alignment) * alignment + x % alignment;
    assert k * alignment == x % alignment;
    if k >= 1 {
      MulMonotone(k, 1, alignment);
    } else if k <= -1 {
      MulMonotone(-1, k, alignment);
    }
  }

  /** Multiplying by a positive factor keeps the order of integers. */
  lemma MulMonotone(i: int, j: int, c: nat)
    requires i >= j && c > 0
    ensures i * c >= j * c
  {
    assert i * c - j * c == (i - j) * c;
  }

  /** `CeilAligned` is the least multiple of `alignment` that is not below `value`. */
  lemma CeilAlignedIsLeast(value: nat, alignment: nat, m: nat)
    requires alignment > 0
    requires m % alignment == 0 && value <= m
    ensures CeilAligned(value, alignment) <= m
  {
    var r := CeilAligned(value, alignment);
    var qr, qm := r / alignment, m / alignment;
    assert r == qr * alignment + r % alignment;
    assert m == qm * alignment + m % alignment;
    if qm < qr {
      MulMonotone(qr, qm + 1, alignment);
      assert false;
    }
    MulMonotone(qm, qr, alignment);
  }

  /** Only one block count `k` has `k` blocks holding `n` bytes and `k - 1` blocks not holding them. */
  lemma CeilingIsUnique(k1: nat, k2: nat, n: nat, blockSize: nat)
    requires blockSize > 0
    requires k1 * blockSize >= n > (k1 - 1) * blockSize
    requires k2 * blockSize >= n > (k2 - 1) * blockSize
    ensures k1 == k2
  {
    if k1 < k2 {
      MulMonotone(k2 - 1, k1, blockSize);
    } else if k2 < k1 {
      MulMonotone(k1 - 1, k2, blockSize);
    }
  }
}
