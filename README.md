# Append/prepend operator of the B-tree store

This project models the operator that appends or prepends a byte payload to
a value already stored in the B-tree (`btree_append_prepend_oper_t`), as the
generic modify framework drives it, and proves what the operator promises:

- With no value at the key, the outcome is `NotFound` and the framework is
  told not to commit.
- A value that would grow past `MAX_VALUE_SIZE` is rejected with `TooLarge`
  before any region is touched, and its bytes stay as they were.
- Otherwise an append leaves `V + D` and a prepend leaves `D + V`. The tail or
  head grows by exactly `|D|`, the window `[|V|, |V| + |D|)` or `[0, |D|)` is
  written, and the new size never exceeds `MAX_VALUE_SIZE`.
- `Operate` returns true exactly when the outcome is `Success`.
- The block-count estimate is 1 for a payload below `MAX_IN_NODE_VALUE_SIZE`.
  Otherwise it is one plus the payload size divided by the block size, rounded
  up. This is at least one plus the rounded-down quotient.
- The large-value acquisition hook takes the right-hand side for an append and
  the left-hand side for a prepend.

Files:

- `sizes.dfy` (module `Sizes`) holds `size_t`, bytes, the two store limits and
  `ceil_aligned`. The limits are declared without a value, so every result
  holds for every choice of them. `ceil_aligned` is modelled as rounding up to
  a multiple of the alignment.
- `blob.dfy` (module `Blobs`) holds the value slot seen through the blob
  interface. It is a class whose `bytes` field is the value's logical
  contents. `append_region`, `prepend_region` and "expose a window for writing,
  then drain the data provider into it" are its methods. The bytes a growth
  adds are left unspecified by the contracts.
- `append_prepend.dfy` (module `AppendPrepend`) holds the operator class
  (`data`, `append` and `result` are its fields), its three callbacks, the
  size check as written and corrected, and the entry point
  `btree_append_prepend`.

The block size is a parameter, because it comes from the transaction's cache.
The hook's "acquire from this side" is recorded in a `LargeBuf` object.

## Model

| member | source | states |
|---|---|---|
| `AppendPrepend.Operator.constructor` | src/btree/append_prepend.cc:7-9 | the operator keeps the payload and the direction it is given; `result` is left unset until `operate` runs |
| `AppendPrepend.Operator.Operate` | src/btree/append_prepend.cc:11-39 | absent value gives `NotFound`. Too large, decided on the exact old size plus payload size, gives `TooLarge` with the bytes unchanged. Otherwise the bytes become old + payload (append) or payload + old (prepend), the size is exactly old + payload and at most `MAX_VALUE_SIZE`, and the store invariant is kept. Returns true iff result is `Success` |
| `AppendPrepend.ExceedsMax` | src/btree/append_prepend.cc:17-18 | corrected size check: true exactly when value size + payload size exceeds `MAX_VALUE_SIZE`, with no `size_t` intermediate wrapping |
| `AppendPrepend.NewSizeAsWritten` | src/btree/append_prepend.cc:17 | the `size_t` sum at line 17 is the exact sum when it fits in 64 bits and the sum minus 2^64 otherwise |
| `AppendPrepend.ExceedsMaxAsWritten` | src/btree/append_prepend.cc:17-18 | the check as written: while the sum fits in a `size_t` it is true exactly when the sum exceeds `MAX_VALUE_SIZE`; beyond that it compares the sum less 2^64 instead |
| `AppendPrepend.SizeCheckWrapsAround` | src/btree/append_prepend.cc:17-18 | for any stored size v with 1 <= v <= `MAX_VALUE_SIZE`, a payload reporting 2^64 - v bytes passes the check as written although the real new size exceeds the limit |
| `AppendPrepend.AsWrittenAgreesWithoutWrap` | src/btree/append_prepend.cc:17-18 | the check as written and the corrected check give the same answer whenever the sum fits in a `size_t` |
| `Blobs.Blob.ValueSize` | src/btree/append_prepend.cc:27 | `value_size()` / `valuesize()`: the logical length, which under the store invariant is at most `MAX_VALUE_SIZE` and so fits a `size_t` |
| `Blobs.Blob.AppendRegion` | src/btree/append_prepend.cc:29 | tail growth: the size grows by exactly n, the old bytes keep their offsets, the store invariant is kept |
| `Blobs.Blob.PrependRegion` | src/btree/append_prepend.cc:32 | head growth: the size grows by exactly n, the old bytes move up by n, the store invariant is kept |
| `Blobs.Blob.WriteRegion` | src/btree/append_prepend.cc:30 | exposing the window of length len(d) at `offset` for writing and filling it from the provider writes `d` there and nothing else |
| `Blobs.Written` | src/btree/append_prepend.cc:36 | filling a window keeps the length, puts `d` in the window and keeps the bytes on either side |
| `Blobs.GrowTailThenWrite` | src/btree/append_prepend.cc:28-30 | growing the tail by len(d) and writing `d` at the old size gives old + `d`, whatever the growth put in the new window |
| `Blobs.GrowHeadThenWrite` | src/btree/append_prepend.cc:31-33 | growing the head by len(d) and writing `d` at offset 0 gives `d` + old, whatever the growth put in the new window |
| `AppendPrepend.Operator.ExpectedChangeCount` | src/btree/append_prepend.cc:41-49 | 1 for a payload below `MAX_IN_NODE_VALUE_SIZE`. Otherwise count - 1 blocks hold the payload but count - 2 do not, so count - 1 is the payload size over the block size, rounded up |
| `AppendPrepend.ExpectedChangeCountAtLeastFloor` | src/btree/append_prepend.cc:41-48 | the estimate is at least 1, and for a large payload at least 1 + floor(payload size / block size), for every positive block size |
| `AppendPrepend.ExpectedChangeCountIsCeilingQuotient` | src/btree/append_prepend.cc:44-47 | for a large payload the estimate is exactly 1 + (payload size + block size - 1) / block size, one plus the rounded-up quotient |
| `AppendPrepend.ExpectedChangeCountTwoHundredBytes` | src/btree/append_prepend.cc:44-47 | a 200-byte payload with 4096-byte blocks, when it needs large-value blocks, is estimated at 2 |
| `AppendPrepend.Chunks` | src/btree/append_prepend.cc:46-47 | the payload laid out in large-value blocks: the chunks concatenate back to the payload, each holds between 1 and block-size bytes, and their number is the payload size over the block size, rounded up |
| `AppendPrepend.ExpectedChangeCountIsLeafPlusChunks` | src/btree/append_prepend.cc:44-48 | for a large payload the estimate is exactly one (the leaf) plus the number of blocks that layout needs |
| `Sizes.CeilAligned` | src/btree/append_prepend.cc:45 | `ceil_aligned` gives a multiple of the alignment that is at least the value and less than the value plus the alignment |
| `Sizes.CeilAlignedIsLeast` | src/btree/append_prepend.cc:45 | no multiple of the alignment at or above the value is smaller than `ceil_aligned` |
| `AppendPrepend.Operator.AcquisitionSide` | src/btree/append_prepend.cc:51-57 | the right-hand side exactly when appending, the left-hand side exactly when prepending |
| `AppendPrepend.Operator.ActuallyAcquireLargeValue` | src/btree/append_prepend.cc:51-57 | the hook performs one acquisition of the large value, from the right-hand side for an append and the left-hand side for a prepend |
| `AppendPrepend.OppositeDirectionsAcquireOppositeSides` | src/btree/append_prepend.cc:51-57 | an appender and a prepender never acquire from the same side |
| `AppendPrepend.BtreeAppendPrepend` | src/btree/append_prepend.cc:65-69 | the entry point returns the result `operate` recorded: `NotFound` for an absent value, `TooLarge` exactly when the size limit would be exceeded (value unchanged), else `Success` with the payload appended or prepended |

## Left out

- `run_btree_modify_oper` (line 67) is not modelled. It holds the key lookup, latching, commit and the order of the callbacks, in a framework that is not part of this model. `BtreeAppendPrepend` takes the located slot, which may be absent, and hands it straight to `Operate`.
- The transaction object, the buffer cache and `get_block_size()` (line 23) are left out. The block size is a parameter of `ExpectedChangeCount`.
- The blob's inline/overflow layout, `buffer_group_t` and `blob_acq_t` are left out. A blob is its logical byte string, so growth and window writes act on a sequence.
- `co_acquire_large_buf_rhs` / `co_acquire_large_buf_lhs` (lines 53-55) are coroutine lock acquisitions in foreign code. Only the side each acquisition is taken from is recorded.
- `castime_t`, `order_token_t` and `boost::shared_ptr` are pass-through metadata and ownership. The payload is a byte sequence owned by the operator.
- The streaming of `get_data_into_buffers` (line 36) is modelled as copying the known payload into the exposed window in one step.
- I/O faults from the collaborators are not modelled. The operator passes them upward untouched.
- AppendPrepend.Operator.ExpectedChangeCount: computed on unbounded integers. It does not model the `size_t` wrap of `ceil_aligned` for a payload within one block of 2^64 bytes. It also does not model the conversion of the count to `int`, which could only overflow for payloads of at least 2^31 - 1 blocks.
- AppendPrepend.Operator.Operate: uses the corrected size check (see Findings). It behaves as the source does for every payload whose size plus the value size fits in 64 bits (`AsWrittenAgreesWithoutWrap`).

## Findings

| source | as written | input that shows it | evidently intended | confidence | as-written member | corrected member |
|---|---|---|---|---|---|---|
| src/btree/append_prepend.cc:17-18 | `new_size = value_size() + get_size()` is a `size_t` sum, so it wraps modulo 2^64 before it is compared with `MAX_VALUE_SIZE` | a stored value of 1 byte and a data provider reporting 2^64 - 1 bytes: the sum wraps to 0, the check passes, and the operator grows the value far past the limit | reject whenever the real new size exceeds `MAX_VALUE_SIZE` | low; not executed (it needs a provider that reports an enormous size) | `AppendPrepend.ExceedsMaxAsWritten`, `AppendPrepend.SizeCheckWrapsAround` | `AppendPrepend.ExceedsMax` |
