/**
  The append/prepend operator of the B-tree (`btree_append_prepend_oper_t`):
  the callbacks the generic modify framework runs against an already located
  value slot, and the entry point `btree_append_prepend` that returns the
  outcome the operator recorded.
 */
module AppendPrepend {
  import opened Sizes
  import opened Blobs

  /** `append_prepend_result_t`. */
  datatype AppendPrependResult = Success | NotFound | TooLarge

  /** The end of a large-value chain from which its blocks are acquired. */
  datatype Side = Lhs | Rhs

  /** The bytes a data provider supplies; its reported size is a `size_t`. */
  type Payload = d: seq<byte> | |d| < SizeTModulus

  /** A large value handed to the acquisition hook; it records each acquisition's side. */
  class LargeBuf {
    var acquiredFrom: seq<Side>

    constructor ()
      ensures acquiredFrom == []
    {
      acquiredFrom := [];
    }
  }

  /**
    The size check as the source writes it: `value_size() + get_size()` is
    summed in `size_t`, so the sum wraps around modulo 2^64.
   */
  function NewSizeAsWritten(valueSize: SizeT, dataSize: SizeT): (n: SizeT)
    ensures valueSize + dataSize < SizeTModulus ==> n == valueSize + dataSize
    ensures valueSize + dataSize >= SizeTModulus ==> n == valueSize + dataSize - SizeTModulus
  {
    (valueSize + dataSize) % SizeTModulus
  }

  /**
    Line 18 compares the wrapped sum: it decides on the real sum only while
    that fits in a `size_t`, and on the sum less 2^64 beyond.
   */
  function ExceedsMaxAsWritten(valueSize: SizeT, dataSize: SizeT): (tooLarge: bool)
    ensures valueSize + dataSize < SizeTModulus ==>
      (tooLarge <==> valueSize + dataSize > MaxValueSize)
    ensures valueSize + dataSize >= SizeTModulus ==>
      (tooLarge <==> valueSize + dataSize - SizeTModulus > MaxValueSize)
  {
    NewSizeAsWritten(valueSize, dataSize) > MaxValueSize
  }

  /**
    The wrapped sum lets a payload through that makes the value far longer
    than `MAX_VALUE_SIZE`: any stored value of size `v >= 1` with a payload
    reporting `2^64 - v` bytes.
   */
  lemma SizeCheckWrapsAround(valueSize: SizeT)
    requires 1 <= valueSize <= MaxValueSize
    ensures var dataSize: SizeT := SizeTModulus - valueSize;
      !ExceedsMaxAsWritten(valueSize, dataSize) && valueSize + dataSize > MaxValueSize
  {
  }

  /**
    The size check computed without wrap-around: whether appending or
    prepending `dataSize` bytes to a value of `valueSize` bytes would exceed
    `MAX_VALUE_SIZE`. Every intermediate stays within `size_t`.
   */
  function ExceedsMax(valueSize: SizeT, dataSize: SizeT): (tooLarge: bool)
    ensures tooLarge <==> valueSize + dataSize > MaxValueSize
  {
    valueSize > MaxValueSize || dataSize > MaxValueSize - valueSize
  }

  /** The two checks agree whenever the sum fits in a `size_t`. */
  lemma AsWrittenAgreesWithoutWrap(valueSize: SizeT, dataSize: SizeT)
    requires valueSize + dataSize < SizeTModulus
    ensures ExceedsMaxAsWritten(valueSize, dataSize) == ExceedsMax(valueSize, dataSize)
  {
  }

  /** `btree_append_prepend_oper_t`: the payload, the direction and the recorded outcome. */
  class Operator {
    const data: Payload
    const append: bool   // true = append, false = prepend
    var result: AppendPrependResult

    /** Like the C++ constructor, this leaves `result` unset until `Operate` runs. */
    constructor (data: Payload, append: bool)
      ensures this.data == data && this.append == append
    {
      this.data := data;
      this.append := append;
    }

    /**
      `operate`: append or prepend the payload to the value found at the key.
      Returns whether the framework should commit the mutation.
     */
    method Operate(value: Blob?) returns (proceed: bool)
      requires value != null ==> value.Valid()
      modifies this, value
      ensures proceed <==> result == Success
      ensures value == null ==> result == NotFound
      ensures value != null ==> result != NotFound && value.Valid()
      ensures value != null ==> (result == TooLarge <==> |old(value.bytes)| + |data| > MaxValueSize)
      ensures value != null && result == TooLarge ==> value.bytes == old(value.bytes)
      ensures value != null && result == Success ==>
        value.bytes == if append then old(value.bytes) + data else data + old(value.bytes)
      ensures value != null && result == Success ==>
        |value.bytes| == |old(value.bytes)| + |data| <= MaxValueSize
    {
      if value == null {
        result := NotFound;
        return false;
      }

      if ExceedsMax(value.ValueSize(), |data|) {
        result := TooLarge;
        return false;
      }

      ghost var before := value.bytes;
      var oldSize := value.ValueSize();
      if append {
        value.AppendRegion(|data|);
        GrowTailThenWrite(before, value.bytes, data);
        value.WriteRegion(oldSize, data);
      } else {
        value.PrependRegion(|data|);
        GrowHeadThenWrite(before, value.bytes, data);
        value.WriteRegion(0, data);
      }

      result := Success;
      return true;
    }

    /**
      `compute_expected_change_count`: the number of blocks the transaction
      should reserve, from the payload size alone. A payload below
      `MAX_IN_NODE_VALUE_SIZE` touches only the leaf; a larger one touches the
      leaf and the whole blocks that hold the payload.
     */
    function ExpectedChangeCount(blockSize: nat): (count: nat)
      requires |data| >= MaxInNodeValueSize ==> blockSize > 0
      ensures |data| < MaxInNodeValueSize ==> count == 1
      ensures |data| >= MaxInNodeValueSize ==>
        (count - 1) * blockSize >= |data| > (count - 2) * blockSize
    {
      if |data| < MaxInNodeValueSize then
        1
      else
        var size := CeilAligned(|data|, blockSize);
        var blocks := size / blockSize;
        assert size == blocks * blockSize + size % blockSize;
        assert (blocks - 1) * blockSize == size - blockSize;
        1 + blocks
    }

    /**
      `actually_acquire_large_value`: the side a large value is acquired from,
      the right-hand end for an append and the left-hand end for a prepend.
     */
    function AcquisitionSide(): (side: Side)
      ensures side == Rhs <==> append
      ensures side == Lhs <==> !append
    {
      if append then Rhs else Lhs
    }

    /** The hook itself: one acquisition of `lb`, from the side the direction picks. */
    method ActuallyAcquireLargeValue(lb: LargeBuf)
      modifies lb
      ensures lb.acquiredFrom == old(lb.acquiredFrom) + [if append then Rhs else Lhs]
    {
      lb.acquiredFrom := lb.acquiredFrom + [AcquisitionSide()];
    }
  }

  /**
    The estimate is never below one (the leaf), and for a payload of at least
    `MAX_IN_NODE_VALUE_SIZE` bytes it is at least one more than the number of
    whole blocks in the payload, for every positive block size.
   */
  lemma ExpectedChangeCountAtLeastFloor(op: Operator, blockSize: nat)
    requires blockSize > 0
    ensures op.ExpectedChangeCount(blockSize) >= 1
    ensures |op.data| >= MaxInNodeValueSize ==>
      op.ExpectedChangeCount(blockSize) >= 1 + |op.data| / blockSize
  {
    var count := op.ExpectedChangeCount(blockSize);
    var p, q := |op.data|, |op.data| / blockSize;
    assert p == q * blockSize + p % blockSize;
    if p >= MaxInNodeValueSize && count - 1 < q {
      MulMonotone(q, count, blockSize);
      assert false;
    }
  }

  /**
    For a payload of at least `MAX_IN_NODE_VALUE_SIZE` bytes the estimate is
    one for the leaf plus the payload size over the block size, rounded up.
   */
  lemma ExpectedChangeCountIsCeilingQuotient(op: Operator, blockSize: nat)
    requires blockSize > 0 && |op.data| >= MaxInNodeValueSize
    ensures op.ExpectedChangeCount(blockSize) == 1 + (|op.data| + blockSize - 1) / blockSize
  {
    var count, p := op.ExpectedChangeCount(blockSize), |op.data|;
    var q := (p + blockSize - 1) / blockSize;
    assert p + blockSize - 1 == q * blockSize + (p + blockSize - 1) % blockSize;
    assert (q - 1) * blockSize == q * blockSize - blockSize;
    CeilingIsUnique(count - 1, q, p, blockSize);
  }

  /**
    A 200-byte payload with 4096-byte blocks, when it is large enough to need
    large-value blocks, is estimated at two: the leaf and one block.
   */
  lemma ExpectedChangeCountTwoHundredBytes(op: Operator)
    requires |op.data| == 200 && MaxInNodeValueSize <= 200
    ensures op.ExpectedChangeCount(4096) == 2
  {
    ExpectedChangeCountIsCeilingQuotient(op, 4096);
  }

  /** The bytes of `chunks`, in order. */
  function Flatten(chunks: seq<seq<byte>>): seq<byte>
  {
    if chunks == [] then [] else chunks[0] + Flatten(chunks[1..])
  }

  /**
    The payload laid down in fresh large-value blocks of `blockSize` bytes,
    each block holding one non-empty chunk: the layout the change count
    reserves blocks for.
   */
  function Chunks(d: seq<byte>, blockSize: nat): (blocks: seq<seq<byte>>)
    requires blockSize > 0
    ensures Flatten(blocks) == d
    ensures forall i :: 0 <= i < |blocks| ==> 0 < |blocks[i]| <= blockSize
    ensures |d| <= |blocks| * blockSize
    ensures |blocks| > 0 ==> (|blocks| - 1) * blockSize < |d|
    decreases |d|
  {
    if |d| == 0 then
      []
    else if |d| <= blockSize then
      [d]
    else
      var rest := Chunks(d[blockSize..], blockSize);
      assert ([d[..blockSize]] + rest)[1..] == rest;
      assert (|rest| + 1) * blockSize == |rest| * blockSize + blockSize;
      [d[..blockSize]] + rest
  }

  /**
    For a payload of at least `MAX_IN_NODE_VALUE_SIZE` bytes the estimate is
    exactly the leaf plus one block per chunk of the payload's block layout.
   */
  lemma ExpectedChangeCountIsLeafPlusChunks(op: Operator, blockSize: nat)
    requires blockSize > 0 && |op.data| >= MaxInNodeValueSize
    ensures op.ExpectedChangeCount(blockSize) == 1 + |Chunks(op.data, blockSize)|
  {
    var count := op.ExpectedChangeCount(blockSize);
    var chunks := |Chunks(op.data, blockSize)|;
    if chunks == 0 {
      assert count - 1 <= 0 by {
        if count >= 2 {
          MulMonotone(count - 2, 0, blockSize);
        }
      }
    } else {
      CeilingIsUnique(count - 1, chunks, |op.data|, blockSize);
    }
  }

  /**
    An appender and a prepender acquire large values from opposite ends, so
    they never both start from the same end of a shared chain.
   */
  lemma OppositeDirectionsAcquireOppositeSides(a: Operator, b: Operator)
    requires a.append != b.append
    ensures a.AcquisitionSide() != b.AcquisitionSide()
  {
  }

  /**
    `btree_append_prepend`: run the operator on the value found at the key and
    return the outcome it recorded. The traversal that finds `value` is not
    part of this model; `value` is the slot it hands to `Operate`.
   */
  method BtreeAppendPrepend(value: Blob?, data: Payload, append: bool) returns (r: AppendPrependResult)
    requires value != null ==> value.Valid()
    modifies value
    ensures value == null ==> r == NotFound
    ensures value != null ==> r != NotFound && value.Valid()
    ensures value != null ==> (r == TooLarge <==> |old(value.bytes)| + |data| > MaxValueSize)
    ensures value != null && r == TooLarge ==> value.bytes == old(value.bytes)
    ensures value != null && r == Success ==>
      value.bytes == if append then old(value.bytes) + data else data + old(value.bytes)
  {
    var oper := new Operator(data, append);
    var _ := oper.Operate(value);
    r := oper.result;
  }

  /**
    A client of the entry point: appending " world" to "hello", then
    prepending it, on a store whose limit admits 17 bytes.
   */
  method HelloWorldScenario()
    requires MaxValueSize >= 17
  {
    var hello: seq<byte> := [104, 101, 108, 108, 111];
    var world: seq<byte> := [32, 119, 111, 114, 108, 100];
    var v := new Blob(hello);
    var r := BtreeAppendPrepend(v, world, true);
    assert r == Success && v.bytes == hello + world;
    r := BtreeAppendPrepend(v, world, false);
    assert r == Success && v.bytes == world + hello + world && |v.bytes| == 17;
    r := BtreeAppendPrepend(null, world, true);
    assert r == NotFound;
  }
}
