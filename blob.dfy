/**
  The value slot the modify framework hands to the operator, seen through the
  blob interface (`blob_t`): a byte string whose logical size can grow at
  either end and whose windows can be written. Whether the bytes live inline
  in the leaf or in large-value blocks is hidden behind this interface, and
  so it is left out here: the blob is its logical contents.
 */
module Blobs {
  import opened Sizes

  /**
    `s` with the window `[offset, offset + |d|)` overwritten by `d`: what
    exposing that window for writing and draining the data provider into it
    leaves behind.
   */
  function Written(s: seq<byte>, offset: nat, d: seq<byte>): (r: seq<byte>)
    requires offset + |d| <= |s|
    ensures |r| == |s|
    ensures r[offset..offset + |d|] == d
    ensures r[..offset] == s[..offset] && r[offset + |d|..] == s[offset + |d|..]
  {
    s[..offset] + d + s[offset + |d|..]
  }

  /**
    Growing the tail by `|d|` and then writing `d` at the old size appends `d`,
    whatever bytes the growth put in the new window.
   */
  lemma GrowTailThenWrite(v: seq<byte>, grown: seq<byte>, d: seq<byte>)
    requires |grown| == |v| + |d| && grown[..|v|] == v
    ensures Written(grown, |v|, d) == v + d
  {
    var r := Written(grown, |v|, d);
    assert r[..|v|] == v;
    assert r[|v|..] == d;
    assert r == r[..|v|] + r[|v|..];
  }

  /**
    Growing the head by `|d|` and then writing `d` at offset 0 prepends `d`,
    whatever bytes the growth put in the new window.
   */
  lemma GrowHeadThenWrite(v: seq<byte>, grown: seq<byte>, d: seq<byte>)
    requires |grown| == |d| + |v| && grown[|d|..] == v
    ensures Written(grown, 0, d) == d + v
  {
    var r := Written(grown, 0, d);
    assert r[..|d|] == d;
    assert r[|d|..] == v;
    assert r == r[..|d|] + r[|d|..];
  }

  /** A stored value; `Valid` is the store's invariant that it fits `MAX_VALUE_SIZE`. */
  class Blob {
    var bytes: seq<byte>

    ghost predicate Valid()
      reads this
    {
      |bytes| <= MaxValueSize
    }

    constructor (contents: seq<byte>)
      requires |contents| <= MaxValueSize
      ensures Valid() && bytes == contents
    {
      bytes := contents;
    }

    /** `value_size()` / `valuesize()`: the logical size, as a `size_t`. */
    function ValueSize(): (n: SizeT)
      reads this
      requires Valid()
      ensures n == |bytes| <= MaxValueSize
    {
      |bytes|
    }

    /**
      `append_region(n)`: the value grows by `n` bytes at its tail; the old
      bytes keep their offsets and the new ones are unspecified.
     */
    method AppendRegion(n: nat)
      requires Valid() && |bytes| + n <= MaxValueSize
      modifies this
      ensures Valid()
      ensures |bytes| == |old(bytes)| + n
      ensures bytes[..|old(bytes)|] == old(bytes)
    {
      bytes := bytes + seq(n, _ => 0);
    }

    /**
      `prepend_region(n)`: the value grows by `n` bytes at its head; the old
      bytes move up by `n` and the new ones are unspecified.
     */
    method PrependRegion(n: nat)
      requires Valid() && |bytes| + n <= MaxValueSize
      modifies this
      ensures Valid()
      ensures |bytes| == |old(bytes)| + n
      ensures bytes[n..] == old(bytes)
    {
      bytes := seq(n, _ => 0) + bytes;
    }

    /**
      `expose_region(rwi_write, offset, |d|)` followed by the data provider
      filling the exposed buffers with `d`.
     */
    method WriteRegion(offset: nat, d: seq<byte>)
      requires Valid() && offset + |d| <= |bytes|
      modifies this
      ensures Valid()
      ensures bytes == Written(old(bytes), offset, d)
    {
      bytes := bytes[..offset] + d + bytes[offset + |d|..];
    }
  }
}
