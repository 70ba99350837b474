/** create_iov_buffer: the scatter/gather descriptor of a multi-part message.
    Segment i covers msg_size_list[i] bytes of the base buffer; it starts i
    strides in when a stride is configured, and right after the previous
    segment otherwise. */
module Iov {
  import opened PerfTypes

  /** ucp_dt_iov_t, with the buffer pointer written as an offset from the base. */
  datatype IovSegment = IovSegment(offset: nat, length: nat)

  /** The offset segment i starts at, stated directly rather than as the
      running total the builder keeps. */
  function SegmentOffset(sizes: seq<nat>, stride: nat, i: nat): nat
    requires i <= |sizes|
  {
    if stride != 0 then i * stride else Sum(sizes[..i])
  }

  /** The descriptor the builder is meant to produce. */
  function IovLayout(sizes: seq<nat>, stride: nat): seq<IovSegment> {
    seq(|sizes|, i requires 0 <= i < |sizes| => IovSegment(SegmentOffset(sizes, stride, i), sizes[i]))
  }

  /** Fills iov[0 .. |sizes|) in place, keeping the running offset
      iov_length_it; the rest of the array is left alone. */
  method CreateIovBuffer(iov: array<IovSegment>, sizes: seq<nat>, stride: nat)
    requires |sizes| > 0
    requires |sizes| <= iov.Length
    modifies iov
    ensures iov[..|sizes|] == IovLayout(sizes, stride)
    ensures iov[|sizes|..] == old(iov[|sizes|..])
  {
    var lengthIt: nat := 0;
    var it := 0;
    while it < |sizes|
      invariant 0 <= it <= |sizes|
      invariant lengthIt == SegmentOffset(sizes, stride, it)
      invariant forall k :: 0 <= k < it ==> iov[k] == IovSegment(SegmentOffset(sizes, stride, k), sizes[k])
      invariant forall k :: |sizes| <= k < iov.Length ==> iov[k] == old(iov[k])
    {
      iov[it] := IovSegment(lengthIt, sizes[it]);
      if stride != 0 {
        lengthIt := lengthIt + stride;
      } else {
        lengthIt := lengthIt + iov[it].length;
      }
      SumPrefixStep(sizes, it);
      it := it + 1;
    }
  }

  /** Without a stride the segments tile the message with no gap and no
      overlap: the first starts at the base, each ends where the next one
      starts, and the last ends at the total of the size list. */
  lemma ContiguousLayoutTiles(sizes: seq<nat>, i: nat)
    requires i < |sizes|
    ensures var l := IovLayout(sizes, 0);
      l[0].offset == 0
      && (i + 1 < |sizes| ==> l[i].offset + l[i].length == l[i + 1].offset)
      && (i + 1 == |sizes| ==> l[i].offset + l[i].length == Sum(sizes))
  {
    assert sizes[..0] == [];
    SumPrefixStep(sizes, i);
    if i + 1 == |sizes| {
      assert sizes[..i + 1] == sizes;
    }
  }

  /** With a stride at least as large as every size, the segments do not
      overlap, and each lies before the next. */
  lemma StridedLayoutDisjoint(sizes: seq<nat>, stride: nat, i: nat, j: nat)
    requires stride != 0
    requires forall k :: 0 <= k < |sizes| ==> sizes[k] <= stride
    requires i < j < |sizes|
    ensures var l := IovLayout(sizes, stride);
      l[i].offset + l[i].length <= l[j].offset
  {
    assert i * stride + stride == (i + 1) * stride;
    MulMonotone(i + 1, j, stride);
  }

  lemma MulMonotone(a: nat, b: nat, c: nat)
    requires a <= b
    ensures a * c <= b * c
  {
  }
}
