/** Record storage in one piece, in chunks, or in a mix of both
(benchmarks/prototypes/record_storage/record_storage.hpp:58-141 and 325-359).

Whatever the layout, the storage must behave as one flat buffer of 16384 bytes.
*/
module SegmentedStorage {
  import opened Accounting
  import opened Bytes

  datatype Layout = Contiguous | Chunked | Hybrid

  const CHUNK_BYTES: nat := 256
  const INLINE_BYTES: nat := 512
  const OVERFLOW_CHUNK_BYTES: nat := 1024
  const OVERFLOW_CHUNKS: nat := 15
  const TAIL_BYTES: nat := 512
  const TAIL_OFFSET: nat := 15872

  function SegmentCount(layout: Layout): nat {
    match layout
    case Contiguous => 1
    case Chunked => MAXIMUM_RECORD_BYTES / CHUNK_BYTES
    case Hybrid => OVERFLOW_CHUNKS + 2
  }

  function SegmentSize(layout: Layout, i: nat): (size: nat)
    ensures size > 0
  {
    match layout
    case Contiguous => MAXIMUM_RECORD_BYTES
    case Chunked => CHUNK_BYTES
    case Hybrid => if i == 0 then INLINE_BYTES else if i <= OVERFLOW_CHUNKS then OVERFLOW_CHUNK_BYTES else TAIL_BYTES
  }

  /** Where segment `i` begins in the flat buffer. */
  function SegmentBase(layout: Layout, i: nat): nat {
    match layout
    case Contiguous => 0
    case Chunked => CHUNK_BYTES * i
    case Hybrid => if i == 0 then 0 else INLINE_BYTES + OVERFLOW_CHUNK_BYTES * (i - 1)
  }

  /** A place in the segments. */
  datatype Place = Place(segment: nat, within: nat)

  /** The segment and position the code computes for an offset. */
  function Locate(layout: Layout, offset: nat): Place {
    match layout
    case Contiguous => Place(0, offset)
    case Chunked => Place(offset / CHUNK_BYTES, offset % CHUNK_BYTES)
    case Hybrid =>
      if offset < INLINE_BYTES then Place(0, offset)
      else if offset < TAIL_OFFSET then
        Place(1 + (offset - INLINE_BYTES) / OVERFLOW_CHUNK_BYTES, (offset - INLINE_BYTES) % OVERFLOW_CHUNK_BYTES)
      else Place(OVERFLOW_CHUNKS + 1, offset - TAIL_OFFSET)
  }

  /** Segments tile the buffer: the place of an offset is the one segment that covers it. */
  lemma LocateCovers(layout: Layout, offset: nat)
    requires offset < MAXIMUM_RECORD_BYTES
    ensures var p := Locate(layout, offset);
            && p.segment < SegmentCount(layout) && p.within < SegmentSize(layout, p.segment)
            && offset == SegmentBase(layout, p.segment) + p.within
  {}

  lemma LocateUnique(layout: Layout, offset: nat, i: nat)
    requires offset < MAXIMUM_RECORD_BYTES && i < SegmentCount(layout)
    requires SegmentBase(layout, i) <= offset < SegmentBase(layout, i) + SegmentSize(layout, i)
    ensures Locate(layout, offset) == Place(i, offset - SegmentBase(layout, i))
  {}

  predicate SegmentsOk(layout: Layout, segments: seq<seq<byte>>) {
    && |segments| == SegmentCount(layout)
    && forall i :: 0 <= i < |segments| ==> |segments[i]| == SegmentSize(layout, i)
  }

  function ByteAt(layout: Layout, segments: seq<seq<byte>>, offset: nat): byte
    requires SegmentsOk(layout, segments) && offset < MAXIMUM_RECORD_BYTES
  {
    LocateCovers(layout, offset);
    var p := Locate(layout, offset);
    segments[p.segment][p.within]
  }

  /** The flat buffer the segments stand for. */
  function Flat(layout: Layout, segments: seq<seq<byte>>): (r: seq<byte>)
    requires SegmentsOk(layout, segments)
    ensures |r| == MAXIMUM_RECORD_BYTES
  {
    seq(MAXIMUM_RECORD_BYTES, o requires 0 <= o < MAXIMUM_RECORD_BYTES => ByteAt(layout, segments, o))
  }

  /** Writing inside one segment is writing at that place of the flat buffer. */
  lemma SegmentWrite(layout: Layout, segments: seq<seq<byte>>, offset: nat, bytes: seq<byte>)
    requires SegmentsOk(layout, segments) && offset < MAXIMUM_RECORD_BYTES
    requires var p := Locate(layout, offset); p.within + |bytes| <= SegmentSize(layout, p.segment)
    ensures var p := Locate(layout, offset);
            && p.segment < |segments| && p.within + |bytes| <= |segments[p.segment]|
            && offset + |bytes| <= MAXIMUM_RECORD_BYTES
            && var segments' := segments[p.segment := Splice(segments[p.segment], p.within, bytes)];
               SegmentsOk(layout, segments') && Flat(layout, segments') == Splice(Flat(layout, segments), offset, bytes)
  {
    LocateCovers(layout, offset);
    SegmentEnds(layout, Locate(layout, offset).segment);
    var p := Locate(layout, offset);
    var segments' := segments[p.segment := Splice(segments[p.segment], p.within, bytes)];
    var after, spliced := Flat(layout, segments'), Splice(Flat(layout, segments), offset, bytes);
    forall o | 0 <= o < MAXIMUM_RECORD_BYTES
      ensures after[o] == spliced[o]
    {
      ByteWritten(layout, segments, offset, bytes, o);
    }
  }

  lemma SegmentEnds(layout: Layout, i: nat)
    requires i < SegmentCount(layout)
    ensures SegmentBase(layout, i) + SegmentSize(layout, i) <= MAXIMUM_RECORD_BYTES
  {}

  lemma ByteWritten(layout: Layout, segments: seq<seq<byte>>, offset: nat, bytes: seq<byte>, o: nat)
    requires SegmentsOk(layout, segments) && offset < MAXIMUM_RECORD_BYTES && o < MAXIMUM_RECORD_BYTES
    requires var p := Locate(layout, offset);
             p.segment < |segments| && p.within + |bytes| <= |segments[p.segment]|
    ensures var p := Locate(layout, offset);
            var segments' := segments[p.segment := Splice(segments[p.segment], p.within, bytes)];
            && SegmentsOk(layout, segments')
            && ByteAt(layout, segments', o) ==
               if offset <= o < offset + |bytes| then bytes[o - offset] else ByteAt(layout, segments, o)
  {
    hide Splice, SegmentCount, SegmentSize, SegmentBase, Locate;
    LocateCovers(layout, offset);
    LocateCovers(layout, o);
    var p, q := Locate(layout, offset), Locate(layout, o);
    if offset <= o < offset + |bytes| {
      LocateUnique(layout, o, p.segment);
    }
  }

  /** Writing two pieces one after the other is writing them as one. */
  lemma SplicePieces(flat: seq<byte>, offset: nat, a: seq<byte>, b: seq<byte>)
    requires offset + |a| + |b| <= |flat|
    ensures Splice(Splice(flat, offset, a), offset + |a|, b) == Splice(flat, offset, a + b)
  {
    assert Splice(Splice(flat, offset, a), offset + |a|, b) == Splice(flat, offset, a + b);
  }

  class Storage {
    const layout: Layout
    var segments: seq<seq<byte>>

    ghost predicate Valid()
      reads this
    {
      SegmentsOk(layout, segments)
    }

    ghost function Contents(): seq<byte>
      requires Valid()
      reads this
    {
      Flat(layout, segments)
    }

    constructor (choice: Layout)
      ensures Valid() && layout == choice && Contents() == seq(MAXIMUM_RECORD_BYTES, _ => 0)
    {
      layout := choice;
      segments := seq(SegmentCount(choice), i requires 0 <= i < SegmentCount(choice) =>
                        seq(SegmentSize(choice, i), _ => 0));
      new;
      forall o | 0 <= o < MAXIMUM_RECORD_BYTES
        ensures Contents()[o] == 0
      {
        LocateCovers(layout, o);
      }
    }

    /** Copies in segment by segment; every segment is non-empty, so each turn makes progress. */
    method CopyIn(offset: nat, source: seq<byte>)
      requires Valid() && offset + |source| <= MAXIMUM_RECORD_BYTES
      modifies this`segments
      ensures Valid() && Contents() == Splice(old(Contents()), offset, source)
    {
      hide SegmentsOk, Flat, Splice, Locate, SegmentSize;
      var at, rest := offset, source;
      ghost var before := Contents();
      ghost var done: seq<byte> := [];
      SpliceNothing(before, offset);
      while rest != []
        invariant Valid() && done + rest == source && at == offset + |done|
        invariant Contents() == Splice(before, offset, done)
        decreases |rest|
      {
        LocateFits(layout, at, segments);
        var place := Locate(layout, at);
        var size := |segments[place.segment]| - place.within;
        var copied := if size < |rest| then size else |rest|;
        SegmentWrite(layout, segments, at, rest[..copied]);
        SplicePieces(before, offset, done, rest[..copied]);
        segments := segments[place.segment := Splice(segments[place.segment], place.within, rest[..copied])];
        assert (done + rest[..copied]) + rest[copied..] == source;
        done := done + rest[..copied];
        at, rest := at + copied, rest[copied..];
      }
      assert done == source;
    }

    /** Copies out segment by segment. */
    method CopyOut(offset: nat, size: nat) returns (destination: seq<byte>)
      requires Valid() && offset + size <= MAXIMUM_RECORD_BYTES
      ensures destination == Contents()[offset..offset + size]
    {
      hide SegmentsOk, Flat, Locate, SegmentSize;
      destination := [];
      while |destination| < size
        invariant |destination| <= size && destination == Contents()[offset..offset + |destination|]
        decreases size - |destination|
      {
        var at := offset + |destination|;
        LocateFits(layout, at, segments);
        var place := Locate(layout, at);
        var available := |segments[place.segment]| - place.within;
        var copied := if available < size - |destination| then available else size - |destination|;
        SegmentRead(layout, segments, at, copied);
        ghost var flat := Contents();
        assert flat[offset..at] + flat[at..at + copied] == flat[offset..at + copied];
        destination := destination + segments[place.segment][place.within..place.within + copied];
      }
    }
  }

  lemma SpliceNothing(flat: seq<byte>, offset: nat)
    requires offset <= |flat|
    ensures Splice(flat, offset, []) == flat
  {
    assert Splice(flat, offset, []) == flat;
  }

  lemma LocateFits(layout: Layout, offset: nat, segments: seq<seq<byte>>)
    requires SegmentsOk(layout, segments) && offset < MAXIMUM_RECORD_BYTES
    ensures var p := Locate(layout, offset);
            && p.segment < |segments| && p.within < |segments[p.segment]| == SegmentSize(layout, p.segment)
            && offset + (|segments[p.segment]| - p.within) <= MAXIMUM_RECORD_BYTES
  {
    LocateCovers(layout, offset);
    SegmentEnds(layout, Locate(layout, offset).segment);
  }

  lemma SegmentRead(layout: Layout, segments: seq<seq<byte>>, offset: nat, n: nat)
    requires SegmentsOk(layout, segments) && offset < MAXIMUM_RECORD_BYTES
    requires var p := Locate(layout, offset); p.within + n <= SegmentSize(layout, p.segment)
    ensures var p := Locate(layout, offset);
            && p.segment < |segments| && p.within + n <= |segments[p.segment]| && offset + n <= MAXIMUM_RECORD_BYTES
            && segments[p.segment][p.within..p.within + n] == Flat(layout, segments)[offset..offset + n]
  {
    LocateFits(layout, offset, segments);
    var p, flat := Locate(layout, offset), Flat(layout, segments);
    var a, b := segments[p.segment][p.within..p.within + n], flat[offset..offset + n];
    forall k | 0 <= k < n
      ensures a[k] == b[k]
    {
      LocateCovers(layout, offset);
      LocateUnique(layout, offset + k, p.segment);
      assert b[k] == flat[offset + k];
    }
  }

  /* --- Accounting charges --------------------------------------------------------------------------------- */

  function RoundUp(value: nat, quantum: nat): nat
    requires quantum > 0
  {
    (value + quantum - 1) / quantum * quantum
  }

  function Charge(layout: Layout, serialized: nat): nat {
    match layout
    case Contiguous => RoundUp(if serialized > 1 then serialized else 1, QUANTUM)
    case Chunked => RoundUp(if serialized > 1 then serialized else 1, CHUNK_BYTES)
    case Hybrid =>
      if serialized <= INLINE_BYTES then INLINE_BYTES
      else if serialized <= TAIL_OFFSET then INLINE_BYTES + RoundUp(serialized - INLINE_BYTES, OVERFLOW_CHUNK_BYTES)
      else MAXIMUM_RECORD_BYTES
  }

  /** A record that fits the buffer is charged at least its size and at most the buffer. */
  lemma ChargeCovers(layout: Layout, serialized: nat)
    requires serialized <= MAXIMUM_RECORD_BYTES
    ensures serialized <= Charge(layout, serialized) <= MAXIMUM_RECORD_BYTES
  {}

  /** A segmented record is charged exactly the segments it touches: up to the end of its last byte's one. */
  lemma ChargeIsSegmentEnd(layout: Layout, serialized: nat)
    requires !layout.Contiguous? && 0 < serialized <= MAXIMUM_RECORD_BYTES
    ensures var p := Locate(layout, serialized - 1);
            Charge(layout, serialized) == SegmentBase(layout, p.segment) + SegmentSize(layout, p.segment)
  {
    if layout.Chunked? {
      assert (serialized + 255) / 256 == (serialized - 1) / 256 + 1;
    } else if INLINE_BYTES < serialized <= TAIL_OFFSET {
      assert (serialized - 512 + 1023) / 1024 == (serialized - 1 - 512) / 1024 + 1;
    }
  }

  /** In one piece, the prototype charges what the production writer charges. */
  lemma ContiguousChargeAgrees(serialized: nat)
    requires serialized <= MAXIMUM_RECORD_BYTES
    ensures Charge(Contiguous, serialized) == AccountingCharge(serialized)
  {}
}
