/** The record writer (src/producer/record_storage.cpp:132-410).

A writer fills a slot's buffer from both ends: the message grows from the front, the fields from the back.
Publishing cuts the message at the longest well-formed UTF-8 prefix and, if anything was lost, makes room
for a last field that says so.
*/
module RecordStorage {
  import opened Accounting
  import opened Bytes
  import opened Options
  import opened RecordFormat
  import Utf8

  const UINT64_MAX: nat := 0xFFFF_FFFF_FFFF_FFFF
  const UINT32_MAX: nat := 0xFFFF_FFFF
  const LEVEL_NONE: nat := 6

  /** The key "ulog.truncated". */
  const TRUNCATED_KEY: seq<byte> := [117, 108, 111, 103, 46, 116, 114, 117, 110, 99, 97, 116, 101, 100]

  const TRUNCATED_FIELD: Field := Field(TRUNCATED_KEY, Bool(true))
  const TRUNCATED_BYTES: nat := 38

  /** The positions a writer keeps. */
  datatype Cursor = Cursor(
    frontEnd: nat, fieldTail: nat, messageOffset: nat, messageSize: nat, requested: nat, sourceBytes: nat,
    fieldBytes: nat, fieldCount: nat, firstField: nat, lastField: nat)

  /** What has been asked of a writer: all appended bytes and every accepted field, with the offsets the
      fields were given. */
  datatype Content = Content(
    limit: nat, source: Source, appended: seq<byte>, fields: seq<Field>, offsets: seq<nat>)

  function SaturatingAdd(value: nat, increment: nat): (sum: nat)
    requires value <= UINT64_MAX
    ensures sum == if value + increment <= UINT64_MAX then value + increment else UINT64_MAX
  {
    if increment > UINT64_MAX - value then UINT64_MAX else value + increment
  }

  function Last(offsets: seq<nat>): nat { if offsets == [] then 0 else offsets[|offsets| - 1] }

  function First(offsets: seq<nat>): nat { if offsets == [] then 0 else offsets[0] }

  function PayloadBytes(fields: seq<Field>): nat {
    if fields == [] then 0
    else
      var f := fields[|fields| - 1];
      PayloadBytes(fields[..|fields| - 1]) + |f.key| + |Payload(f.value)|
  }

  /** The writer's positions are those of what it was asked to store. */
  predicate CoreOk(c: Cursor, g: Content) {
    && c.messageOffset == MessageOffset(g.source) && c.sourceBytes == |g.source.path| + |g.source.function_|
    && c.frontEnd == c.messageOffset + c.messageSize <= c.fieldTail <= g.limit <= MAXIMUM_RECORD_BYTES
    && c.messageSize <= |g.appended|
    && c.requested == (if |g.appended| <= UINT64_MAX then |g.appended| else UINT64_MAX)
    && |g.offsets| == |g.fields| == c.fieldCount && c.firstField == First(g.offsets) && c.lastField == Last(g.offsets)
    && c.fieldTail == Tail(g.offsets, g.limit)
    && c.fieldBytes == PayloadBytes(g.fields)
    && g.limit == c.fieldTail + FIELD_BYTES * c.fieldCount + c.fieldBytes
  }

  function Tail(offsets: seq<nat>, limit: nat): nat { if offsets == [] then limit else Last(offsets) }

  /** While it is open, a writer drops bytes only when the buffer is full. */
  predicate PositionsOk(c: Cursor, g: Content) {
    CoreOk(c, g) && (c.messageSize < |g.appended| ==> c.frontEnd == c.fieldTail)
  }

  function OpenHeader(source: Source): Header { Header(source, 0, 0, 0, false) }

  /** The buffer holds the opened header, the source texts, the stored part of the message and the fields. */
  predicate BufferOk(st: seq<byte>, c: Cursor, g: Content) {
    && |st| == MAXIMUM_RECORD_BYTES && HeaderStored(st, OpenHeader(g.source)) && SourceStored(st, g.source)
    && c.messageSize <= |g.appended| && Stored(st, c.messageOffset, g.appended[..c.messageSize])
    && Chain(st, g.offsets, g.fields, g.limit)
  }

  predicate WriterOk(st: seq<byte>, c: Cursor, g: Content) {
    PositionsOk(c, g) && BufferOk(st, c, g)
  }

  /* --- Appending ------------------------------------------------------------------------------------------ */

  function Appended(c: Cursor, size: nat): Cursor
    requires c.requested <= UINT64_MAX && c.frontEnd <= c.fieldTail
  {
    var stored := if size < c.fieldTail - c.frontEnd then size else c.fieldTail - c.frontEnd;
    c.(requested := SaturatingAdd(c.requested, size), frontEnd := c.frontEnd + stored,
       messageSize := c.messageSize + stored)
  }

  /** The header and source texts end where the message begins. */
  lemma HeadFrame(st: seq<byte>, source: Source, offset: nat, bytes: seq<byte>)
    requires HeaderStored(st, OpenHeader(source)) && SourceStored(st, source)
    requires MessageOffset(source) <= offset && offset + |bytes| <= |st|
    ensures HeaderStored(Splice(st, offset, bytes), OpenHeader(source)) &&
            SourceStored(Splice(st, offset, bytes), source)
  {
    hide Stored, PutWords, HeaderWords, HeaderFits, Splice;
    var h := OpenHeader(source);
    HeaderWordsFit(h);
    StoredFrame(st, 0, PutWords(HeaderWords(h)), offset, bytes);
    StoredFrame(st, HEADER_BYTES, source.path, offset, bytes);
    StoredFrame(st, HEADER_BYTES + |source.path|, source.function_, offset, bytes);
  }

  /** A write below the chain leaves it alone. */
  lemma ChainFrame(st: seq<byte>, offsets: seq<nat>, fields: seq<Field>, limit: nat, offset: nat, bytes: seq<byte>)
    requires Chain(st, offsets, fields, limit) && offset + |bytes| <= |st|
    requires forall k :: 0 <= k < |offsets| ==> offset + |bytes| <= offsets[k]
    ensures Chain(Splice(st, offset, bytes), offsets, fields, limit)
  {
    hide Stored, FieldBytes, Splice, FieldFits;
    var st' := Splice(st, offset, bytes);
    forall k | 0 <= k < |offsets|
      ensures LinkOk(st', offsets, fields, limit, k)
    {
      assert LinkOk(st, offsets, fields, limit, k);
      StoredFrame(st, offsets[k], FieldBytes(offsets[k], NextOf(offsets, k), fields[k]), offset, bytes);
    }
  }

  /** Every field lies at or above the last one. */
  lemma {:induction false} AboveLast(st: seq<byte>, offsets: seq<nat>, fields: seq<Field>, limit: nat, k: nat)
    requires Chain(st, offsets, fields, limit) && k < |offsets|
    ensures Last(offsets) <= offsets[k] && offsets[k] + FieldSize(fields[k]) <= limit
    ensures k + 1 < |offsets| ==> Last(offsets) < offsets[k]
    decreases |offsets| - k
  {
    hide FieldStored;
    assert LinkOk(st, offsets, fields, limit, k);
    if k + 1 < |offsets| {
      ChainDescends(st, offsets, fields, limit, k);
      AboveLast(st, offsets, fields, limit, k + 1);
    }
    BelowLimit(st, offsets, fields, limit, k);
  }

  lemma {:induction false} BelowLimit(st: seq<byte>, offsets: seq<nat>, fields: seq<Field>, limit: nat, k: nat)
    requires Chain(st, offsets, fields, limit) && k < |offsets|
    ensures offsets[k] + FieldSize(fields[k]) <= limit
    decreases k
  {
    hide FieldStored;
    assert LinkOk(st, offsets, fields, limit, k);
    if k > 0 {
      BelowLimit(st, offsets, fields, limit, k - 1);
    }
  }

  lemma AppendedPositions(c: Cursor, g: Content, value: seq<byte>)
    requires PositionsOk(c, g)
    ensures PositionsOk(Appended(c, |value|), g.(appended := g.appended + value))
  {}

  lemma AppendedBuffer(st: seq<byte>, c: Cursor, g: Content, value: seq<byte>)
    requires WriterOk(st, c, g)
    ensures var stored := Appended(c, |value|).messageSize - c.messageSize;
            && stored <= |value| && c.frontEnd + stored <= |st|
            && BufferOk(Splice(st, c.frontEnd, value[..stored]), Appended(c, |value|),
                        g.(appended := g.appended + value))
  {
    hide HeaderStored, SourceStored, Chain, Splice;
    var c', g' := Appended(c, |value|), g.(appended := g.appended + value);
    var stored := c'.messageSize - c.messageSize;
    var st' := Splice(st, c.frontEnd, value[..stored]);
    HeadFrame(st, g.source, c.frontEnd, value[..stored]);
    forall k | 0 <= k < |g.offsets|
      ensures c.frontEnd + stored <= g.offsets[k]
    {
      AboveLast(st, g.offsets, g.fields, g.limit, k);
    }
    ChainFrame(st, g.offsets, g.fields, g.limit, c.frontEnd, value[..stored]);
    AppendedMessage(st, c, g, value, stored);
  }

  lemma AppendedMessage(st: seq<byte>, c: Cursor, g: Content, value: seq<byte>, stored: nat)
    requires c.messageSize <= |g.appended| && Stored(st, c.messageOffset, g.appended[..c.messageSize])
    requires c.frontEnd == c.messageOffset + c.messageSize && stored <= |value| && c.frontEnd + stored <= |st|
    requires c.messageSize < |g.appended| ==> stored == 0
    ensures c.messageSize + stored <= |g.appended + value|
    ensures Stored(Splice(st, c.frontEnd, value[..stored]), c.messageOffset,
                   (g.appended + value)[..c.messageSize + stored])
  {
    hide Stored, Splice;
    var kept, more := g.appended[..c.messageSize], value[..stored];
    var st' := Splice(st, c.frontEnd, more);
    StoredFrame(st, c.messageOffset, kept, c.frontEnd, more);
    StoredWritten(st, c.frontEnd, more);
    StoredParts(st', c.messageOffset, kept, more);
    assert (g.appended + value)[..c.messageSize + stored] == kept + more;
  }

  /* --- Adding a field ---------------------------------------------------------------------------------------- */

  /** Key, value and entry, written in that order. */
  function PutField(st: seq<byte>, at: nat, f: Field): (r: seq<byte>)
    requires FieldFits(at, 0, f) && at + FieldSize(f) <= |st|
    ensures |r| == |st|
  {
    FieldWordsFit(at, 0, f);
    Splice(Splice(Splice(st, at + FIELD_BYTES, f.key), at + FIELD_BYTES + |f.key|, Payload(f.value)), at,
           PutWords(FieldWords(at, 0, f)))
  }

  /** The entry at `at` with its link replaced, read and written as a whole. */
  function Relink(st: seq<byte>, at: nat, next: nat): (r: seq<byte>)
    requires at + FIELD_BYTES <= |st| && next < WORD
    ensures |r| == |st|
  {
    Splice(st, at, PutWords([next, Get32(st, at + 4), Get32(st, at + 8), Get32(st, at + 12), Get32(st, at + 16),
                             Get32(st, at + 20)]))
  }

  lemma PutFieldStored(st: seq<byte>, at: nat, f: Field)
    requires FieldFits(at, 0, f) && at + FieldSize(f) <= |st|
    ensures FieldStored(PutField(st, at, f), at, 0, f)
  {
    hide Stored, Splice, FieldWords, PutWords, FieldStored;
    FieldWordsFit(at, 0, f);
    var key, value, entry := at + FIELD_BYTES, at + FIELD_BYTES + |f.key|, PutWords(FieldWords(at, 0, f));
    var st1 := Splice(st, key, f.key);
    var st2 := Splice(st1, value, Payload(f.value));
    StoredWritten(st, key, f.key);
    StoredFrame(st1, key, f.key, value, Payload(f.value));
    StoredWritten(st1, value, Payload(f.value));
    StoredFrame(st2, key, f.key, at, entry);
    StoredFrame(st2, value, Payload(f.value), at, entry);
    StoredWritten(st2, at, entry);
    StoredFieldParts(PutField(st, at, f), at, 0, f);
  }

  lemma PutFieldFrame(st: seq<byte>, at: nat, f: Field, x: nat, bytes: seq<byte>)
    requires FieldFits(at, 0, f) && at + FieldSize(f) <= |st| && Stored(st, x, bytes)
    requires x + |bytes| <= at || at + FieldSize(f) <= x
    ensures Stored(PutField(st, at, f), x, bytes)
  {
    hide Stored, Splice, FieldWords, PutWords;
    FieldWordsFit(at, 0, f);
    var key, value, entry := at + FIELD_BYTES, at + FIELD_BYTES + |f.key|, PutWords(FieldWords(at, 0, f));
    var st1 := Splice(st, key, f.key);
    StoredFrame(st, x, bytes, key, f.key);
    StoredFrame(st1, x, bytes, value, Payload(f.value));
    StoredFrame(Splice(st1, value, Payload(f.value)), x, bytes, at, entry);
  }

  /** Relinking a field changes its link and nothing else about it. */
  lemma RelinkStored(st: seq<byte>, at: nat, next: nat, f: Field)
    requires FieldStored(st, at, 0, f) && FieldFits(at, next, f)
    ensures at + FIELD_BYTES <= |st| && next < WORD && FieldStored(Relink(st, at, next), at, next, f)
  {
    hide Splice, PutWords, Get32, FieldBytes;
    StoredFieldParts(st, at, 0, f);
    var old_, words := FieldWords(at, 0, f), FieldWords(at, next, f);
    FieldWordsFit(at, next, f);
    StoredWord(st, at, old_, 1);
    StoredWord(st, at, old_, 2);
    StoredWord(st, at, old_, 3);
    StoredWord(st, at, old_, 4);
    StoredWord(st, at, old_, 5);
    assert Relink(st, at, next) == Splice(st, at, PutWords(words));
    StoredWritten(st, at, PutWords(words));
    StoredFrame(st, at + FIELD_BYTES, f.key, at, PutWords(words));
    StoredFrame(st, at + FIELD_BYTES + |f.key|, Payload(f.value), at, PutWords(words));
    StoredFieldParts(Relink(st, at, next), at, next, f);
  }

  lemma RelinkFrame(st: seq<byte>, at: nat, next: nat, x: nat, bytes: seq<byte>)
    requires at + FIELD_BYTES <= |st| && next < WORD && Stored(st, x, bytes)
    requires x + |bytes| <= at || at + FIELD_BYTES <= x
    ensures Stored(Relink(st, at, next), x, bytes)
  {
    hide Stored, Splice, PutWords, Get32;
    StoredFrame(st, x, bytes, at, PutWords([next, Get32(st, at + 4), Get32(st, at + 8), Get32(st, at + 12),
                                            Get32(st, at + 16), Get32(st, at + 20)]));
  }

  /** The buffer after a field is added at `at`, behind the field at `last` if there is one. */
  function AddedBuffer(st: seq<byte>, at: nat, last: nat, f: Field): (r: seq<byte>)
    requires FieldFits(at, 0, f) && at + FieldSize(f) <= |st| && last + FIELD_BYTES <= |st|
    ensures |r| == |st|
  {
    if last == 0 then PutField(st, at, f) else Relink(PutField(st, at, f), last, at)
  }

  lemma AddedFrame(st: seq<byte>, at: nat, last: nat, f: Field, x: nat, bytes: seq<byte>)
    requires FieldFits(at, 0, f) && at + FieldSize(f) <= |st| && last + FIELD_BYTES <= |st| && Stored(st, x, bytes)
    requires x + |bytes| <= at || at + FieldSize(f) <= x
    requires last != 0 ==> x + |bytes| <= last || last + FIELD_BYTES <= x
    ensures Stored(AddedBuffer(st, at, last, f), x, bytes)
  {
    hide Stored, PutField, Relink;
    PutFieldFrame(st, at, f, x, bytes);
    if last != 0 {
      RelinkFrame(PutField(st, at, f), last, at, x, bytes);
    }
  }

  predicate CanAdd(st: seq<byte>, offsets: seq<nat>, fields: seq<Field>, limit: nat, at: nat, f: Field) {
    && Chain(st, offsets, fields, limit) && 0 < at && at + FieldSize(f) == Tail(offsets, limit) <= limit <= |st| < WORD
    && FieldOk(f)
  }

  lemma LastFits(st: seq<byte>, offsets: seq<nat>, fields: seq<Field>, limit: nat)
    requires Chain(st, offsets, fields, limit) && limit <= |st|
    ensures Last(offsets) + (if offsets == [] then 0 else FIELD_BYTES) <= |st|
    ensures offsets != [] ==> Last(offsets) > 0
  {
    hide FieldStored;
    if offsets != [] {
      BelowLimit(st, offsets, fields, limit, |offsets| - 1);
      assert LinkOk(st, offsets, fields, limit, |offsets| - 1);
    }
  }

  /** An earlier field keeps its entry. */
  lemma KeptLink(st: seq<byte>, offsets: seq<nat>, fields: seq<Field>, limit: nat, at: nat, f: Field, k: nat)
    requires CanAdd(st, offsets, fields, limit, at, f) && k + 1 < |offsets| && Last(offsets) + FIELD_BYTES <= |st|
    ensures LinkOk(AddedBuffer(st, at, Last(offsets), f), offsets + [at], fields + [f], limit, k)
  {
    hide Stored, FieldBytes, AddedBuffer;
    assert LinkOk(st, offsets, fields, limit, k);
    AboveLast(st, offsets, fields, limit, k);
    LastBelow(st, offsets, fields, limit, k);
    AddedFrame(st, at, Last(offsets), f, offsets[k], FieldBytes(offsets[k], NextOf(offsets, k), fields[k]));
  }

  lemma {:induction false} LastBelow(st: seq<byte>, offsets: seq<nat>, fields: seq<Field>, limit: nat, k: nat)
    requires Chain(st, offsets, fields, limit) && k + 1 < |offsets|
    ensures Last(offsets) + FIELD_BYTES <= offsets[k]
    decreases |offsets| - k
  {
    hide FieldStored;
    assert LinkOk(st, offsets, fields, limit, k + 1);
    if k + 2 < |offsets| {
      LastBelow(st, offsets, fields, limit, k + 1);
    }
  }

  /** The last field is relinked to the new one. */
  lemma RelinkedLink(st: seq<byte>, offsets: seq<nat>, fields: seq<Field>, limit: nat, at: nat, f: Field)
    requires CanAdd(st, offsets, fields, limit, at, f) && offsets != [] && Last(offsets) + FIELD_BYTES <= |st|
    ensures LinkOk(AddedBuffer(st, at, Last(offsets), f), offsets + [at], fields + [f], limit, |offsets| - 1)
  {
    hide Stored, FieldBytes, PutField, Relink;
    var k := |offsets| - 1;
    assert LinkOk(st, offsets, fields, limit, k);
    PutFieldFrame(st, at, f, offsets[k], FieldBytes(offsets[k], 0, fields[k]));
    BelowLimit(st, offsets, fields, limit, k);
    RelinkStored(PutField(st, at, f), offsets[k], at, fields[k]);
  }

  lemma NewLink(st: seq<byte>, offsets: seq<nat>, fields: seq<Field>, limit: nat, at: nat, f: Field)
    requires CanAdd(st, offsets, fields, limit, at, f) && Last(offsets) + FIELD_BYTES <= |st|
    ensures LinkOk(AddedBuffer(st, at, Last(offsets), f), offsets + [at], fields + [f], limit, |offsets|)
  {
    hide Stored, FieldBytes, PutField, Relink;
    LastFits(st, offsets, fields, limit);
    PutFieldStored(st, at, f);
    if Last(offsets) != 0 {
      RelinkFrame(PutField(st, at, f), Last(offsets), at, at, FieldBytes(at, 0, f));
    }
  }

  /** Adding a field below the chain extends it. */
  lemma ChainExtended(st: seq<byte>, offsets: seq<nat>, fields: seq<Field>, limit: nat, at: nat, f: Field)
    requires CanAdd(st, offsets, fields, limit, at, f) && Last(offsets) + FIELD_BYTES <= |st|
    ensures Chain(AddedBuffer(st, at, Last(offsets), f), offsets + [at], fields + [f], limit)
  {
    hide LinkOk, AddedBuffer;
    var st' := AddedBuffer(st, at, Last(offsets), f);
    assert |offsets| == |fields|;
    forall k | 0 <= k < |offsets + [at]|
      ensures LinkOk(st', offsets + [at], fields + [f], limit, k)
    {
      if k + 1 < |offsets| {
        KeptLink(st, offsets, fields, limit, at, f, k);
      } else if k + 1 == |offsets| {
        RelinkedLink(st, offsets, fields, limit, at, f);
      } else {
        NewLink(st, offsets, fields, limit, at, f);
      }
    }
  }

  function AddedCursor(c: Cursor, f: Field): Cursor
    requires FieldSize(f) <= c.fieldTail
  {
    var at := c.fieldTail - FieldSize(f);
    c.(fieldTail := at, firstField := if c.lastField == 0 then at else c.firstField, lastField := at,
       fieldCount := c.fieldCount + 1, fieldBytes := c.fieldBytes + |f.key| + |Payload(f.value)|)
  }

  lemma SizeBounds(c: Cursor, g: Content)
    requires CoreOk(c, g)
    ensures c.fieldCount < UINT32_MAX &&
            c.frontEnd == c.messageOffset + c.messageSize <= c.fieldTail <= MAXIMUM_RECORD_BYTES
    ensures c.messageSize <= |g.appended|
  {}

  lemma TruncatedSize()
    ensures FieldSize(TRUNCATED_FIELD) == TRUNCATED_BYTES && FieldOk(TRUNCATED_FIELD)
  {}

  function AddedContent(g: Content, at: nat, f: Field): Content {
    g.(fields := g.fields + [f], offsets := g.offsets + [at])
  }

  lemma PayloadExtended(fields: seq<Field>, f: Field)
    ensures PayloadBytes(fields + [f]) == PayloadBytes(fields) + |f.key| + |Payload(f.value)|
  {
    assert (fields + [f])[..|fields|] == fields;
  }

  lemma AddedPositions(st: seq<byte>, c: Cursor, g: Content, f: Field)
    requires CoreOk(c, g) && BufferOk(st, c, g) && FieldSize(f) <= c.fieldTail - c.frontEnd
    ensures CoreOk(AddedCursor(c, f), AddedContent(g, c.fieldTail - FieldSize(f), f))
  {
    hide HeaderStored, SourceStored, Stored, FieldStored;
    PayloadExtended(g.fields, f);
    LastFits(st, g.offsets, g.fields, g.limit);
  }

  lemma AddedHead(st: seq<byte>, c: Cursor, g: Content, f: Field)
    requires CoreOk(c, g) && BufferOk(st, c, g) && FieldSize(f) <= c.fieldTail - c.frontEnd && FieldOk(f)
    requires c.lastField + FIELD_BYTES <= |st| && FieldFits(c.fieldTail - FieldSize(f), 0, f)
    ensures var st' := AddedBuffer(st, c.fieldTail - FieldSize(f), c.lastField, f);
            && HeaderStored(st', OpenHeader(g.source)) && SourceStored(st', g.source)
            && Stored(st', c.messageOffset, g.appended[..c.messageSize])
  {
    hide Stored, PutWords, HeaderWords, HeaderFits, AddedBuffer, Chain;
    var at, h := c.fieldTail - FieldSize(f), OpenHeader(g.source);
    HeaderWordsFit(h);
    AddedFrame(st, at, c.lastField, f, 0, PutWords(HeaderWords(h)));
    AddedFrame(st, at, c.lastField, f, HEADER_BYTES, g.source.path);
    AddedFrame(st, at, c.lastField, f, HEADER_BYTES + |g.source.path|, g.source.function_);
    AddedFrame(st, at, c.lastField, f, c.messageOffset, g.appended[..c.messageSize]);
  }

  /** Adding a field that fits keeps everything stored so far and appends the field. */
  lemma AddedBufferOk(st: seq<byte>, c: Cursor, g: Content, f: Field)
    requires CoreOk(c, g) && BufferOk(st, c, g) && FieldSize(f) <= c.fieldTail - c.frontEnd && FieldOk(f)
    ensures var at := c.fieldTail - FieldSize(f);
            && FieldFits(at, 0, f) && at + FieldSize(f) <= |st| && c.lastField + FIELD_BYTES <= |st|
            && BufferOk(AddedBuffer(st, at, c.lastField, f), AddedCursor(c, f), AddedContent(g, at, f))
  {
    hide HeaderStored, SourceStored, Stored, FieldStored, AddedBuffer;
    LastFits(st, g.offsets, g.fields, g.limit);
    AddedHead(st, c, g, f);
    ChainExtended(st, g.offsets, g.fields, g.limit, c.fieldTail - FieldSize(f), f);
  }

  /* --- Publishing ----------------------------------------------------------------------------------------------- */

  function Cut(c: Cursor, size: nat): Cursor { c.(messageSize := size, frontEnd := c.messageOffset + size) }

  /** Dropping bytes from the end of the stored message. */
  lemma CutOk(st: seq<byte>, c: Cursor, g: Content, size: nat)
    requires CoreOk(c, g) && BufferOk(st, c, g) && size <= c.messageSize
    ensures CoreOk(Cut(c, size), g) && BufferOk(st, Cut(c, size), g)
  {
    hide HeaderStored, SourceStored, Chain;
    assert g.appended[..c.messageSize][..size] == g.appended[..size];
    assert st[c.messageOffset..c.messageOffset + size] == st[c.messageOffset..c.messageOffset + c.messageSize][..size];
  }

  lemma StoredMessage(st: seq<byte>, c: Cursor, g: Content, size: nat)
    requires CoreOk(c, g) && BufferOk(st, c, g) && size <= c.messageSize
    ensures c.messageOffset + size <= |st| && size <= |g.appended|
    ensures st[c.messageOffset..c.messageOffset + size] == g.appended[..size]
  {
    hide HeaderStored, SourceStored, Chain;
    CutOk(st, c, g, size);
  }

  lemma LongestFits(s: seq<byte>, m: nat)
    requires Utf8.IsLongest(s, m)
    ensures m <= |s|
  {}

  /** A cut record: of the stored message the longest well-formed prefix, `n` bytes, counts; if that is not
      everything appended, the mark is the last field, and the message gives way to it as far as needed. */
  ghost predicate Sealed(c: Cursor, g: Content, c': Cursor, g': Content, n: nat, truncated: bool, done: bool) {
    && c.messageSize <= |g.appended| && c.messageOffset <= c.fieldTail
    && Utf8.IsLongest(g.appended[..c.messageSize], n)
    && (truncated <==> n != |g.appended|)
    && (done <==> (truncated ==> TRUNCATED_BYTES <= c.fieldTail - c.messageOffset))
    && (done && !truncated ==> g' == g && c'.messageSize == n)
    && (done && truncated ==>
          && g' == AddedContent(g, c.fieldTail - TRUNCATED_BYTES, TRUNCATED_FIELD) && c'.messageSize <= n
          && (if TRUNCATED_BYTES <= c.fieldTail - c.messageOffset - n then c'.messageSize == n
              else c.fieldTail - TRUNCATED_BYTES - c.messageOffset <= |g.appended| &&
                   Utf8.IsLongest(g.appended[..c.fieldTail - TRUNCATED_BYTES - c.messageOffset], c'.messageSize)))
  }

  /** The saturating count of requested bytes still tells whether the whole message was kept. */
  lemma RequestedCounts(c: Cursor, g: Content)
    requires CoreOk(c, g)
    ensures c.requested == c.messageSize <==> c.messageSize == |g.appended|
  {}

  /** A cut message leaves room for its mark. */
  ghost predicate CanPublish(c: Cursor, g: Content) {
    && c.messageSize <= |g.appended|
    && exists n :: Utf8.IsLongest(g.appended[..c.messageSize], n) &&
                   (n != |g.appended| ==> TRUNCATED_BYTES + c.messageOffset <= c.fieldTail)
  }

  lemma SealedCanPublish(c: Cursor, g: Content, c': Cursor, g': Content, n: nat, truncated: bool, done: bool)
    requires Sealed(c, g, c', g', n, truncated, done)
    ensures done <==> CanPublish(c, g)
    ensures done ==> g'.limit == g.limit
  {
    hide Utf8.IsLongest;
    if CanPublish(c, g) {
      var m :| Utf8.IsLongest(g.appended[..c.messageSize], m) &&
               (m != |g.appended| ==> TRUNCATED_BYTES + c.messageOffset <= c.fieldTail);
      Utf8.LongestUnique(g.appended[..c.messageSize], m, n);
    }
  }

  function ViewBytes(v: View): nat {
    MessageOffset(v.source) + |v.message| + FIELD_BYTES * |v.fields| + PayloadBytes(v.fields)
  }

  /** The published buffer: the source texts, every accepted field in order, and a well-formed prefix of the
      appended bytes, all of them unless the record is marked; its size and charge are within the limit. */
  predicate RecordHolds(st: seq<byte>, g: Content, r: StoredRecord) {
    && |st| >= HEADER_BYTES
    && var v := ReadView(st);
       && v.source == g.source && v.message <= g.appended && Utf8.WellFormed(v.message)
       && v.truncated == r.truncated && (r.truncated <==> v.message != g.appended)
       && v.fields == (if r.truncated then g.fields + [TRUNCATED_FIELD] else g.fields) && FieldCount(st) == |v.fields|
       && r.serializedBytes == ViewBytes(v) <= g.limit
       && r.chargeBytes == AccountingCharge(r.serializedBytes) && 0 < r.chargeBytes <= g.limit
  }

  /** The sizes add up, and an aligned limit has room for the charge. */
  lemma SealedCharge(c: Cursor, g: Content)
    requires CoreOk(c, g)
    ensures c.fieldTail + FIELD_BYTES * c.fieldCount + c.fieldBytes == g.limit
    ensures 0 < SerializedBytes(c) <= g.limit <= MAXIMUM_RECORD_BYTES
    ensures SerializedBytes(c) ==
            MessageOffset(g.source) + c.messageSize + FIELD_BYTES * |g.fields| + PayloadBytes(g.fields)
    ensures g.limit % QUANTUM == 0 ==> 0 < AccountingCharge(SerializedBytes(c)) <= g.limit
  {
    if g.limit % QUANTUM == 0 {
      ChargeIsLeast(SerializedBytes(c), g.limit);
    }
  }

  lemma BufferLength(st: seq<byte>, c: Cursor, g: Content)
    requires BufferOk(st, c, g)
    ensures |st| == MAXIMUM_RECORD_BYTES
  {}

  /** What the sealed buffer reads as, against what was asked of the writer. */
  lemma SealedHolds(st: seq<byte>, c: Cursor, g: Content, c': Cursor, g': Content, n: nat, truncated: bool)
    requires Sealed(c, g, c', g', n, truncated, true) && CoreOk(c', g') && BufferOk(st, c', g')
    ensures forall k :: 0 <= k < 14 ==> SealedHeader(st, c', truncated)[k] < WORD
    ensures var st' := Splice(st, 0, PutWords(SealedHeader(st, c', truncated)));
            forall charge :: charge == AccountingCharge(SerializedBytes(c')) && 0 < charge <= g.limit ==>
              RecordHolds(st', g, StoredRecord(SerializedBytes(c'), charge, truncated))
  {
    hide BufferOk, CoreOk, ReadView, Splice, PutWords, SealedHeader, Utf8.WellFormed, FieldCount;
    BufferLength(st, c', g');
    SealedCharge(c', g');
    SizeBounds(c', g');
    SealedReads(st, c', g', truncated);
    var message := g'.appended[..c'.messageSize];
    assert g'.appended == g.appended && g'.source == g.source && g'.limit == g.limit;
    LongestWellFormed(g.appended, c.messageSize, n);
    if truncated && TRUNCATED_BYTES > c.fieldTail - c.messageOffset - n {
      LongestWellFormed(g.appended, c.fieldTail - TRUNCATED_BYTES - c.messageOffset, c'.messageSize);
    }
    assert Utf8.WellFormed(message);
    assert !truncated ==> message == g.appended;
    assert truncated ==> |message| < |g.appended|;
  }

  lemma LongestWellFormed(s: seq<byte>, size: nat, m: nat)
    requires size <= |s| && Utf8.IsLongest(s[..size], m)
    ensures m <= size && Utf8.WellFormed(s[..m])
  {
    assert s[..size][..m] == s[..m];
  }

  /** The header as Publish rewrites it: read, four words replaced, written back. */
  function SealedHeader(st: seq<byte>, c: Cursor, truncated: bool): (words: seq<nat>)
    requires |st| >= HEADER_BYTES
    ensures |words| == 14
  {
    [Get32(st, 0), Get32(st, 4), Get32(st, 8), Get32(st, 12), Get32(st, 16), Get32(st, 20), Get32(st, 24),
     c.messageSize, Get32(st, 32), Get32(st, 36), c.firstField, c.fieldCount, if truncated then 1 else 0,
     Get32(st, 52)]
  }

  lemma SealedHeaderIs(st: seq<byte>, c: Cursor, g: Content, truncated: bool)
    requires HeaderStored(st, OpenHeader(g.source))
    ensures |st| >= HEADER_BYTES
    ensures SealedHeader(st, c, truncated) ==
            HeaderWords(Header(g.source, c.messageSize, c.firstField, c.fieldCount, truncated))
  {
    hide Get32, HeaderStored, HeaderFits;
    var h := OpenHeader(g.source);
    HeaderReads(st, h);
    assert Get32(st, 4 * 0) == HeaderWords(h)[0] && Get32(st, 4 * 1) == HeaderWords(h)[1];
    assert Get32(st, 4 * 2) == HeaderWords(h)[2] && Get32(st, 4 * 3) == HeaderWords(h)[3];
    assert Get32(st, 4 * 4) == HeaderWords(h)[4] && Get32(st, 4 * 5) == HeaderWords(h)[5];
    assert Get32(st, 4 * 6) == HeaderWords(h)[6] && Get32(st, 4 * 8) == HeaderWords(h)[8];
    assert Get32(st, 4 * 9) == HeaderWords(h)[9] && Get32(st, 4 * 13) == HeaderWords(h)[13];
  }

  /** Sealing the record makes it readable: the source, the stored message, the mark and every field. */
  lemma SealedReads(st: seq<byte>, c: Cursor, g: Content, truncated: bool)
    requires CoreOk(c, g) && BufferOk(st, c, g)
    ensures forall k :: 0 <= k < 14 ==> SealedHeader(st, c, truncated)[k] < WORD
    ensures ReadView(Splice(st, 0, PutWords(SealedHeader(st, c, truncated)))) ==
            View(g.source, g.appended[..c.messageSize], truncated, g.fields)
    ensures FieldCount(Splice(st, 0, PutWords(SealedHeader(st, c, truncated)))) == |g.fields|
  {
    hide Get32, Stored, PutWords, HeaderWords, Splice, SealedHeader, ReadView, FieldStored, FieldCount;
    var h := Header(g.source, c.messageSize, c.firstField, c.fieldCount, truncated);
    SealedHeaderIs(st, c, g, truncated);
    SealedFits(st, c, g, truncated);
    HeaderWordsFit(h);
    var bytes := PutWords(HeaderWords(h));
    var st' := Splice(st, 0, bytes);
    StoredWritten(st, 0, bytes);
    StoredFrame(st, HEADER_BYTES, g.source.path, 0, bytes);
    StoredFrame(st, HEADER_BYTES + |g.source.path|, g.source.function_, 0, bytes);
    StoredFrame(st, c.messageOffset, g.appended[..c.messageSize], 0, bytes);
    SealedChain(st, c, g, bytes);
    RecordReads(st', h, g.appended[..c.messageSize], g.offsets, g.fields, g.limit);
  }

  lemma SealedFits(st: seq<byte>, c: Cursor, g: Content, truncated: bool)
    requires CoreOk(c, g) && BufferOk(st, c, g)
    ensures HeaderFits(Header(g.source, c.messageSize, c.firstField, c.fieldCount, truncated))
  {
    hide Stored, PutWords, HeaderWords, FieldStored;
    if g.offsets != [] {
      BelowLimit(st, g.offsets, g.fields, g.limit, 0);
    }
  }

  /** The header lies below every field. */
  lemma SealedChain(st: seq<byte>, c: Cursor, g: Content, bytes: seq<byte>)
    requires CoreOk(c, g) && BufferOk(st, c, g) && |bytes| == HEADER_BYTES
    ensures Chain(Splice(st, 0, bytes), g.offsets, g.fields, g.limit)
  {
    hide Stored, HeaderStored, SourceStored, FieldBytes, Splice, FieldFits;
    forall k | 0 <= k < |g.offsets|
      ensures 0 + |bytes| <= g.offsets[k]
    {
      AboveLast(st, g.offsets, g.fields, g.limit, k);
    }
    ChainFrame(st, g.offsets, g.fields, g.limit, 0, bytes);
  }

  function SerializedBytes(c: Cursor): nat {
    c.sourceBytes + c.messageSize + c.fieldBytes + HEADER_BYTES + c.fieldCount * FIELD_BYTES
  }

  /* --- Beginning -------------------------------------------------------------------------------------------------- */

  predicate SourceFits(limit: nat, source: Source) {
    && source.timestamp < WORD * WORD && source.level < LEVEL_NONE
    && source.line <= UINT32_MAX && source.column <= UINT32_MAX
    && HEADER_BYTES <= limit <= MAXIMUM_RECORD_BYTES && MessageOffset(source) <= limit
  }

  lemma BeginFits(limit: nat, source: Source)
    requires SourceFits(limit, source)
    ensures HeaderFits(OpenHeader(source))
  {}

  function Begun(limit: nat, source: Source): Cursor {
    Cursor(MessageOffset(source), limit, MessageOffset(source), 0, 0, |source.path| + |source.function_|, 0, 0, 0, 0)
  }

  lemma BeginOk(st: seq<byte>, limit: nat, source: Source)
    requires |st| == MAXIMUM_RECORD_BYTES && SourceFits(limit, source)
    ensures (forall k :: 0 <= k < 14 ==> HeaderWords(OpenHeader(source))[k] < WORD)
    ensures var st1 := Splice(st, 0, PutWords(HeaderWords(OpenHeader(source))));
            var st2 := Splice(st1, HEADER_BYTES, source.path);
            var st3 := Splice(st2, HEADER_BYTES + |source.path|, source.function_);
            WriterOk(st3, Begun(limit, source), Content(limit, source, [], [], []))
  {
    hide Stored, PutWords, HeaderWords, HeaderFits, Splice;
    BeginFits(limit, source);
    HeaderWordsFit(OpenHeader(source));
    var bytes := PutWords(HeaderWords(OpenHeader(source)));
    var path, function_ := HEADER_BYTES, HEADER_BYTES + |source.path|;
    var st1 := Splice(st, 0, bytes);
    var st2 := Splice(st1, path, source.path);
    var st3 := Splice(st2, function_, source.function_);
    StoredWritten(st, 0, bytes);
    StoredFrame(st1, 0, bytes, path, source.path);
    StoredWritten(st1, path, source.path);
    StoredFrame(st2, 0, bytes, function_, source.function_);
    StoredFrame(st2, path, source.path, function_, source.function_);
    StoredWritten(st2, function_, source.function_);
    EmptyStored(st3, MessageOffset(source));
  }

  lemma EmptyStored(st: seq<byte>, at: nat)
    requires at <= |st|
    ensures Stored(st, at, [])
  {}

  /* --- Slots and writers ---------------------------------------- */

  datatype SlotState = Reset | Building | Published

  datatype StoredRecord = StoredRecord(serializedBytes: nat, chargeBytes: nat, truncated: bool)

  /** Copies the bytes into the buffer. */
  method CopyIn(storage: array<byte>, offset: nat, source: seq<byte>)
    requires offset + |source| <= storage.Length
    modifies storage
    ensures storage[..] == Splice(old(storage[..]), offset, source)
  {
    var i := 0;
    while i < |source|
      invariant i <= |source|
      invariant forall k :: 0 <= k < storage.Length ==>
                  storage[k] == if offset <= k < offset + i then source[k - offset] else old(storage[k])
    {
      storage[offset + i] := source[i];
      i := i + 1;
    }
  }

  class RecordSlot {
    const storage: array<byte>
    var state: SlotState

    constructor ()
      ensures state.Reset? && storage.Length == MAXIMUM_RECORD_BYTES && fresh(storage)
    {
      storage := new byte[MAXIMUM_RECORD_BYTES](_ => 0);
      state := Reset;
    }

    method ResetSlot()
      modifies this`state
      ensures state.Reset?
    {
      state := Reset;
    }

    /** Opens the slot for one record, if it is reset and the source texts fit under the limit. */
    method Begin(limit: nat, source: Source) returns (writer: RecordWriter?)
      requires storage.Length == MAXIMUM_RECORD_BYTES && source.timestamp < WORD * WORD
      modifies this`state, storage
      ensures writer != null <==> old(state).Reset? && SourceFits(limit, source)
      ensures writer != null ==>
                && fresh(writer) && writer.slot == this && writer.Valid()
                && writer.content == Content(limit, source, [], [], [])
      ensures writer == null ==> state == old(state) && storage[..] == old(storage[..])
    {
      if !state.Reset? || limit < HEADER_BYTES || limit > MAXIMUM_RECORD_BYTES || source.level >= LEVEL_NONE ||
         |source.path| > UINT32_MAX || |source.function_| > UINT32_MAX || source.line > UINT32_MAX ||
         source.column > UINT32_MAX || |source.path| > limit - HEADER_BYTES ||
         |source.function_| > limit - HEADER_BYTES - |source.path| {
        return null;
      }
      hide Stored, PutWords, HeaderWords, HeaderFits, Splice, BufferOk, CoreOk;
      BeginOk(storage[..], limit, source);
      CopyIn(storage, 0, PutWords(HeaderWords(OpenHeader(source))));
      CopyIn(storage, HEADER_BYTES, source.path);
      CopyIn(storage, HEADER_BYTES + |source.path|, source.function_);
      state := Building;
      writer := new RecordWriter(this, limit, source);
    }
  }

  class RecordWriter {
    var slot: RecordSlot?
    var at: Cursor
    ghost var content: Content

    ghost predicate Valid()
      reads this, slot, if slot != null then {slot.storage} else {}
    {
      && at.requested <= UINT64_MAX
      && (slot != null ==> slot.state.Building? && WriterOk(slot.storage[..], at, content))
    }

    constructor (owner: RecordSlot, limit: nat, source: Source)
      ensures slot == owner && at == Begun(limit, source) && content == Content(limit, source, [], [], [])
    {
      slot, at, content := owner, Begun(limit, source), Content(limit, source, [], [], []);
    }

    /** Gives up the record; the slot can be begun again. */
    method Abandon()
      requires Valid()
      modifies this`slot, slot
      ensures Valid() && slot == null && (old(slot) != null ==> old(slot).state.Reset?)
    {
      if slot != null {
        slot.ResetSlot();
        slot := null;
      }
    }

    /** Appends to the message what fits before the fields; a writer without a slot stores nothing. */
    method AppendBytes(value: seq<byte>) returns (stored: nat, truncated: bool)
      requires Valid()
      modifies this`at, this`content, if slot != null then {slot.storage} else {}
      ensures Valid() && slot == old(slot) && truncated == (stored != |value|)
      ensures slot == null ==> stored == 0 && content == old(content)
      ensures slot != null ==>
                && content == old(content).(appended := old(content).appended + value)
                && at == Appended(old(at), |value|)
                && stored == at.messageSize - old(at).messageSize <= |value|
    {
      hide BufferOk, Stored, Splice;
      if slot == null {
        at := at.(requested := SaturatingAdd(at.requested, |value|));
        return 0, value != [];
      }
      AppendedPositions(at, content, value);
      AppendedBuffer(slot.storage[..], at, content, value);
      stored := if |value| < at.fieldTail - at.frontEnd then |value| else at.fieldTail - at.frontEnd;
      CopyIn(slot.storage, at.frontEnd, value[..stored]);
      at := at.(requested := SaturatingAdd(at.requested, |value|), frontEnd := at.frontEnd + stored,
                messageSize := at.messageSize + stored);
      content := content.(appended := content.appended + value);
      truncated := stored != |value|;
    }

    /** The writer's invariant without the clause about dropped bytes, which publishing suspends. */
    ghost predicate Sealing()
      reads this, slot, if slot != null then {slot.storage} else {}
    {
      && slot != null && slot.state.Building? && at.requested <= UINT64_MAX
      && CoreOk(at, content) && BufferOk(slot.storage[..], at, content)
    }

    /** Adds a field if it fits between the message and the fields already there. */
    method AddFieldBytes(f: Field) returns (added: bool)
      requires Sealing() && FieldOk(f)
      modifies this`at, this`content, slot.storage
      ensures Sealing() && slot == old(slot)
      ensures added <==> FieldSize(f) <= old(at).fieldTail - old(at).frontEnd
      ensures !added ==> at == old(at) && content == old(content) && slot.storage[..] == old(slot.storage[..])
      ensures added ==>
                && at == AddedCursor(old(at), f)
                && content == AddedContent(old(content), old(at).fieldTail - FieldSize(f), f)
    {
      hide BufferOk, AddedBuffer, FieldFits, CoreOk;
      SizeBounds(at, content);
      var key, value := f.key, Payload(f.value);
      if at.fieldCount == UINT32_MAX || |key| > UINT32_MAX || |value| > UINT32_MAX {
        return false;
      }
      var size := FIELD_BYTES + |key| + |value|;
      if size > at.fieldTail - at.frontEnd {
        return false;
      }
      AddedPositions(slot.storage[..], at, content, f);
      AddedBufferOk(slot.storage[..], at, content, f);
      WriteField(f, at.fieldTail - size);
      content := AddedContent(content, at.fieldTail - size, f);
      at := at.(fieldTail := at.fieldTail - size,
                firstField := if at.lastField == 0 then at.fieldTail - size else at.firstField,
                lastField := at.fieldTail - size, fieldCount := at.fieldCount + 1,
                fieldBytes := at.fieldBytes + |key| + |value|);
      added := true;
    }

    /** Copies key and value, writes the entry, and links the previous field to it. */
    method WriteField(f: Field, offset: nat)
      requires slot != null && FieldFits(offset, 0, f) && offset + FieldSize(f) <= slot.storage.Length
      requires at.lastField + FIELD_BYTES <= slot.storage.Length
      modifies slot.storage
      ensures slot.storage[..] == AddedBuffer(old(slot.storage[..]), offset, at.lastField, f)
    {
      hide Splice, PutWords, FieldWords, Get32;
      FieldWordsFit(offset, 0, f);
      var keyOffset := offset + FIELD_BYTES;
      CopyIn(slot.storage, keyOffset, f.key);
      CopyIn(slot.storage, keyOffset + |f.key|, Payload(f.value));
      CopyIn(slot.storage, offset, PutWords(FieldWords(offset, 0, f)));
      if at.lastField != 0 {
        var st, last := slot.storage[..], at.lastField;
        CopyIn(slot.storage, last, PutWords([offset, Get32(st, last + 4), Get32(st, last + 8), Get32(st, last + 12),
                                             Get32(st, last + 16), Get32(st, last + 20)]));
      }
    }

    /** Adds a field to an open writer. */
    method AddField(f: Field) returns (added: bool)
      requires Valid() && FieldOk(f)
      modifies this`at, this`content, if slot != null then {slot.storage} else {}
      ensures Valid() && slot == old(slot)
      ensures slot == null ==> !added
      ensures slot != null ==> (added <==> FieldSize(f) <= old(at).fieldTail - old(at).frontEnd)
      ensures !added ==> at == old(at) && content == old(content)
      ensures added ==> content == AddedContent(old(content), old(at).fieldTail - FieldSize(f), f)
    {
      hide BufferOk;
      if slot == null {
        return false;
      }
      added := AddFieldBytes(f);
    }

    /** Shortens the message to the longest well-formed prefix of its first `size` bytes. */
    method CutMessage(size: nat)
      requires Sealing() && size <= at.messageSize
      modifies this`at
      ensures Sealing() && at == Cut(old(at), at.messageSize) && at.messageSize <= size
      ensures Utf8.IsLongest(content.appended[..size], at.messageSize)
    {
      hide BufferOk, CoreOk, Utf8.IsLongest;
      StoredMessage(slot.storage[..], at, content, size);
      var valid := Utf8.ValidUtf8PrefixLength(slot.storage[..][at.messageOffset..at.messageOffset + size]);
      LongestFits(content.appended[..size], valid);
      CutOk(slot.storage[..], at, content, valid);
      at := at.(messageSize := valid, frontEnd := at.messageOffset + valid);
    }

    /** Marks a cut record with a last field, giving up as much of the message as the field needs; only a
        buffer without room for it even then refuses. */
    method AddTruncatedField() returns (added: bool)
      requires Sealing()
      modifies this`at, this`content, slot.storage
      ensures Sealing() && slot == old(slot)
      ensures added <==> TRUNCATED_BYTES <= old(at).fieldTail - old(at).messageOffset
      ensures added ==>
                && content == AddedContent(old(content), old(at).fieldTail - TRUNCATED_BYTES, TRUNCATED_FIELD)
                && at.messageSize <= old(at).messageSize
                && (TRUNCATED_BYTES <= old(at).fieldTail - old(at).frontEnd ==> at.messageSize == old(at).messageSize)
                && (TRUNCATED_BYTES > old(at).fieldTail - old(at).frontEnd ==>
                      Utf8.IsLongest(content.appended[..old(at).fieldTail - TRUNCATED_BYTES - old(at).messageOffset],
                                     at.messageSize))
    {
      hide BufferOk, CoreOk, Utf8.IsLongest, FieldSize, FieldOk;
      SizeBounds(at, content);
      TruncatedSize();
      var available := at.fieldTail - at.frontEnd;
      if available < TRUNCATED_BYTES {
        var reclaimed := TRUNCATED_BYTES - available;
        if reclaimed > at.messageSize {
          return false;
        }
        CutMessage(at.messageSize - reclaimed);
      }
      added := AddFieldBytes(TRUNCATED_FIELD);
    }

    /** The message is cut at the longest well-formed prefix of what was stored, and marked if anything is
        missing. */
    method SealMessage() returns (done: bool, truncated: bool)
      requires Valid() && slot != null
      modifies this`at, this`content, slot.storage
      ensures slot == old(slot) && Sealing()
      ensures exists n :: Sealed(old(at), old(content), at, content, n, truncated, done)
    {
      hide BufferOk, CoreOk, Utf8.IsLongest;
      SizeBounds(at, content);
      RequestedCounts(at, content);
      ghost var c0, g0 := at, content;
      CutMessage(at.messageSize);
      ghost var n := at.messageSize;
      RequestedCounts(at, content);
      truncated := at.requested != at.messageSize;
      done := true;
      if truncated {
        done := AddTruncatedField();
      }
      assert Sealed(c0, g0, at, content, n, truncated, done);
    }

    /** Closes the record. It is published exactly when the mark of a cut message fits (the accounting charge
        always does under an aligned limit); the buffer then reads back as everything that was accepted. A
        record that is not published resets its slot. */
    method Publish() returns (record: Option<StoredRecord>)
      requires Valid()
      modifies this, slot, if slot != null then {slot.storage} else {}
      ensures slot == null && (old(slot) == null ==> record.None?)
      ensures old(slot) != null && record.None? ==> old(slot).state.Reset?
      ensures old(slot) != null && record.Some? ==>
                old(slot).state.Published? && RecordHolds(old(slot).storage[..], old(content), record.value)
      ensures old(slot) != null && old(content).limit % QUANTUM == 0 ==>
                (record.Some? <==> CanPublish(old(at), old(content)))
    {
      hide BufferOk, CoreOk, Utf8.IsLongest, Sealed, CanPublish, RecordHolds, SealedHeader, PutWords, Splice,
           SerializedBytes;
      if slot == null {
        return None;
      }
      ghost var c0, g0 := at, content;
      var done, truncated := SealMessage();
      ghost var n :| Sealed(c0, g0, at, content, n, truncated, done);
      SealedCanPublish(c0, g0, at, content, n, truncated, done);
      if !done {
        slot.ResetSlot();
        slot := null;
        return None;
      }
      SealedCharge(at, content);
      SealedHolds(slot.storage[..], c0, g0, at, content, n, truncated);
      var st := slot.storage[..];
      BufferLength(st, at, content);
      CopyIn(slot.storage, 0, PutWords(SealedHeader(st, at, truncated)));
      var serialized := SerializedBytes(at);
      var charge := AccountingCharge(serialized);
      var limit := at.fieldTail + FIELD_BYTES * at.fieldCount + at.fieldBytes;
      var owner := slot;
      slot := null;
      if serialized > limit || charge == 0 || charge > limit {
        owner.ResetSlot();
        return None;
      }
      owner.state := Published;
      return Some(StoredRecord(serialized, charge, truncated));
    }
  }
}
