/** The byte format of a stored record and its reader (src/producer/record_storage.hpp:15-48,
src/producer/record_storage.cpp:116-130 and 476-594).

A record begins with a 56-byte header, followed by the source texts and the message; its fields grow from
the end of the buffer towards the message, each a 24-byte entry followed by its key and its value, linked
in insertion order. Integers are little endian, so both objects are rows of 32-bit words.
*/
module RecordFormat {
  import opened Bytes
  import opened Options

  const HEADER_BYTES: nat := 56
  const FIELD_BYTES: nat := 24
  const WORD: nat := 0x1_0000_0000

  datatype Value = Text(bytes: seq<byte>) | Int64(bits: nat) | UInt64(bits: nat) | Double(bits: nat) | Bool(bool) | Null

  datatype Field = Field(key: seq<byte>, value: Value)

  /** What the producer gives about the call site; the timestamp as its 64 bits. */
  datatype Source = Source(timestamp: nat, level: nat, path: seq<byte>, function_: seq<byte>, line: nat, column: nat)

  /** Everything a reader gets from a record. */
  datatype View = View(source: Source, message: seq<byte>, truncated: bool, fields: seq<Field>)

  /* --- Words ------------------------------------------------------------------------------------------ */

  function Put32(n: nat): (r: seq<byte>)
    requires n < WORD
    ensures |r| == 4
  {
    [n % 256, n / 256 % 256, n / 256 / 256 % 256, n / 256 / 256 / 256]
  }

  function Value32(b: seq<byte>): (n: nat)
    requires |b| == 4
    ensures n < WORD
  {
    var b0: int, b1: int, b2: int, b3: int := b[0], b[1], b[2], b[3];
    b0 + 256 * (b1 + 256 * (b2 + 256 * b3))
  }

  function Get32(st: seq<byte>, at: nat): (n: nat)
    requires at + 4 <= |st|
    ensures n < WORD
  {
    Value32(st[at..at + 4])
  }

  function PutWords(words: seq<nat>): (r: seq<byte>)
    requires forall k :: 0 <= k < |words| ==> words[k] < WORD
    ensures |r| == 4 * |words|
  {
    seq(4 * |words|, j requires 0 <= j < 4 * |words| => Put32(words[j / 4])[j % 4])
  }

  lemma Value32Put32(n: nat)
    requires n < WORD
    ensures Value32(Put32(n)) == n
  {}

  lemma PutWordsAt(words: seq<nat>, k: nat)
    requires (forall i :: 0 <= i < |words| ==> words[i] < WORD) && k < |words|
    ensures PutWords(words)[4 * k..4 * k + 4] == Put32(words[k])
  {
    hide Put32;
    var a := PutWords(words)[4 * k..4 * k + 4];
    forall i | 0 <= i < 4
      ensures a[i] == Put32(words[k])[i]
    {
      assert a[i] == PutWords(words)[4 * k + i] && (4 * k + i) / 4 == k && (4 * k + i) % 4 == i;
    }
  }

  /** The bytes stand at the offset. */
  predicate Stored(st: seq<byte>, at: nat, bytes: seq<byte>) {
    at + |bytes| <= |st| && st[at..at + |bytes|] == bytes
  }

  lemma StoredParts(st: seq<byte>, at: nat, a: seq<byte>, b: seq<byte>)
    ensures Stored(st, at, a + b) <==> Stored(st, at, a) && Stored(st, at + |a|, b)
  {
    if at + |a| + |b| <= |st| {
      var whole := st[at..at + |a| + |b|];
      assert whole == st[at..at + |a|] + st[at + |a|..at + |a| + |b|];
      assert whole[..|a|] == st[at..at + |a|] && whole[|a|..] == st[at + |a|..at + |a| + |b|];
      assert (a + b)[..|a|] == a && (a + b)[|a|..] == b;
    }
  }

  lemma StoredSlice(st: seq<byte>, at: nat, bytes: seq<byte>, i: nat, n: nat)
    requires Stored(st, at, bytes) && i + n <= |bytes|
    ensures Stored(st, at + i, bytes[i..i + n])
  {
    var a, b := st[at + i..at + i + n], bytes[i..i + n];
    forall k | 0 <= k < n
      ensures a[k] == b[k]
    {
      assert st[at..at + |bytes|][i + k] == bytes[i + k];
    }
  }

  /** Reading a word of a stored row of words. */
  lemma StoredWord(st: seq<byte>, at: nat, words: seq<nat>, k: nat)
    requires (forall i :: 0 <= i < |words| ==> words[i] < WORD) && k < |words|
    requires Stored(st, at, PutWords(words))
    ensures at + 4 * k + 4 <= |st| && Get32(st, at + 4 * k) == words[k]
  {
    hide Put32, Value32, PutWords;
    PutWordsAt(words, k);
    Value32Put32(words[k]);
    StoredSlice(st, at, PutWords(words), 4 * k, 4);
  }

  /** A write leaves what lies before and after it. */
  lemma StoredFrame(st: seq<byte>, at: nat, bytes: seq<byte>, offset: nat, source: seq<byte>)
    requires Stored(st, at, bytes) && offset + |source| <= |st|
    requires at + |bytes| <= offset || offset + |source| <= at
    ensures Stored(Splice(st, offset, source), at, bytes)
  {
    var st' := Splice(st, offset, source);
    assert st'[at..at + |bytes|] == st[at..at + |bytes|];
  }

  lemma StoredWritten(st: seq<byte>, at: nat, bytes: seq<byte>)
    requires at + |bytes| <= |st|
    ensures Stored(Splice(st, at, bytes), at, bytes)
  {
    var st' := Splice(st, at, bytes);
    assert st'[at..at + |bytes|] == bytes;
  }

  /* --- Fields ------------------------------------------------------------------------------------------ */

  function Kind(v: Value): nat {
    match v
    case Text(_) => 0
    case Int64(_) => 1
    case UInt64(_) => 2
    case Double(_) => 3
    case Bool(_) => 4
    case Null => 5
  }

  function Payload(v: Value): seq<byte> {
    if v.Text? then v.bytes else []
  }

  /** The scalar's 64 bits; a boolean is kept in the flags instead. */
  function Bits(v: Value): nat {
    if v.Int64? || v.UInt64? || v.Double? then v.bits else 0
  }

  predicate FieldOk(f: Field) {
    Bits(f.value) < WORD * WORD
  }

  function FieldSize(f: Field): nat { FIELD_BYTES + |f.key| + |Payload(f.value)| }

  /** The entry of a field stored at `at` whose successor is at `next`. */
  function FieldWords(at: nat, next: nat, f: Field): (words: seq<nat>)
    ensures |words| == 6
  {
    var payload := Payload(f.value);
    [next, at + FIELD_BYTES, |f.key|,
     if payload == [] then Bits(f.value) % WORD else at + FIELD_BYTES + |f.key|,
     if payload == [] then Bits(f.value) / WORD else |payload|,
     Kind(f.value) + 256 * (if f.value == Bool(true) then 1 else 0)]
  }

  /** The offsets and sizes fit 32 bits and the scalar 64. */
  predicate FieldFits(at: nat, next: nat, f: Field) {
    FieldOk(f) && next < WORD && at + FieldSize(f) < WORD
  }

  lemma FieldWordsFit(at: nat, next: nat, f: Field)
    requires FieldFits(at, next, f)
    ensures forall k :: 0 <= k < 6 ==> FieldWords(at, next, f)[k] < WORD
  {}

  /** A field as it lies in the buffer. */
  function FieldBytes(at: nat, next: nat, f: Field): (r: seq<byte>)
    requires FieldFits(at, next, f)
    ensures |r| == FieldSize(f)
  {
    FieldWordsFit(at, next, f);
    PutWords(FieldWords(at, next, f)) + f.key + Payload(f.value)
  }

  predicate FieldStored(st: seq<byte>, at: nat, next: nat, f: Field) {
    FieldFits(at, next, f) && Stored(st, at, FieldBytes(at, next, f))
  }

  function ReadText(st: seq<byte>, at: nat, size: nat): seq<byte> {
    if at + size <= |st| then st[at..at + size] else []
  }

  /** The accessors of a field view: each kind has its own, and none answers for another. */
  function ReadValue(st: seq<byte>, at: nat): Value
    requires at + FIELD_BYTES <= |st|
  {
    ValueOf(st, Get32(st, at + 12), Get32(st, at + 16), Get32(st, at + 20))
  }

  function ValueOf(st: seq<byte>, low: nat, high: nat, tags: nat): Value {
    var bits := low + WORD * high;
    match tags % 256
    case 0 => Text(ReadText(st, low, high))
    case 1 => Int64(bits)
    case 2 => UInt64(bits)
    case 3 => Double(bits)
    case 4 => Bool(tags / 256 % 256 != 0)
    case _ => Null
  }

  function ReadField(st: seq<byte>, at: nat): Field
    requires at + FIELD_BYTES <= |st|
  {
    Field(ReadText(st, Get32(st, at + 4), Get32(st, at + 8)), ReadValue(st, at))
  }

  function NextField(st: seq<byte>, at: nat): nat
    requires at + FIELD_BYTES <= |st|
  {
    Get32(st, at)
  }

  lemma StoredFieldParts(st: seq<byte>, at: nat, next: nat, f: Field)
    requires FieldFits(at, next, f)
    ensures (forall k :: 0 <= k < 6 ==> FieldWords(at, next, f)[k] < WORD)
    ensures FieldStored(st, at, next, f) <==>
            && Stored(st, at, PutWords(FieldWords(at, next, f)))
            && Stored(st, at + FIELD_BYTES, f.key) && Stored(st, at + FIELD_BYTES + |f.key|, Payload(f.value))
  {
    FieldWordsFit(at, next, f);
    hide Stored, FieldWords, PutWords;
    var words := PutWords(FieldWords(at, next, f));
    StoredParts(st, at, words, f.key);
    StoredParts(st, at, words + f.key, Payload(f.value));
  }

  /** Reading a stored field gives it back, key, kind and value, and its successor. */
  lemma StoredFieldReads(st: seq<byte>, at: nat, next: nat, f: Field)
    requires FieldStored(st, at, next, f)
    ensures at + FIELD_BYTES <= |st| && ReadField(st, at) == f && NextField(st, at) == next
  {
    hide PutWords, Get32, FieldBytes;
    StoredFieldParts(st, at, next, f);
    var words := FieldWords(at, next, f);
    StoredWord(st, at, words, 0);
    StoredWord(st, at, words, 1);
    StoredWord(st, at, words, 2);
    StoredWord(st, at, words, 3);
    StoredWord(st, at, words, 4);
    StoredWord(st, at, words, 5);
    ValueReads(st, at, f);
  }

  lemma ValueReads(st: seq<byte>, at: nat, f: Field)
    requires FieldOk(f) && Stored(st, at + FIELD_BYTES + |f.key|, Payload(f.value))
    ensures var words := FieldWords(at, 0, f); ValueOf(st, words[3], words[4], words[5]) == f.value
  {
    var bits := Bits(f.value);
    assert bits == WORD * (bits / WORD) + bits % WORD;
  }

  /* --- The chain of fields ------------------------------------------------------------------------------ */

  function NextOf(offsets: seq<nat>, k: nat): nat {
    if k + 1 < |offsets| then offsets[k + 1] else 0
  }

  /** Field `k` is stored just below its predecessor, the first just below the limit, and links to the next. */
  predicate LinkOk(st: seq<byte>, offsets: seq<nat>, fields: seq<Field>, limit: nat, k: nat)
    requires |offsets| == |fields|
  {
    && k < |offsets| && 0 < offsets[k]
    && FieldStored(st, offsets[k], NextOf(offsets, k), fields[k])
    && offsets[k] + FieldSize(fields[k]) == (if k == 0 then limit else offsets[k - 1])
  }

  predicate Chain(st: seq<byte>, offsets: seq<nat>, fields: seq<Field>, limit: nat) {
    && |offsets| == |fields|
    && forall k :: 0 <= k < |offsets| ==> LinkOk(st, offsets, fields, limit, k)
  }

  /** Links strictly descend. */
  lemma ChainDescends(st: seq<byte>, offsets: seq<nat>, fields: seq<Field>, limit: nat, k: nat)
    requires Chain(st, offsets, fields, limit) && k + 1 < |offsets|
    ensures 0 < offsets[k + 1] < offsets[k] < limit
    decreases k
  {
    hide FieldStored;
    assert LinkOk(st, offsets, fields, limit, k) && LinkOk(st, offsets, fields, limit, k + 1);
    if k > 0 {
      ChainDescends(st, offsets, fields, limit, k - 1);
    }
  }

  /** The walk of a field cursor: at most `remaining` fields, from the one at `at`, ending at a zero link. */
  function WalkFields(st: seq<byte>, at: nat, remaining: nat): seq<Field>
    decreases remaining
  {
    if remaining == 0 || at == 0 || at + FIELD_BYTES > |st| then []
    else [ReadField(st, at)] + WalkFields(st, NextField(st, at), remaining - 1)
  }

  lemma {:induction false} WalkChain(st: seq<byte>, offsets: seq<nat>, fields: seq<Field>, limit: nat, k: nat)
    requires Chain(st, offsets, fields, limit) && k < |offsets|
    ensures WalkFields(st, offsets[k], |offsets| - k) == fields[k..]
    decreases |offsets| - k
  {
    hide FieldStored, ReadField, NextField;
    assert LinkOk(st, offsets, fields, limit, k);
    StoredFieldReads(st, offsets[k], NextOf(offsets, k), fields[k]);
    if k + 1 < |offsets| {
      WalkChain(st, offsets, fields, limit, k + 1);
      assert fields[k..] == [fields[k]] + fields[k + 1..];
    } else {
      assert WalkFields(st, 0, 0) == [] && fields[k..] == [fields[k]];
    }
  }

  /** A cursor over the chain gives exactly its fields, in insertion order. */
  lemma WalkAll(st: seq<byte>, offsets: seq<nat>, fields: seq<Field>, limit: nat)
    requires Chain(st, offsets, fields, limit)
    ensures WalkFields(st, if offsets == [] then 0 else offsets[0], |offsets|) == fields
  {
    hide FieldStored;
    if offsets != [] {
      WalkChain(st, offsets, fields, limit, 0);
      assert fields[0..] == fields;
    }
  }

  /* --- The header ------------------------------------------------------------------------------------------ */

  datatype Header = Header(source: Source, messageSize: nat, firstField: nat, fieldCount: nat, truncated: bool)

  function MessageOffset(source: Source): nat { HEADER_BYTES + |source.path| + |source.function_| }

  function HeaderWords(h: Header): (words: seq<nat>)
    ensures |words| == 14
  {
    var s := h.source;
    [s.timestamp % WORD, s.timestamp / WORD, HEADER_BYTES, |s.path|, HEADER_BYTES + |s.path|, |s.function_|,
     MessageOffset(s), h.messageSize, s.line, s.column, h.firstField, h.fieldCount, if h.truncated then 1 else 0,
     s.level]
  }

  predicate HeaderFits(h: Header) {
    && h.source.timestamp < WORD * WORD && h.source.level < 256 && MessageOffset(h.source) < WORD
    && h.messageSize < WORD && h.source.line < WORD && h.source.column < WORD && h.firstField < WORD &&
       h.fieldCount < WORD
  }

  lemma HeaderWordsFit(h: Header)
    requires HeaderFits(h)
    ensures forall k :: 0 <= k < 14 ==> HeaderWords(h)[k] < WORD
  {}

  predicate HeaderStored(st: seq<byte>, h: Header) {
    HeaderFits(h) && (HeaderWordsFit(h); Stored(st, 0, PutWords(HeaderWords(h))))
  }

  /** The source texts follow the header. */
  predicate SourceStored(st: seq<byte>, source: Source) {
    Stored(st, HEADER_BYTES, source.path) && Stored(st, HEADER_BYTES + |source.path|, source.function_)
  }

  /** The accessors of a record view. */
  function ReadSource(st: seq<byte>): Source
    requires |st| >= HEADER_BYTES
  {
    Source(Get32(st, 0) + WORD * Get32(st, 4), Get32(st, 52) % 256,
           ReadText(st, Get32(st, 8), Get32(st, 12)), ReadText(st, Get32(st, 16), Get32(st, 20)),
           Get32(st, 32), Get32(st, 36))
  }

  function ReadView(st: seq<byte>): View
    requires |st| >= HEADER_BYTES
  {
    View(ReadSource(st), ReadText(st, Get32(st, 24), Get32(st, 28)), Get32(st, 48) % 2 != 0,
         WalkFields(st, Get32(st, 40), Get32(st, 44)))
  }

  function FieldCount(st: seq<byte>): nat
    requires |st| >= HEADER_BYTES
  {
    Get32(st, 44)
  }

  lemma HeaderReads(st: seq<byte>, h: Header)
    requires HeaderStored(st, h)
    ensures |st| >= HEADER_BYTES && HeaderFits(h)
    ensures forall k :: 0 <= k < 14 ==> Get32(st, 4 * k) == HeaderWords(h)[k]
  {
    hide PutWords, Get32, HeaderWords, HeaderFits;
    HeaderWordsFit(h);
    forall k | 0 <= k < 14
      ensures Get32(st, 4 * k) == HeaderWords(h)[k]
    {
      StoredWord(st, 0, HeaderWords(h), k);
    }
  }

  lemma SourceReads(st: seq<byte>, h: Header)
    requires HeaderStored(st, h) && SourceStored(st, h.source)
    ensures |st| >= HEADER_BYTES && ReadSource(st) == h.source
  {
    hide PutWords, Get32, HeaderStored;
    HeaderReads(st, h);
    var ts := h.source.timestamp;
    assert ts == WORD * (ts / WORD) + ts % WORD;
    assert Get32(st, 4 * 0) == HeaderWords(h)[0] && Get32(st, 4 * 1) == HeaderWords(h)[1];
    assert Get32(st, 4 * 2) == HeaderWords(h)[2] && Get32(st, 4 * 3) == HeaderWords(h)[3];
    assert Get32(st, 4 * 4) == HeaderWords(h)[4] && Get32(st, 4 * 5) == HeaderWords(h)[5];
    assert Get32(st, 4 * 8) == HeaderWords(h)[8] && Get32(st, 4 * 9) == HeaderWords(h)[9];
    assert Get32(st, 4 * 13) == HeaderWords(h)[13];
  }

  /** Reading a stored record gives back its source, message, truncation mark and fields. */
  lemma RecordReads(st: seq<byte>, h: Header, message: seq<byte>, offsets: seq<nat>, fields: seq<Field>, limit: nat)
    requires HeaderStored(st, h) && SourceStored(st, h.source)
    requires h.messageSize == |message| && Stored(st, MessageOffset(h.source), message)
    requires Chain(st, offsets, fields, limit)
    requires h.fieldCount == |fields| && h.firstField == (if offsets == [] then 0 else offsets[0])
    ensures |st| >= HEADER_BYTES && ReadView(st) == View(h.source, message, h.truncated, fields)
    ensures FieldCount(st) == |fields|
  {
    hide PutWords, Get32, HeaderStored, Chain, ReadSource;
    HeaderReads(st, h);
    SourceReads(st, h);
    WalkAll(st, offsets, fields, limit);
    assert |offsets| == |fields| by { ChainLength(st, offsets, fields, limit); }
    assert Get32(st, 4 * 6) == HeaderWords(h)[6] && Get32(st, 4 * 7) == HeaderWords(h)[7];
    assert Get32(st, 4 * 10) == HeaderWords(h)[10] && Get32(st, 4 * 11) == HeaderWords(h)[11];
    assert Get32(st, 4 * 12) == HeaderWords(h)[12];
  }

  lemma ChainLength(st: seq<byte>, offsets: seq<nat>, fields: seq<Field>, limit: nat)
    requires Chain(st, offsets, fields, limit)
    ensures |offsets| == |fields|
  {}

  /* --- The reader ------------------------------------------------------------------------------------------- */

  /** A cursor over the fields of a published record, whose walk is known to reach every field. */
  class FieldCursor {
    const storage: seq<byte>
    var offset: nat
    var remaining: nat

    /** The fields still to come. */
    ghost function Rest(): seq<Field>
      reads this
    {
      WalkFields(storage, offset, remaining)
    }

    constructor (st: seq<byte>, at: nat, count: nat)
      ensures storage == st && offset == at && remaining == count
    {
      storage, offset, remaining := st, at, count;
    }

    /** Gives the next field and moves on; a cursor at its end stays there. */
    method Next() returns (field: Option<Field>)
      requires |Rest()| == remaining
      modifies this
      ensures |Rest()| == remaining
      ensures old(Rest()) == [] ==> field.None? && Rest() == []
      ensures old(Rest()) != [] ==> field == Some(old(Rest())[0]) && Rest() == old(Rest())[1..]
    {
      if remaining == 0 || offset == 0 {
        remaining := 0;
        return None;
      }
      ghost var rest := WalkFields(storage, NextField(storage, offset), remaining - 1);
      assert Rest() == [ReadField(storage, offset)] + rest;
      var current := offset;
      offset := NextField(storage, current);
      remaining := remaining - 1;
      return Some(ReadField(storage, current));
    }
  }

  /** Field number `index` of a record whose header counts the fields its links reach. */
  method FieldAt(st: seq<byte>, index: nat) returns (field: Option<Field>)
    requires |st| >= HEADER_BYTES && FieldCount(st) == |ReadView(st).fields|
    ensures field == if index < |ReadView(st).fields| then Some(ReadView(st).fields[index]) else None
  {
    if index >= FieldCount(st) {
      return None;
    }
    ghost var fields := ReadView(st).fields;
    var cursor := new FieldCursor(st, Get32(st, 40), Get32(st, 44));
    var current := 0;
    while current < index
      invariant current <= index
      invariant cursor.Rest() == fields[current..] && |cursor.Rest()| == cursor.remaining
    {
      var skipped := cursor.Next();
      current := current + 1;
    }
    field := cursor.Next();
  }
}
