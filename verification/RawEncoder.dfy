/** The Raw frame encoder (src/encoding/raw_encoder.cpp).

A frame is one line: a prefix, one tab-separated key=value pair per field, and the message as a last pair.
Keys are lower-cased; bytes that would break the line apart are escaped. Rendering a double is not modelled:
the renderer is a parameter of which only the length and the absence of special bytes are used.
*/
module RawEncoder {
  import opened Accounting
  import opened Bytes
  import opened Options
  import opened RecordFormat
  import RecordStorage

  const TAB: byte := 9
  const NEWLINE: byte := 10
  const BACKSLASH: byte := 92
  const EQUALS: byte := 61

  const PREFIX: seq<byte> := [116, 115, 107, 118]             // tskv
  const TEXT_KEY: seq<byte> := [116, 101, 120, 116]           // text
  const TEXT_PREFIX: seq<byte> := [9, 116, 101, 120, 116, 61] // tab, text=
  const NULL_TEXT: seq<byte> := [110, 117, 108, 108]          // null
  const FIXED_BYTES: nat := 11

  /* --- Escaping --------------------------------------------------------------------------------------- */

  /** The letter after the backslash, or zero for a byte that stands for itself. */
  function EscapeCode(b: byte, isKey: bool): byte {
    if b == 0 then 48
    else if b == TAB then 116
    else if b == NEWLINE then 110
    else if b == 13 then 114
    else if b == BACKSLASH then BACKSLASH
    else if b == EQUALS && isKey then EQUALS
    else 0
  }

  function NormalizeKeyByte(b: byte): byte {
    if 65 <= b <= 90 then b + 32 else b
  }

  function EscapeByte(b: byte, isKey: bool): (r: seq<byte>)
    ensures 1 <= |r| <= 2
  {
    if EscapeCode(b, isKey) != 0 then [BACKSLASH, EscapeCode(b, isKey)]
    else [if isKey then NormalizeKeyByte(b) else b]
  }

  function Escape(s: seq<byte>, isKey: bool): (r: seq<byte>)
    ensures |s| <= |r| <= 2 * |s|
  {
    if s == [] then [] else Escape(s[..|s| - 1], isKey) + EscapeByte(s[|s| - 1], isKey)
  }

  /** What the escape letter stands for. */
  function Unescaped(code: byte): byte {
    if code == 48 then 0
    else if code == 116 then TAB
    else if code == 110 then NEWLINE
    else if code == 114 then 13
    else code
  }

  function Lower(s: seq<byte>): seq<byte> {
    seq(|s|, i requires 0 <= i < |s| => NormalizeKeyByte(s[i]))
  }

  /** A byte that ends a key, or a value, when it is not escaped. */
  predicate Stops(b: byte, isKey: bool) {
    if isKey then b == EQUALS else b == TAB || b == NEWLINE
  }

  datatype Scanned = Scanned(bytes: seq<byte>, rest: seq<byte>)

  /** Reads escaped text up to the first byte that ends it. */
  function Scan(s: seq<byte>, isKey: bool): (r: Scanned)
    ensures |r.rest| <= |s|
    decreases |s|
  {
    if s == [] || Stops(s[0], isKey) then Scanned([], s)
    else if s[0] == BACKSLASH && |s| >= 2 then
      var r := Scan(s[2..], isKey);
      Scanned([Unescaped(s[1])] + r.bytes, r.rest)
    else
      var r := Scan(s[1..], isKey);
      Scanned([s[0]] + r.bytes, r.rest)
  }

  function Plain(s: seq<byte>, isKey: bool): seq<byte> { if isKey then Lower(s) else s }

  lemma {:induction false} EscapeFirst(s: seq<byte>, isKey: bool)
    requires s != []
    ensures Escape(s, isKey) == EscapeByte(s[0], isKey) + Escape(s[1..], isKey)
  {
    hide EscapeByte;
    var n := |s| - 1;
    if n == 0 {
      assert s[..n] == [] && s[1..] == [] && s[n] == s[0];
    } else {
      EscapeFirst(s[..n], isKey);
      assert s[..n][0] == s[0] && s[..n][1..] == s[1..][..n - 1] && s[1..][n - 1] == s[n];
      var first, middle, last := EscapeByte(s[0], isKey), Escape(s[..n][1..], isKey), EscapeByte(s[n], isKey);
      assert Escape(s[1..], isKey) == middle + last;
      assert (first + middle) + last == first + (middle + last);
    }
  }

  /** One more byte in front of scanned text. */
  function Prepend(b: byte, r: Scanned): Scanned { Scanned([b] + r.bytes, r.rest) }

  lemma ScanPair(code: byte, isKey: bool, rest: seq<byte>)
    ensures Scan([BACKSLASH, code] + rest, isKey) == Prepend(Unescaped(code), Scan(rest, isKey))
  {
    hide Unescaped;
    var s := [BACKSLASH, code] + rest;
    assert s[0] == BACKSLASH && s[1] == code && s[2..] == rest;
  }

  lemma ScanRaw(b: byte, isKey: bool, rest: seq<byte>)
    requires !Stops(b, isKey) && b != BACKSLASH
    ensures Scan([b] + rest, isKey) == Prepend(b, Scan(rest, isKey))
  {
    hide Unescaped;
    var s := [b] + rest;
    assert s[0] == b && s[1..] == rest;
  }

  lemma ScanByte(b: byte, isKey: bool, rest: seq<byte>)
    ensures Scan(EscapeByte(b, isKey) + rest, isKey) ==
            Prepend(if isKey then NormalizeKeyByte(b) else b, Scan(rest, isKey))
  {
    hide Scan;
    if EscapeCode(b, isKey) != 0 {
      ScanPair(EscapeCode(b, isKey), isKey, rest);
    } else {
      ScanRaw(if isKey then NormalizeKeyByte(b) else b, isKey, rest);
    }
  }

  lemma PlainFirst(s: seq<byte>, isKey: bool)
    requires s != []
    ensures Plain(s, isKey) == [if isKey then NormalizeKeyByte(s[0]) else s[0]] + Plain(s[1..], isKey)
  {
    hide NormalizeKeyByte;
  }

  lemma ScanEnd(isKey: bool, tail: seq<byte>)
    requires tail == [] || Stops(tail[0], isKey)
    ensures Scan(tail, isKey) == Scanned([], tail)
  {}

  /** Scanning undoes escaping, up to the byte that follows. */
  lemma {:induction false} ScanEscape(s: seq<byte>, isKey: bool, tail: seq<byte>)
    requires tail == [] || Stops(tail[0], isKey)
    ensures Scan(Escape(s, isKey) + tail, isKey) == Scanned(Plain(s, isKey), tail)
    decreases |s|
  {
    hide Scan, EscapeByte, NormalizeKeyByte;
    if s == [] {
      assert Escape(s, isKey) + tail == tail;
      ScanEnd(isKey, tail);
      assert Plain(s, isKey) == [];
    } else {
      EscapeFirst(s, isKey);
      var first, rest := EscapeByte(s[0], isKey), Escape(s[1..], isKey);
      hide Escape;
      ScanEscape(s[1..], isKey, tail);
      ScanByte(s[0], isKey, rest + tail);
      assert (first + rest) + tail == first + (rest + tail);
      PlainFirst(s, isKey);
    }
  }

  /** Escaped text contains no byte that ends a line or a pair. */
  lemma {:induction false} EscapeSafe(s: seq<byte>, isKey: bool)
    ensures TAB !in Escape(s, isKey) && NEWLINE !in Escape(s, isKey)
  {
    if s != [] {
      EscapeSafe(s[..|s| - 1], isKey);
    }
  }

  /* --- Values ------------------------------------------------------------------------------------------- */

  /** Free of the bytes that would have to be escaped in a value. */
  predicate Harmless(s: seq<byte>) {
    forall i :: 0 <= i < |s| ==> s[i] != 0 && s[i] != TAB && s[i] != NEWLINE && s[i] != 13 && s[i] != BACKSLASH
  }

  /** What is assumed of the renderer of doubles: at most 24 bytes, none of them special. */
  ghost predicate DoubleRenderer(render: nat -> seq<byte>) {
    forall bits :: |render(bits)| <= 24 && Harmless(render(bits))
  }

  function Decimal(n: nat): (r: seq<byte>)
    ensures |r| >= 1 && forall i :: 0 <= i < |r| ==> 48 <= r[i] <= 57
  {
    if n < 10 then [48 + n] else Decimal(n / 10) + [48 + n % 10]
  }

  function Pow10(k: nat): nat { if k == 0 then 1 else 10 * Pow10(k - 1) }

  lemma {:induction false} DecimalDigits(n: nat, k: nat)
    requires k > 0 && n < Pow10(k)
    ensures |Decimal(n)| <= k
    decreases k
  {
    if n >= 10 {
      DecimalDigits(n / 10, k - 1);
    }
  }

  /** A signed value from its 64 bits. */
  function Signed(bits: nat): seq<byte> {
    if bits < 0x8000_0000_0000_0000 then Decimal(bits)
    else if bits < WORD * WORD then [45] + Decimal(WORD * WORD - bits)
    else []
  }

  lemma TenPowers()
    ensures Pow10(19) == 10_000_000_000_000_000_000 && Pow10(20) == 100_000_000_000_000_000_000
  {
    assert Pow10(3) == 1000;
    assert Pow10(6) == 10 * (10 * (10 * Pow10(3)));
    assert Pow10(9) == 10 * (10 * (10 * Pow10(6)));
    assert Pow10(12) == 10 * (10 * (10 * Pow10(9)));
    assert Pow10(15) == 10 * (10 * (10 * Pow10(12)));
    assert Pow10(18) == 10 * (10 * (10 * Pow10(15)));
    assert Pow10(20) == 10 * Pow10(19) && Pow10(19) == 10 * Pow10(18);
  }

  lemma NumbersFit(bits: nat)
    requires bits < WORD * WORD
    ensures |Decimal(bits)| <= 20 && |Signed(bits)| <= 20
  {
    TenPowers();
    DecimalDigits(bits, 20);
    if bits < 0x8000_0000_0000_0000 {
    } else {
      DecimalDigits(WORD * WORD - bits, 19);
    }
  }

  /** A value as a reader of the frame gets it. */
  function PlainValue(v: Value, render: nat -> seq<byte>): seq<byte> {
    match v
    case Text(bytes) => bytes
    case Int64(bits) => Signed(bits)
    case UInt64(bits) => Decimal(bits)
    case Double(bits) => render(bits)
    case Bool(b) => [if b then 49 else 48]
    case Null => NULL_TEXT
  }

  /** A value as it stands in the frame. */
  function ValueBytes(v: Value, render: nat -> seq<byte>): seq<byte> {
    if v.Text? then Escape(v.bytes, false) else PlainValue(v, render)
  }

  lemma NumberHarmless(bits: nat)
    ensures Harmless(Decimal(bits)) && Harmless(Signed(bits))
  {}

  lemma {:induction false} EscapeHarmless(s: seq<byte>)
    requires Harmless(s)
    ensures Escape(s, false) == s
  {
    if s != [] {
      EscapeHarmless(s[..|s| - 1]);
    }
  }

  /** Every value's bytes are the escaped form of the plain value. */
  lemma ValueEscaped(v: Value, render: nat -> seq<byte>)
    requires DoubleRenderer(render)
    ensures ValueBytes(v, render) == Escape(PlainValue(v, render), false)
  {
    if !v.Text? {
      if v.Int64? || v.UInt64? {
        NumberHarmless(v.bits);
      }
      EscapeHarmless(PlainValue(v, render));
    }
  }

  /* --- The frame ------------------------------------------------------------------------------------------ */

  function PairFrame(key: seq<byte>, value: seq<byte>): seq<byte> {
    [TAB] + Escape(key, true) + [EQUALS] + value
  }

  function FieldsFrame(fields: seq<Field>, render: nat -> seq<byte>): seq<byte> {
    if fields == [] then []
    else
      var f := fields[|fields| - 1];
      FieldsFrame(fields[..|fields| - 1], render) + PairFrame(f.key, ValueBytes(f.value, render))
  }

  function Frame(v: View, render: nat -> seq<byte>): seq<byte> {
    PREFIX + FieldsFrame(v.fields, render) + TEXT_PREFIX + Escape(v.message, false) + [NEWLINE]
  }

  /* --- Reading a frame back --------------------------------------------------------------------------------- */

  datatype Pair = Pair(key: seq<byte>, value: seq<byte>)

  function DecodePairs(s: seq<byte>): Option<seq<Pair>>
    decreases |s|
  {
    if s == [NEWLINE] then Some([])
    else if s == [] || s[0] != TAB then None
    else
      var key := Scan(s[1..], true);
      if key.rest == [] then None
      else
        var value := Scan(key.rest[1..], false);
        var rest := DecodePairs(value.rest);
        if rest.None? then None else Some([Pair(key.bytes, value.bytes)] + rest.value)
  }

  function Decode(frame: seq<byte>): Option<seq<Pair>> {
    if |frame| >= 4 && frame[..4] == PREFIX then DecodePairs(frame[4..]) else None
  }

  /** The pairs a record stands for: its fields with lower-cased keys, and its message last. */
  function Pairs(v: View, render: nat -> seq<byte>): seq<Pair> {
    FieldPairs(v.fields, render) + [Pair(TEXT_KEY, v.message)]
  }

  function FieldPairs(fields: seq<Field>, render: nat -> seq<byte>): seq<Pair> {
    seq(|fields|, i requires 0 <= i < |fields| => Pair(Lower(fields[i].key), PlainValue(fields[i].value, render)))
  }

  /** One pair is read off the front. */
  lemma DecodePair(key: seq<byte>, plain: seq<byte>, tail: seq<byte>)
    requires tail != [] && Stops(tail[0], false)
    ensures DecodePairs(PairFrame(key, Escape(plain, false)) + tail) ==
            (if DecodePairs(tail).None? then None else Some([Pair(Lower(key), plain)] + DecodePairs(tail).value))
  {
    hide Scan, Escape, EscapeByte, NormalizeKeyByte, Lower;
    var value := Escape(plain, false);
    var s := PairFrame(key, value) + tail;
    var afterKey := [EQUALS] + (value + tail);
    assert s[0] == TAB && s[1..] == Escape(key, true) + afterKey;
    ScanEscape(key, true, afterKey);
    assert afterKey[1..] == value + tail;
    ScanEscape(plain, false, tail);
    assert s != [NEWLINE];
  }

  /** The frame of a list of fields, from the front. */
  lemma {:induction false} FieldsFrameFirst(fields: seq<Field>, render: nat -> seq<byte>)
    requires fields != []
    ensures FieldsFrame(fields, render) ==
            PairFrame(fields[0].key, ValueBytes(fields[0].value, render)) + FieldsFrame(fields[1..], render)
  {
    hide PairFrame, ValueBytes;
    var n := |fields| - 1;
    if n == 0 {
      assert fields[..n] == [] && fields[1..] == [] && fields[n] == fields[0];
    } else {
      FieldsFrameFirst(fields[..n], render);
      assert fields[..n][0] == fields[0] && fields[..n][1..] == fields[1..][..n - 1] && fields[1..][n - 1] == fields[n];
      var first := PairFrame(fields[0].key, ValueBytes(fields[0].value, render));
      var middle := FieldsFrame(fields[..n][1..], render);
      var last := PairFrame(fields[n].key, ValueBytes(fields[n].value, render));
      assert FieldsFrame(fields[1..], render) == middle + last;
      assert (first + middle) + last == first + (middle + last);
    }
  }

  /** What follows the fields begins with the tab of another pair. */
  lemma FieldsFrameTab(fields: seq<Field>, render: nat -> seq<byte>, tail: seq<byte>)
    requires tail != [] && Stops(tail[0], false)
    ensures FieldsFrame(fields, render) + tail != [] && Stops((FieldsFrame(fields, render) + tail)[0], false)
  {
    if fields != [] {
      FieldsFrameFirst(fields, render);
    }
  }

  lemma {:induction false} DecodeFields(fields: seq<Field>, render: nat -> seq<byte>, tail: seq<byte>)
    requires DoubleRenderer(render) && tail != [] && Stops(tail[0], false) && DecodePairs(tail).Some?
    ensures DecodePairs(FieldsFrame(fields, render) + tail) ==
            Some(FieldPairs(fields, render) + DecodePairs(tail).value)
    decreases |fields|
  {
    hide DecodePairs, PairFrame, ValueBytes, Lower, PlainValue, Escape;
    if fields == [] {
      assert FieldsFrame(fields, render) + tail == tail;
      assert FieldPairs(fields, render) + DecodePairs(tail).value == DecodePairs(tail).value;
    } else {
      var f, rest := fields[0], fields[1..];
      FieldsFrameFirst(fields, render);
      DecodeFields(rest, render, tail);
      ValueEscaped(f.value, render);
      FieldsFrameTab(rest, render, tail);
      var first, more := PairFrame(f.key, ValueBytes(f.value, render)), FieldsFrame(rest, render);
      DecodePair(f.key, PlainValue(f.value, render), more + tail);
      assert (first + more) + tail == first + (more + tail);
      var pairs := FieldPairs(rest, render) + DecodePairs(tail).value;
      assert FieldPairs(fields, render) == [Pair(Lower(f.key), PlainValue(f.value, render))] + FieldPairs(rest, render);
      assert [Pair(Lower(f.key), PlainValue(f.value, render))] + pairs ==
             FieldPairs(fields, render) + DecodePairs(tail).value;
    }
  }

  /** A key of bytes that stand for themselves is written as it is. */
  lemma {:induction false} EscapePlainKey(s: seq<byte>)
    requires forall i :: 0 <= i < |s| ==> EscapeCode(s[i], true) == 0 && NormalizeKeyByte(s[i]) == s[i]
    ensures Escape(s, true) == s
  {
    hide EscapeCode, NormalizeKeyByte;
    if s != [] {
      EscapePlainKey(s[..|s| - 1]);
    }
  }

  lemma TextPair(message: seq<byte>)
    ensures TEXT_PREFIX + Escape(message, false) == PairFrame(TEXT_KEY, Escape(message, false))
    ensures Lower(TEXT_KEY) == TEXT_KEY
  {
    hide Escape;
    EscapePlainKey(TEXT_KEY);
    assert TEXT_PREFIX == [TAB] + TEXT_KEY + [EQUALS];
  }

  /** Decoding a frame gives back every field, key lower-cased and value rendered, and the message. */
  lemma FrameRoundTrip(v: View, render: nat -> seq<byte>)
    requires DoubleRenderer(render)
    ensures Decode(Frame(v, render)) == Some(Pairs(v, render))
  {
    hide DecodePairs, PairFrame, Escape, FieldsFrame, Lower, FieldPairs;
    var text := PairFrame(TEXT_KEY, Escape(v.message, false)) + [NEWLINE];
    TextPair(v.message);
    TextLast(v.message);
    DecodeFields(v.fields, render, text);
    assert Frame(v, render)[..4] == PREFIX;
    assert Frame(v, render)[4..] == FieldsFrame(v.fields, render) + text;
  }

  lemma TextLast(message: seq<byte>)
    ensures var text := PairFrame(TEXT_KEY, Escape(message, false)) + [NEWLINE];
            text[0] == TAB && DecodePairs(text) == Some([Pair(TEXT_KEY, message)])
  {
    hide Escape, Scan;
    DecodePair(TEXT_KEY, message, [NEWLINE]);
    TextPair(message);
    assert DecodePairs([NEWLINE]) == Some([]);
    assert [Pair(TEXT_KEY, message)] + [] == [Pair(TEXT_KEY, message)];
  }

  /* --- One line, of bounded size --------------------------------------------------------------------------- */

  lemma {:induction false} FieldsOneLine(fields: seq<Field>, render: nat -> seq<byte>)
    requires DoubleRenderer(render)
    ensures NEWLINE !in FieldsFrame(fields, render)
  {
    hide Escape, PlainValue, ValueBytes;
    if fields != [] {
      var f := fields[|fields| - 1];
      FieldsOneLine(fields[..|fields| - 1], render);
      EscapeSafe(f.key, true);
      ValueEscaped(f.value, render);
      EscapeSafe(PlainValue(f.value, render), false);
    }
  }

  /** A frame is one line: its only newline is its last byte. */
  lemma FrameIsOneLine(v: View, render: nat -> seq<byte>)
    requires DoubleRenderer(render)
    ensures var frame := Frame(v, render);
            frame[|frame| - 1] == NEWLINE && NEWLINE !in frame[..|frame| - 1]
  {
    hide Escape, FieldsFrame;
    FieldsOneLine(v.fields, render);
    EscapeSafe(v.message, false);
    var body := PREFIX + FieldsFrame(v.fields, render) + TEXT_PREFIX + Escape(v.message, false);
    assert Frame(v, render)[..|body|] == body;
  }

  predicate FieldsOk(fields: seq<Field>) {
    forall i :: 0 <= i < |fields| ==> FieldOk(fields[i])
  }

  lemma PairBound(f: Field, render: nat -> seq<byte>)
    requires DoubleRenderer(render) && FieldOk(f)
    ensures |PairFrame(f.key, ValueBytes(f.value, render))| <= 2 * FieldSize(f)
  {
    hide Escape, Decimal, Signed, DoubleRenderer;
    if f.value.Int64? || f.value.UInt64? {
      NumbersFit(f.value.bits);
    } else if f.value.Double? {
      RendererBound(render, f.value.bits);
    }
  }

  lemma RendererBound(render: nat -> seq<byte>, bits: nat)
    requires DoubleRenderer(render)
    ensures |render(bits)| <= 24
  {}

  lemma {:induction false} FieldsBound(fields: seq<Field>, render: nat -> seq<byte>)
    requires DoubleRenderer(render) && FieldsOk(fields)
    ensures |FieldsFrame(fields, render)| <= 2 * (FIELD_BYTES * |fields| + RecordStorage.PayloadBytes(fields))
  {
    hide PairFrame, ValueBytes, DoubleRenderer, FieldOk;
    if fields != [] {
      FieldsBound(fields[..|fields| - 1], render);
      PairBound(fields[|fields| - 1], render);
    }
  }

  /** The buffer size configured for records of at most the given size; zero when it would overflow. */
  function MaximumRawEncodedBytes(maximumRecordBytes: nat): nat {
    if maximumRecordBytes > (SIZE_MAX - FIXED_BYTES) / 2 then 0 else FIXED_BYTES + maximumRecordBytes * 2
  }

  /** A record's frame is at most twice its serialized size and the fixed bytes. */
  lemma FrameBound(v: View, render: nat -> seq<byte>, maximum: nat)
    requires DoubleRenderer(render) && FieldsOk(v.fields) && RecordStorage.ViewBytes(v) <= maximum
    ensures |Frame(v, render)| <= FIXED_BYTES + 2 * maximum
    ensures MaximumRawEncodedBytes(maximum) != 0 ==> |Frame(v, render)| <= MaximumRawEncodedBytes(maximum)
  {
    hide Escape, FieldsFrame, DoubleRenderer;
    FieldsBound(v.fields, render);
  }

  /* --- The two passes ------------------------------------------------------------------------------------------ */

  /** Adds unless the sum would leave the size type. */
  method AddSize(total: nat, increment: nat) returns (ok: bool, sum: nat)
    requires total <= SIZE_MAX
    ensures ok <==> total + increment <= SIZE_MAX
    ensures sum == if ok then total + increment else total
  {
    if increment > SIZE_MAX - total {
      return false, total;
    }
    return true, total + increment;
  }

  method AddEscapedSize(total: nat, value: seq<byte>, isKey: bool) returns (ok: bool, sum: nat)
    requires total <= SIZE_MAX
    ensures ok <==> total + |Escape(value, isKey)| <= SIZE_MAX
    ensures ok ==> sum == total + |Escape(value, isKey)|
    ensures sum <= SIZE_MAX
  {
    ok, sum := true, total;
    var i := 0;
    while i < |value|
      invariant i <= |value| && sum == total + |Escape(value[..i], isKey)| <= SIZE_MAX && ok
    {
      assert value[..i + 1][..i] == value[..i];
      EscapeMonotone(value, i + 1, isKey);
      ok, sum := AddSize(sum, if EscapeCode(value[i], isKey) == 0 then 1 else 2);
      if !ok {
        return;
      }
      i := i + 1;
    }
    assert value[..i] == value;
  }

  lemma {:induction false} EscapeMonotone(value: seq<byte>, i: nat, isKey: bool)
    requires i <= |value|
    ensures |Escape(value[..i], isKey)| <= |Escape(value, isKey)|
    decreases |value|
  {
    hide EscapeByte;
    if i == |value| {
      assert value[..i] == value;
    } else {
      EscapeMonotone(value[..|value| - 1], i, isKey);
      assert value[..|value| - 1][..i] == value[..i];
    }
  }

  method AddFieldValueSize(total: nat, value: Value, render: nat -> seq<byte>) returns (ok: bool, sum: nat)
    requires total <= SIZE_MAX
    ensures ok <==> total + |ValueBytes(value, render)| <= SIZE_MAX
    ensures ok ==> sum == total + |ValueBytes(value, render)|
    ensures sum <= SIZE_MAX
  {
    hide Escape, Decimal, Signed;
    match value
    case Text(bytes) => ok, sum := AddEscapedSize(total, bytes, false);
    case Int64(bits) => ok, sum := AddSize(total, |Signed(bits)|);
    case UInt64(bits) => ok, sum := AddSize(total, |Decimal(bits)|);
    case Double(bits) => ok, sum := AddSize(total, |render(bits)|);
    case Bool(_) => ok, sum := AddSize(total, 1);
    case Null => ok, sum := AddSize(total, |NULL_TEXT|);
  }

  /** One field's part of the size pass. */
  method AddFieldSize(total: nat, f: Field, render: nat -> seq<byte>) returns (ok: bool, sum: nat)
    requires total <= SIZE_MAX
    ensures ok <==> total + |PairFrame(f.key, ValueBytes(f.value, render))| <= SIZE_MAX
    ensures ok ==> sum == total + |PairFrame(f.key, ValueBytes(f.value, render))|
    ensures sum <= SIZE_MAX
  {
    hide Escape, ValueBytes;
    ok, sum := AddSize(total, 1);
    if ok {
      ok, sum := AddEscapedSize(sum, f.key, true);
    }
    if ok {
      ok, sum := AddSize(sum, 1);
    }
    if ok {
      ok, sum := AddFieldValueSize(sum, f.value, render);
    }
  }

  lemma {:induction false} FieldsMonotone(fields: seq<Field>, i: nat, render: nat -> seq<byte>)
    requires i <= |fields|
    ensures |FieldsFrame(fields[..i], render)| <= |FieldsFrame(fields, render)|
    decreases |fields|
  {
    hide PairFrame, ValueBytes;
    if i == |fields| {
      assert fields[..i] == fields;
    } else {
      FieldsMonotone(fields[..|fields| - 1], i, render);
      assert fields[..|fields| - 1][..i] == fields[..i];
    }
  }

  lemma FieldsFrameNext(fields: seq<Field>, i: nat, render: nat -> seq<byte>)
    requires i < |fields|
    ensures FieldsFrame(fields[..i + 1], render) ==
            FieldsFrame(fields[..i], render) + PairFrame(fields[i].key, ValueBytes(fields[i].value, render))
  {
    hide PairFrame, ValueBytes;
    assert fields[..i + 1][..i] == fields[..i];
  }

  lemma FieldsFrameEmpty(render: nat -> seq<byte>)
    ensures FieldsFrame([], render) == []
  {}

  predicate Readable(st: seq<byte>) {
    |st| >= HEADER_BYTES && FieldCount(st) == |ReadView(st).fields|
  }

  /** The size pass: the exact length of the frame, unless it leaves the size type. */
  method RequiredSize(st: seq<byte>, render: nat -> seq<byte>) returns (ok: bool, size: nat)
    requires Readable(st)
    ensures ok <==> |Frame(ReadView(st), render)| <= SIZE_MAX
    ensures ok ==> size == |Frame(ReadView(st), render)|
  {
    hide Escape, PairFrame, ValueBytes;
    ghost var v := ReadView(st);
    size := |PREFIX|;
    var cursor := new FieldCursor(st, Get32(st, 40), Get32(st, 44));
    var index := 0;
    while index < FieldCount(st)
      invariant index <= |v.fields| && cursor.Rest() == v.fields[index..] && |cursor.Rest()| == cursor.remaining
      invariant size == |PREFIX| + |FieldsFrame(v.fields[..index], render)| <= SIZE_MAX
    {
      var field := cursor.Next();
      FieldsFrameNext(v.fields, index, render);
      FieldsMonotone(v.fields, index + 1, render);
      ok, size := AddFieldSize(size, field.value, render);
      if !ok {
        return;
      }
      index := index + 1;
    }
    assert v.fields[..index] == v.fields;
    ok, size := AddSize(size, |TEXT_PREFIX|);
    if ok {
      ok, size := AddEscapedSize(size, ReadText(st, Get32(st, 24), Get32(st, 28)), false);
    }
    if ok {
      ok, size := AddSize(size, 1);
    }
  }

  /** The bytes were written at the cursor, and nothing else changed. */
  predicate Written(before: seq<byte>, after: seq<byte>, cursor: nat, bytes: seq<byte>) {
    cursor + |bytes| <= |before| && after == Splice(before, cursor, bytes)
  }

  lemma WrittenThen(a: seq<byte>, b: seq<byte>, c: seq<byte>, cursor: nat, x: seq<byte>, y: seq<byte>)
    requires Written(a, b, cursor, x) && Written(b, c, cursor + |x|, y)
    ensures Written(a, c, cursor, x + y)
  {
    assert c == Splice(a, cursor, x + y);
  }

  lemma WrittenNothing(a: seq<byte>, cursor: nat)
    requires cursor <= |a|
    ensures Written(a, a, cursor, [])
  {
    assert a == Splice(a, cursor, []);
  }

  method WriteLiteral(output: array<byte>, cursor: nat, value: seq<byte>) returns (next: nat)
    requires cursor + |value| <= output.Length
    modifies output
    ensures next == cursor + |value| && Written(old(output[..]), output[..], cursor, value)
  {
    RecordStorage.CopyIn(output, cursor, value);
    next := cursor + |value|;
  }

  method WriteEscapedByte(output: array<byte>, cursor: nat, b: byte, isKey: bool) returns (next: nat)
    requires cursor + |EscapeByte(b, isKey)| <= output.Length
    modifies output
    ensures next == cursor + |EscapeByte(b, isKey)|
    ensures Written(old(output[..]), output[..], cursor, EscapeByte(b, isKey))
  {
    var escape := EscapeCode(b, isKey);
    if escape != 0 {
      output[cursor] := BACKSLASH;
      output[cursor + 1] := escape;
      next := cursor + 2;
    } else {
      output[cursor] := if isKey then NormalizeKeyByte(b) else b;
      next := cursor + 1;
    }
    assert output[..] == Splice(old(output[..]), cursor, EscapeByte(b, isKey));
  }

  method WriteEscaped(output: array<byte>, cursor: nat, value: seq<byte>, isKey: bool) returns (next: nat)
    requires cursor + |Escape(value, isKey)| <= output.Length
    modifies output
    ensures next == cursor + |Escape(value, isKey)|
    ensures Written(old(output[..]), output[..], cursor, Escape(value, isKey))
  {
    hide Written, EscapeByte, Escape;
    next := cursor;
    var i := 0;
    EscapeNothing(isKey);
    WrittenNothing(output[..], cursor);
    assert value[..0] == [];
    while i < |value|
      invariant i <= |value| && next == cursor + |Escape(value[..i], isKey)| <= output.Length
      invariant Written(old(output[..]), output[..], cursor, Escape(value[..i], isKey))
    {
      EscapeNext(value, i, isKey);
      EscapeMonotone(value, i + 1, isKey);
      ghost var before := output[..];
      next := WriteEscapedByte(output, next, value[i], isKey);
      WrittenThen(old(output[..]), before, output[..], cursor, Escape(value[..i], isKey), EscapeByte(value[i], isKey));
      i := i + 1;
    }
    assert value[..i] == value;
  }

  lemma EscapeNothing(isKey: bool)
    ensures Escape([], isKey) == []
  {}

  lemma EscapeNext(value: seq<byte>, i: nat, isKey: bool)
    requires i < |value|
    ensures Escape(value[..i + 1], isKey) == Escape(value[..i], isKey) + EscapeByte(value[i], isKey)
  {
    hide EscapeByte;
    assert value[..i + 1][..i] == value[..i];
  }

  method WriteFieldValue(output: array<byte>, cursor: nat, value: Value, render: nat -> seq<byte>) returns (next: nat)
    requires cursor + |ValueBytes(value, render)| <= output.Length
    modifies output
    ensures next == cursor + |ValueBytes(value, render)|
    ensures Written(old(output[..]), output[..], cursor, ValueBytes(value, render))
  {
    hide Written, Escape, Decimal, Signed;
    match value
    case Text(bytes) => next := WriteEscaped(output, cursor, bytes, false);
    case Int64(bits) => next := WriteLiteral(output, cursor, Signed(bits));
    case UInt64(bits) => next := WriteLiteral(output, cursor, Decimal(bits));
    case Double(bits) => next := WriteLiteral(output, cursor, render(bits));
    case Bool(b) => next := WriteLiteral(output, cursor, [if b then 49 else 48]);
    case Null => next := WriteLiteral(output, cursor, NULL_TEXT);
  }

  /** One field's part of the write pass. */
  method WriteField(output: array<byte>, cursor: nat, f: Field, render: nat -> seq<byte>) returns (next: nat)
    requires cursor + |PairFrame(f.key, ValueBytes(f.value, render))| <= output.Length
    modifies output
    ensures next == cursor + |PairFrame(f.key, ValueBytes(f.value, render))|
    ensures Written(old(output[..]), output[..], cursor, PairFrame(f.key, ValueBytes(f.value, render)))
  {
    hide Written, Escape, ValueBytes;
    ghost var o0 := output[..];
    next := WriteLiteral(output, cursor, [TAB]);
    ghost var o1 := output[..];
    next := WriteEscaped(output, next, f.key, true);
    ghost var o2 := output[..];
    WrittenThen(o0, o1, o2, cursor, [TAB], Escape(f.key, true));
    next := WriteLiteral(output, next, [EQUALS]);
    ghost var o3 := output[..];
    WrittenThen(o0, o2, o3, cursor, [TAB] + Escape(f.key, true), [EQUALS]);
    next := WriteFieldValue(output, next, f.value, render);
    WrittenThen(o0, o3, output[..], cursor, [TAB] + Escape(f.key, true) + [EQUALS], ValueBytes(f.value, render));
  }

  /** The write pass up to the message. */
  method WriteFields(output: array<byte>, st: seq<byte>, render: nat -> seq<byte>) returns (next: nat)
    requires Readable(st) && |PREFIX + FieldsFrame(ReadView(st).fields, render)| <= output.Length
    modifies output
    ensures next == |PREFIX + FieldsFrame(ReadView(st).fields, render)|
    ensures Written(old(output[..]), output[..], 0, PREFIX + FieldsFrame(ReadView(st).fields, render))
  {
    hide Written, PairFrame, ValueBytes, FieldsFrame, WalkFields, Get32, ReadSource, ReadText;
    ghost var fields, o0 := ReadView(st).fields, output[..];
    next := WriteLiteral(output, 0, PREFIX);
    var cursor := new FieldCursor(st, Get32(st, 40), Get32(st, 44));
    var index := 0;
    FieldsFrameEmpty(render);
    assert fields[..0] == [] && PREFIX + [] == PREFIX;
    while index < FieldCount(st)
      invariant index <= |fields| && cursor.Rest() == fields[index..] && |cursor.Rest()| == cursor.remaining
      invariant next == |PREFIX + FieldsFrame(fields[..index], render)|
      invariant Written(o0, output[..], 0, PREFIX + FieldsFrame(fields[..index], render))
    {
      ghost var done := PREFIX + FieldsFrame(fields[..index], render);
      var field := cursor.Next();
      FieldsFrameNext(fields, index, render);
      FieldsMonotone(fields, index + 1, render);
      ghost var before, pair := output[..], PairFrame(field.value.key, ValueBytes(field.value.value, render));
      next := WriteField(output, next, field.value, render);
      WrittenThen(o0, before, output[..], 0, done, pair);
      assert done + pair == PREFIX + FieldsFrame(fields[..index + 1], render);
      index := index + 1;
    }
    assert fields[..index] == fields;
  }

  /** Encodes the record into the output exactly when its frame fits, and then writes the frame and nothing
      else; the size pass and the write pass agree on its length. */
  method EncodeRawRecord(st: seq<byte>, render: nat -> seq<byte>, output: array<byte>) returns (encoded: Option<nat>)
    requires Readable(st) && output.Length <= SIZE_MAX
    modifies output
    ensures encoded.Some? <==> |Frame(ReadView(st), render)| <= output.Length
    ensures encoded.Some? ==>
              encoded.value == |Frame(ReadView(st), render)| &&
              Written(old(output[..]), output[..], 0, Frame(ReadView(st), render))
    ensures encoded.None? ==> output[..] == old(output[..])
  {
    hide Written, Escape, FieldsFrame, WalkFields, Get32, ReadSource;
    var ok, required := RequiredSize(st, render);
    if !ok || required > output.Length {
      return None;
    }
    ghost var v, o0 := ReadView(st), output[..];
    ghost var x := PREFIX + FieldsFrame(v.fields, render);
    var next := WriteFields(output, st, render);
    ghost var o1 := output[..];
    next := WriteLiteral(output, next, TEXT_PREFIX);
    ghost var o2 := output[..];
    WrittenThen(o0, o1, o2, 0, x, TEXT_PREFIX);
    next := WriteEscaped(output, next, ReadText(st, Get32(st, 24), Get32(st, 28)), false);
    ghost var o3 := output[..];
    WrittenThen(o0, o2, o3, 0, x + TEXT_PREFIX, Escape(v.message, false));
    next := WriteLiteral(output, next, [NEWLINE]);
    WrittenThen(o0, o3, output[..], 0, x + TEXT_PREFIX + Escape(v.message, false), [NEWLINE]);
    return Some(next);
  }

  /* --- Stored records always encode ------------------------------------------------------------------------------ */

  lemma ReadFieldOk(st: seq<byte>, at: nat)
    requires at + FIELD_BYTES <= |st|
    ensures FieldOk(ReadField(st, at))
  {
    hide Get32, ReadText;
  }

  lemma {:induction false} WalkOk(st: seq<byte>, at: nat, remaining: nat)
    ensures FieldsOk(WalkFields(st, at, remaining))
    decreases remaining
  {
    hide FieldOk, ReadField, NextField;
    if remaining != 0 && at != 0 && at + FIELD_BYTES <= |st| {
      ReadFieldOk(st, at);
      WalkOk(st, NextField(st, at), remaining - 1);
    }
  }

  /** A record the writer published under a limit fits the buffer configured for that limit, so encoding it
      never fails. */
  lemma StoredRecordEncodes(st: seq<byte>, g: RecordStorage.Content, r: RecordStorage.StoredRecord,
                            render: nat -> seq<byte>)
    requires DoubleRenderer(render) && RecordStorage.RecordHolds(st, g, r) && g.limit <= MAXIMUM_RECORD_BYTES
    ensures Readable(st) && |Frame(ReadView(st), render)| <= MaximumRawEncodedBytes(g.limit)
  {
    hide Frame, DoubleRenderer, Get32, ReadSource, ReadText;
    WalkOk(st, Get32(st, 40), Get32(st, 44));
    FrameBound(ReadView(st), render, g.limit);
  }
}
