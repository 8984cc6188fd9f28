/** Well-formed UTF-8 prefixes (src/producer/record_storage.cpp:53-99).

The reference is the grammar of section 4 of RFC 3629: a well-formed string is a sequence of UTF8-char.
*/
module Utf8 {
  import opened Bytes

  predicate Tail(b: byte) { 0x80 <= b <= 0xBF }

  /** UTF8-char of the grammar, alternative by alternative. */
  predicate IsChar(c: seq<byte>) {
    || (|c| == 1 && c[0] <= 0x7F)
    || (|c| == 2 && 0xC2 <= c[0] <= 0xDF && Tail(c[1]))
    || (|c| == 3 && c[0] == 0xE0 && 0xA0 <= c[1] <= 0xBF && Tail(c[2]))
    || (|c| == 3 && 0xE1 <= c[0] <= 0xEC && Tail(c[1]) && Tail(c[2]))
    || (|c| == 3 && c[0] == 0xED && 0x80 <= c[1] <= 0x9F && Tail(c[2]))
    || (|c| == 3 && 0xEE <= c[0] <= 0xEF && Tail(c[1]) && Tail(c[2]))
    || (|c| == 4 && c[0] == 0xF0 && 0x90 <= c[1] <= 0xBF && Tail(c[2]) && Tail(c[3]))
    || (|c| == 4 && 0xF1 <= c[0] <= 0xF3 && Tail(c[1]) && Tail(c[2]) && Tail(c[3]))
    || (|c| == 4 && c[0] == 0xF4 && 0x80 <= c[1] <= 0x8F && Tail(c[2]) && Tail(c[3]))
  }

  /** A character of `n` bytes stands at position `m`. */
  predicate CharAt(s: seq<byte>, m: nat, n: nat) {
    1 <= n <= 4 && m + n <= |s| && IsChar(s[m..m + n])
  }

  /** UTF8-octets: any number of characters. */
  predicate WellFormed(s: seq<byte>)
    decreases |s|
  {
    s == [] || exists n :: 1 <= n <= 4 && CharAt(s, 0, n) && WellFormed(s[n..])
  }

  /** The first byte decides the length, so no character is a proper prefix of another. */
  lemma CharsArePrefixFree(s: seq<byte>, m: nat, n: nat)
    requires CharAt(s, 0, m) && CharAt(s, 0, n)
    ensures m == n
  {
    assert s[0..m][0] == s[0] == s[0..n][0];
  }

  lemma CharSlice(s: seq<byte>, t: seq<byte>, i: nat, j: nat, n: nat)
    requires i + n <= |s| && j + n <= |t| && s[i..i + n] == t[j..j + n]
    ensures CharAt(s, i, n) == CharAt(t, j, n)
  {
    hide IsChar;
  }

  lemma {:induction false} AppendChar(s: seq<byte>, c: seq<byte>)
    requires WellFormed(s) && CharAt(c, 0, |c|)
    ensures WellFormed(s + c)
    decreases |s|
  {
    hide IsChar;
    if s == [] {
      assert s + c == c && c[|c|..] == [];
    } else {
      var n :| 1 <= n <= 4 && CharAt(s, 0, n) && WellFormed(s[n..]);
      AppendChar(s[n..], c);
      assert (s + c)[0..n] == s[0..n] && (s + c)[n..] == s[n..] + c;
      CharSlice(s + c, s, 0, 0, n);
    }
  }

  /** What follows a well-formed prefix of a well-formed string is well formed. */
  lemma {:induction false} DropPrefix(s: seq<byte>, m: nat)
    requires m <= |s| && WellFormed(s) && WellFormed(s[..m])
    ensures WellFormed(s[m..])
    decreases m
  {
    hide IsChar;
    if m == 0 {
      assert s[0..] == s;
    } else {
      var n :| 1 <= n <= 4 && CharAt(s, 0, n) && WellFormed(s[n..]);
      var k :| 1 <= k <= 4 && CharAt(s[..m], 0, k) && WellFormed(s[..m][k..]);
      assert s[..m][0..k] == s[0..k];
      CharSlice(s[..m], s, 0, 0, k);
      CharsArePrefixFree(s, n, k);
      assert s[..m][n..] == s[n..][..m - n];
      DropPrefix(s[n..], m - n);
      assert s[n..][m - n..] == s[m..];
    }
  }

  /** The longest well-formed prefix. */
  predicate IsLongest(s: seq<byte>, m: nat) {
    && m <= |s| && WellFormed(s[..m])
    && forall n :: m < n <= |s| ==> !WellFormed(s[..n])
  }

  /** A longer well-formed prefix goes on with a character. */
  lemma LongerContinues(s: seq<byte>, m: nat, n: nat) returns (k: nat)
    requires m < n <= |s| && WellFormed(s[..m]) && WellFormed(s[..n])
    ensures CharAt(s, m, k)
  {
    hide IsChar;
    assert s[..n][..m] == s[..m];
    DropPrefix(s[..n], m);
    var rest := s[..n][m..];
    k :| 1 <= k <= 4 && CharAt(rest, 0, k) && WellFormed(rest[k..]);
    assert rest[0..k] == s[m..m + k];
    CharSlice(rest, s, 0, m, k);
  }

  /** A well-formed prefix that no character continues is the longest one. */
  lemma StuckIsLongest(s: seq<byte>, m: nat)
    requires m <= |s| && WellFormed(s[..m]) && forall n :: !CharAt(s, m, n)
    ensures IsLongest(s, m)
  {
    hide CharAt, WellFormed;
    forall n | m < n <= |s|
      ensures !WellFormed(s[..n])
    {
      if WellFormed(s[..n]) {
        var k := LongerContinues(s, m, n);
        assert false;
      }
    }
  }

  /** The bytes a sequence beginning with `first` must have; zero when no character begins so. */
  function SequenceSize(first: byte): (n: nat)
    ensures n <= 4
  {
    if first <= 0x7F then 1
    else if 0xC2 <= first <= 0xDF then 2
    else if 0xE0 <= first <= 0xEF then 3
    else if 0xF0 <= first <= 0xF4 then 4
    else 0
  }

  /** A byte whose two leading bits are 1 and 0. */
  predicate IsContinuationByte(b: byte) { b / 64 == 2 }

  /** The second byte the standard excludes after some first bytes: overlong forms, surrogates and code
      points beyond the last. */
  predicate Excluded(first: byte, second: byte) {
    || (first == 0xE0 && second < 0xA0) || (first == 0xED && second >= 0xA0)
    || (first == 0xF0 && second < 0x90) || (first == 0xF4 && second >= 0x90)
  }

  /** The code's test of one sequence is the grammar's. */
  lemma SequenceIsChar(c: seq<byte>)
    requires c != []
    ensures IsChar(c) <==>
            && |c| == SequenceSize(c[0])
            && (forall i :: 1 <= i < |c| ==> IsContinuationByte(c[i]))
            && (|c| >= 3 ==> !Excluded(c[0], c[1]))
  {
    assert forall b: byte :: IsContinuationByte(b) <==> Tail(b);
  }

  /** Only a character of the length the first byte calls for can stand at `m`. */
  lemma OnlyLength(s: seq<byte>, m: nat)
    requires m < |s|
    ensures forall n :: CharAt(s, m, n) ==> n == SequenceSize(s[m])
  {
    forall n | CharAt(s, m, n)
      ensures n == SequenceSize(s[m])
    {
      assert s[m..m + n][0] == s[m];
      SequenceIsChar(s[m..m + n]);
    }
  }

  /** Whether the sequence called for at `m` is there: its length fits, its tail consists of continuation
      bytes, and its second byte is not excluded. */
  method TestSequence(value: seq<byte>, m: nat) returns (length: nat, valid: bool)
    requires m < |value|
    ensures length == SequenceSize(value[m]) && valid == CharAt(value, m, length)
  {
    length := SequenceSize(value[m]);
    if length == 0 || length > |value| - m {
      return length, false;
    }
    ghost var sequence := value[m..m + length];
    SequenceIsChar(sequence);
    valid := true;
    var index := 1;
    while index < length
      invariant 1 <= index <= length
      invariant valid <==> forall i :: 1 <= i < index ==> IsContinuationByte(sequence[i])
    {
      assert sequence[index] == value[m + index];
      valid := valid && IsContinuationByte(value[m + index]);
      index := index + 1;
    }
    if length >= 3 && Excluded(value[m], value[m + 1]) {
      assert sequence[0] == value[m] && sequence[1] == value[m + 1];
      valid := false;
    }
  }

  /** The number of leading bytes that form the longest well-formed prefix. */
  method ValidUtf8PrefixLength(value: seq<byte>) returns (size: nat)
    ensures IsLongest(value, size)
  {
    hide IsChar, SequenceSize;
    size := 0;
    while size < |value|
      invariant size <= |value| && WellFormed(value[..size])
    {
      OnlyLength(value, size);
      var length, valid := TestSequence(value, size);
      if !valid {
        StuckIsLongest(value, size);
        return;
      }
      var sequence := value[size..size + length];
      CharSlice(value, sequence, size, 0, length);
      AppendChar(value[..size], sequence);
      assert value[..size] + sequence == value[..size + length];
      size := size + length;
    }
  }

  /** There is only one longest well-formed prefix. */
  lemma LongestUnique(s: seq<byte>, m: nat, n: nat)
    requires IsLongest(s, m) && IsLongest(s, n)
    ensures m == n
  {}
}
