/** Byte sequences. */
module Bytes {

  type byte = x: int | 0 <= x < 256

  /** The sequence with `source` written over it at `offset`. */
  function Splice(target: seq<byte>, offset: nat, source: seq<byte>): (r: seq<byte>)
    requires offset + |source| <= |target|
    ensures |r| == |target|
    ensures forall i :: 0 <= i < |r| ==>
      r[i] == if offset <= i < offset + |source| then source[i - offset] else target[i]
  {
    target[..offset] + source + target[offset + |source|..]
  }
}
