/** Bit strings: the values the prefix tries and the flow masks work on.
    Index 0 is the most significant bit of the first byte (network order). */
module Bits {

  type BitString = seq<bool>

  /** Number of leading positions at which `a` and `b` agree. */
  function EqualBits(a: BitString, b: BitString): (n: nat)
    ensures n <= |a| && n <= |b|
    ensures forall k :: 0 <= k < n ==> a[k] == b[k]
    ensures n < |a| && n < |b| ==> a[n] != b[n]
  {
    EqualBitsFrom(a, b, 0)
  }

  function EqualBitsFrom(a: BitString, b: BitString, i: nat): (n: nat)
    requires i <= |a| && i <= |b|
    ensures i <= n <= |a| && n <= |b|
    ensures forall k :: i <= k < n ==> a[k] == b[k]
    ensures n < |a| && n < |b| ==> a[n] != b[n]
    decreases |a| - i
  {
    if i < |a| && i < |b| && a[i] == b[i] then EqualBitsFrom(a, b, i + 1) else i
  }

  /** When all of `b` is found at offset `ofs` of `v`. */
  lemma FullMatchAt(b: BitString, v: BitString, ofs: nat)
    requires ofs <= |v| && EqualBits(b, v[ofs..]) == |b|
    ensures ofs + |b| <= |v|
    ensures v[ofs..ofs + |b|] == b && v[..ofs + |b|] == v[..ofs] + b
  {
  }
}
