/** Flows, masks and the hashes over them.

    A flow, a rule's match value and a wildcard mask are all sets of bit
    positions: the positions of their 1-bits.  Bit 32 * o + k is bit k, most
    significant first, of the big-endian 32-bit unit o, and word w is made of
    bits 64 * w .. 64 * w + 63.  Hash functions are parameters, so every result
    holds for every choice of them. */
module Flows {
  import opened Bits

  type BitSet = set<nat>

  const WORD_BITS: nat := 64

  /** `f` and `g` have the same value on every 1-bit of `m`. */
  ghost predicate Agree(m: BitSet, f: BitSet, g: BitSet)
  {
    forall b: nat :: b in m ==> (b in f <==> b in g)
  }

  /** Executable form of the comparison: no differing bit under the mask. */
  function Diff(m: BitSet, f: BitSet, g: BitSet): (d: BitSet)
    ensures d == {} <==> Agree(m, f, g)
  {
    var d := ((f - g) + (g - f)) * m;
    assert forall b: nat :: b in d <==> b in m && (b in f) != (b in g);
    d
  }

  /** Position of bit `k` of word `w`. */
  function BitAt(w: nat, k: nat): nat { WORD_BITS * w + k }

  /** The 64-bit word `w` of `s`, as positions within the word. */
  function Word(s: BitSet, w: nat): (r: BitSet)
  {
    set k: nat | k < WORD_BITS && BitAt(w, k) in s
  }

  /** The bits of `m` that lie in the words `ws`. */
  function InWords(m: BitSet, ws: seq<nat>): (r: BitSet)
    ensures forall b: nat :: b in r <==> b in m && b / WORD_BITS in ws
  {
    set b | b in m && b / WORD_BITS in ws
  }

  /** The `n` bits of `f` from position `ofs` on. */
  function FieldValue(f: BitSet, ofs: nat, n: nat): (v: BitString)
    ensures |v| == n
    ensures forall k :: 0 <= k < n ==> v[k] == (ofs + k in f)
  {
    seq(n, k requires 0 <= k < n => ofs + k in f)
  }

  /** The positions of the first `n` bits of a field. */
  function PrefixBits(ofs: nat, n: nat): (r: BitSet)
    ensures forall b: nat :: b in r <==> ofs <= b < ofs + n
  {
    if n == 0 then {} else PrefixBits(ofs, n - 1) + {ofs + n - 1}
  }

  lemma AgreeOnPrefix(f: BitSet, g: BitSet, ofs: nat, n: nat, len: nat)
    requires n <= len
    ensures Agree(PrefixBits(ofs, n), f, g) <==> FieldValue(f, ofs, len)[..n] == FieldValue(g, ofs, len)[..n]
  {
    var u, v := FieldValue(f, ofs, len), FieldValue(g, ofs, len);
    if Agree(PrefixBits(ofs, n), f, g) {
      forall k | 0 <= k < n ensures u[..n][k] == v[..n][k] {
        assert ofs + k in PrefixBits(ofs, n);
      }
    }
    if u[..n] == v[..n] {
      forall b: nat | b in PrefixBits(ofs, n) ensures b in f <==> b in g {
        assert u[..n][b - ofs] == v[..n][b - ofs];
      }
    }
  }

  // ---- The rightmost 1-bit of a word ----

  /** Where the bit of significance `k` of word `w` is, as a big- or little-endian host
      reads the word. */
  function Significant(big: bool, w: nat, k: nat): (b: nat)
    requires k < WORD_BITS
    ensures b / WORD_BITS == w
  {
    if big then BitAt(w, WORD_BITS - 1 - k) else ByteFlipTwice(k); BitAt(w, ByteFlip(k))
  }

  /** The bits of each byte in the opposite order. */
  function ByteFlip(k: nat): nat { 8 * (k / 8) + (7 - k % 8) }

  lemma ByteFlipTwice(k: nat)
    requires k < WORD_BITS
    ensures ByteFlip(k) < WORD_BITS && ByteFlip(ByteFlip(k)) == k
  {
    var q, r := k / 8, k % 8;
    assert ByteFlip(k) == 8 * q + (7 - r);
    assert ByteFlip(k) / 8 == q && ByteFlip(k) % 8 == 7 - r;
  }

  /** rightmost_1bit of the 1-bits `d` of word `w`, from significance `k` on. */
  function Rightmost(big: bool, d: BitSet, w: nat, k: nat): (b: nat)
    requires k < WORD_BITS
    ensures b / WORD_BITS == w
    decreases WORD_BITS - k
  {
    if k == WORD_BITS - 1 || Significant(big, w, k) in d then Significant(big, w, k) else Rightmost(big, d, w, k + 1)
  }

  /** The significance of a bit in its word. */
  function Significance(big: bool, b: nat): (k: nat)
    ensures k < WORD_BITS && Significant(big, b / WORD_BITS, k) == b
  {
    var i := b % WORD_BITS;
    if big then WORD_BITS - 1 - i else ByteFlipTwice(i); ByteFlip(i)
  }

  lemma {:induction false} RightmostIsIn(big: bool, d: BitSet, w: nat, k: nat, b: nat)
    requires k < WORD_BITS && b in d && b / WORD_BITS == w && Significance(big, b) >= k
    ensures Rightmost(big, d, w, k) in d
    decreases WORD_BITS - k
  {
    if k < WORD_BITS - 1 && Significant(big, w, k) !in d { RightmostIsIn(big, d, w, k + 1, b); }
  }

  /** It is the bit of least significance. */
  lemma {:induction false} RightmostIs(big: bool, d: BitSet, w: nat, k: nat, b: nat)
    requires k <= Significance(big, b) && b in d && b / WORD_BITS == w
    requires forall x :: x in d && x / WORD_BITS == w ==> Significance(big, b) <= Significance(big, x)
    ensures Rightmost(big, d, w, k) == b
    decreases WORD_BITS - k
  {
    hide Significance, Significant;
    if k < Significance(big, b) {
      assert Significant(big, w, k) !in d by { SignificanceOf(big, w, k); }
      RightmostIs(big, d, w, k + 1, b);
    }
  }

  lemma SignificanceOf(big: bool, w: nat, k: nat)
    requires k < WORD_BITS
    ensures Significance(big, Significant(big, w, k)) == k
  {
    ByteFlipTwice(k);
    if !big {
      assert Significant(big, w, k) % WORD_BITS == ByteFlip(k);
    }
  }

  // ---- Words that carry mask bits, and hashing over them ----

  /** The words in [start, end) in which `m` has a 1-bit, in ascending order. */
  function MapInRange(m: BitSet, start: nat, end: nat): (ws: seq<nat>)
    requires start <= end
    decreases end - start
  {
    if start == end then []
    else (if Word(m, start) != {} then [start] else []) + MapInRange(m, start + 1, end)
  }

  lemma {:induction false} MapMembers(m: BitSet, start: nat, end: nat, w: nat)
    requires start <= end
    ensures w in MapInRange(m, start, end) <==> start <= w < end && Word(m, w) != {}
    decreases end - start
  {
    if start < end { MapMembers(m, start + 1, end, w); }
  }

  /** The words are in ascending order. */
  lemma {:induction false} MapAscends(m: BitSet, start: nat, end: nat, i: nat, k: nat)
    requires start <= end && i < k < |MapInRange(m, start, end)|
    ensures MapInRange(m, start, end)[i] < MapInRange(m, start, end)[k]
    decreases end - start
  {
    var ws, rest := MapInRange(m, start, end), MapInRange(m, start + 1, end);
    if Word(m, start) == {} {
      MapAscends(m, start + 1, end, i, k);
    } else if i > 0 {
      MapAscends(m, start + 1, end, i - 1, k - 1);
    } else {
      assert ws[k] == rest[k - 1] && rest[k - 1] in rest;
      MapMembers(m, start + 1, end, ws[k]);
    }
  }

  lemma {:induction false} MapSplit(m: BitSet, start: nat, mid: nat, end: nat)
    requires start <= mid <= end
    ensures MapInRange(m, start, end) == MapInRange(m, start, mid) + MapInRange(m, mid, end)
    decreases mid - start
  {
    if start < mid { MapSplit(m, start + 1, mid, end); }
  }

  datatype Hasher = Hasher(add: (nat, BitSet) -> nat, finish: (nat, nat) -> nat)

  /** hash_add64 over the masked words `ws`, from `basis`. */
  function HashWords(h: Hasher, f: BitSet, m: BitSet, ws: seq<nat>, basis: nat): nat
    decreases |ws|
  {
    if ws == [] then basis
    else HashWords(h, f, m, ws[1..], h.add(basis, Word(f * m, ws[0])))
  }

  lemma {:induction false} HashWordsConcat(h: Hasher, f: BitSet, m: BitSet, a: seq<nat>, b: seq<nat>, basis: nat)
    ensures HashWords(h, f, m, a + b, basis) == HashWords(h, f, m, b, HashWords(h, f, m, a, basis))
    decreases |a|
  {
    if a == [] {
      assert a + b == b;
    } else {
      assert (a + b)[1..] == a[1..] + b;
      HashWordsConcat(h, f, m, a[1..], b, h.add(basis, Word(f * m, a[0])));
    }
  }

  /** Flows that agree on the masked bits of `ws` hash alike over `ws`. */
  lemma {:induction false} HashWordsAgree(h: Hasher, f: BitSet, g: BitSet, m: BitSet, ws: seq<nat>, basis: nat)
    requires Agree(InWords(m, ws), f, g)
    ensures HashWords(h, f, m, ws, basis) == HashWords(h, g, m, ws, basis)
    decreases |ws|
  {
    if ws != [] {
      assert Word(f * m, ws[0]) == Word(g * m, ws[0]) by {
        forall k: nat | k < WORD_BITS ensures k in Word(f * m, ws[0]) <==> k in Word(g * m, ws[0]) {
          var b := BitAt(ws[0], k);
          assert b / WORD_BITS == ws[0];
          assert b in m ==> b in InWords(m, ws);
        }
      }
      assert forall b: nat :: b in InWords(m, ws[1..]) ==> b in InWords(m, ws);
      HashWordsAgree(h, f, g, m, ws[1..], h.add(basis, Word(f * m, ws[0])));
    }
  }

  /** flow_hash_in_minimask_range and minimatch_hash_range: one stage of a
      segmented hash.  Returns the finished stage hash, and the unfinished
      value and offset from which the next stage continues. */
  method HashRange(h: Hasher, f: BitSet, m: BitSet, ws: seq<nat>, offset: nat, basis: nat)
    returns (hash: nat, offset': nat, basis': nat)
    ensures offset' == offset + |ws|
    ensures basis' == HashWords(h, f, m, ws, basis)
    ensures hash == h.finish(basis', offset' * 8)
  {
    basis', offset' := basis, offset;
    var i := 0;
    while i < |ws|
      invariant i <= |ws| && offset' == offset + i
      invariant HashWords(h, f, m, ws[i..], basis') == HashWords(h, f, m, ws, basis)
    {
      basis' := h.add(basis', Word(f * m, ws[i]));
      offset' := offset' + 1;
      i := i + 1;
    }
    hash := h.finish(basis', offset' * 8);
  }
}
