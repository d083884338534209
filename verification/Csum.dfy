/** The Internet checksum of section 2 of RFC 1071 and its incremental update of
    section 3 of RFC 1624.  A checksum is taken of 16-bit words in the order in
    which the host reads them. */
module Csum {
  type Byte = b: int | 0 <= b < 0x100
  type Word = w: int | 0 <= w < 0x1_0000

  const ONES: nat := 0xFFFF
  const WRAP: nat := 0x1_0000_0000

  /** The words of some bytes; an odd last byte is padded with zero. */
  function Words(data: seq<Byte>, big: bool): (ws: seq<Word>)
    ensures |ws| == (|data| + 1) / 2
    decreases |data|
  {
    if |data| == 0 then []
    else if |data| == 1 then [Pair(data[0], 0, big)]
    else [Pair(data[0], data[1], big)] + Words(data[2..], big)
  }

  function Pair(a: Byte, b: Byte, big: bool): Word { if big then a * 0x100 + b else b * 0x100 + a }

  function Sum(ws: seq<Word>): nat
  {
    if ws == [] then 0 else ws[0] + Sum(ws[1..])
  }

  /** Ones-complement sums have two zeros: this is zero only for zero. */
  function Canon(s: nat): (r: Word)
    ensures r == 0 <==> s == 0
  {
    if s == 0 then 0 else (s - 1) % ONES + 1
  }

  /** The checksum: the complement of the ones-complement sum. */
  function Checksum(ws: seq<Word>): Word { ONES - Canon(Sum(ws)) }

  // ---- Summing and folding ----

  lemma {:induction false} SumBound(ws: seq<Word>)
    ensures Sum(ws) <= ONES * |ws|
  {
    if ws != [] { SumBound(ws[1..]); }
  }

  lemma {:induction false} WordsSplit(data: seq<Byte>, big: bool, i: nat)
    requires i % 2 == 0 && i <= |data|
    ensures Sum(Words(data, big)) == Sum(Words(data[..i], big)) + Sum(Words(data[i..], big))
    decreases i
  {
    if i == 0 {
      assert data[0..] == data;
    } else {
      WordsSplit(data[2..], big, i - 2);
      assert data[..i][2..] == data[2..][..i - 2] && data[2..][i - 2..] == data[i..];
    }
  }

  /** csum_continue, with the wrap-around of its 32-bit accumulator. */
  method Continue(partial: nat, data: seq<Byte>, big: bool) returns (r: nat)
    requires partial < WRAP
    ensures r == (partial + Sum(Words(data, big))) % WRAP
  {
    hide Words, Sum, Pair;
    r := partial;
    NoWords(data, big);
    var i := 0;
    while i + 1 < |data|
      invariant i % 2 == 0 && i <= |data| && r == (partial + Sum(Words(data[..i], big))) % WRAP
    {
      AddPair(data, big, i);
      WrapAdd(partial + Sum(Words(data[..i], big)), Pair(data[i], data[i + 1], big));
      r := (r + Pair(data[i], data[i + 1], big)) % WRAP;
      i := i + 2;
    }
    if i < |data| {
      AddLast(data, big, i);
      WrapAdd(partial + Sum(Words(data[..i], big)), Pair(data[i], 0, big));
      r := (r + Pair(data[i], 0, big)) % WRAP;
    } else {
      assert data[..i] == data;
    }
  }

  lemma NoWords(data: seq<Byte>, big: bool)
    ensures Sum(Words(data[..0], big)) == 0
  {
  }

  lemma WrapAdd(a: nat, b: nat)
    ensures (a % WRAP + b) % WRAP == (a + b) % WRAP
  {
    var k := a / WRAP;
    assert a == WRAP * k + a % WRAP;
    WrapShift(a % WRAP + b, k);
  }

  lemma {:induction false} WrapShift(a: nat, k: nat)
    ensures (a + WRAP * k) % WRAP == a % WRAP
  {
    if k > 0 {
      WrapShift(a, k - 1);
      assert a + WRAP * k == (a + WRAP * (k - 1)) + WRAP;
    }
  }

  lemma AddPair(data: seq<Byte>, big: bool, i: nat)
    requires i % 2 == 0 && i + 1 < |data|
    ensures Sum(Words(data[..i + 2], big)) == Sum(Words(data[..i], big)) + Pair(data[i], data[i + 1], big)
  {
    WordsSplit(data[..i + 2], big, i);
    assert data[..i + 2][..i] == data[..i] && data[..i + 2][i..] == [data[i], data[i + 1]];
    assert Words([data[i], data[i + 1]], big) == [Pair(data[i], data[i + 1], big)];
  }

  lemma AddLast(data: seq<Byte>, big: bool, i: nat)
    requires i % 2 == 0 && i + 1 == |data|
    ensures Sum(Words(data, big)) == Sum(Words(data[..i], big)) + Pair(data[i], 0, big)
  {
    WordsSplit(data, big, i);
    assert data[i..] == [data[i]];
  }

  /** Folding keeps what a ones-complement sum is. */
  lemma FoldOnce(s: nat)
    requires s >= 0x1_0000
    ensures Canon(s % 0x1_0000 + s / 0x1_0000) == Canon(s) && s % 0x1_0000 + s / 0x1_0000 < s
  {
    var lo, hi := s % 0x1_0000, s / 0x1_0000;
    CanonShift(lo + hi, hi);
  }

  /** Multiples of the modulus do not matter, except between the two zeros. */
  lemma CanonShift(s: nat, k: nat)
    requires s > 0
    ensures Canon(s + ONES * k) == Canon(s)
  {
    ModShift(s - 1, k);
  }

  lemma {:induction false} ModShift(s: nat, k: nat)
    ensures (s + ONES * k) % ONES == s % ONES
  {
    if k > 0 {
      ModShift(s, k - 1);
      assert s + ONES * k == (s + ONES * (k - 1)) + ONES;
    }
  }

  lemma CanonSmall(s: nat)
    requires s <= ONES
    ensures Canon(s) == s
  {
  }

  /** csum_finish. */
  method Finish(partial: nat) returns (r: Word)
    ensures r == ONES - Canon(partial)
  {
    var p := partial;
    while p >= 0x1_0000
      invariant Canon(p) == Canon(partial)
      decreases p
    {
      FoldOnce(p);
      p := p % 0x1_0000 + p / 0x1_0000;
    }
    CanonSmall(p);
    r := ONES - p;
  }

  const MAX_WORDS: nat := 0x1_0001

  /** The carries out of 32 bits make no difference: a multiple of 65535 of them was
      lost, and what is left of a sum that is not zero is not zero. */
  predicate CarriesCancel(s: nat) { s / WRAP % ONES == 0 && (s % WRAP == 0 ==> s == 0) }

  /** csum is the checksum exactly as long as lost carries cancel, which they do in
      up to 65537 words, since none is lost there. */
  method Compute(data: seq<Byte>, big: bool) returns (r: Word)
    ensures r == Checksum(Words(data, big)) <==> CarriesCancel(Sum(Words(data, big)))
    ensures |data| <= 2 * MAX_WORDS ==> r == Checksum(Words(data, big))
  {
    hide CarriesCancel, Canon;
    SumBound(Words(data, big));
    LostCarries(Sum(Words(data, big)));
    var partial := Continue(0, data, big);
    r := Finish(partial);
  }

  /** 2^32 is congruent to 1, so a sum cut to 32 bits falls short by its carries. */
  lemma LostCarries(s: nat)
    ensures Canon(s % WRAP) == Canon(s) <==> CarriesCancel(s)
  {
    var q, lo := s / WRAP, s % WRAP;
    assert s == lo + q + ONES * (MAX_WORDS * q);
    if lo == 0 {
    } else if q % ONES == 0 {
      CanonShift(lo, MAX_WORDS * q + q / ONES);
      assert s == lo + ONES * (MAX_WORDS * q + q / ONES);
    } else {
      CanonShift(lo + q, MAX_WORDS * q);
      CanonDiffers(lo, q);
    }
  }

  lemma CanonDiffers(s: nat, q: nat)
    requires s > 0 && q % ONES != 0
    ensures Canon(s + q) != Canon(s)
  {
    var a, b := (s - 1) / ONES, (s + q - 1) / ONES;
    if Canon(s + q) == Canon(s) {
      assert q == ONES * (b - a);
      ModShift(0, b - a);
    }
  }

  /** The bound is exact: one word more can lose a carry, and the checksum is then
      wrong. */
  lemma BoundIsExact(ws: seq<Word>)
    requires |ws| == MAX_WORDS + 1 && forall i :: 0 <= i < |ws| ==> ws[i] == ONES
    ensures Sum(ws) >= WRAP && Canon(Sum(ws) % WRAP) != Canon(Sum(ws))
  {
    SumOfOnes(ws);
    var s := Sum(ws);
    assert s == ONES * (MAX_WORDS + 1);
    CanonShift(ONES, MAX_WORDS);
    assert s % WRAP == s - WRAP == 0xFFFE;
  }

  lemma {:induction false} SumOfOnes(ws: seq<Word>)
    requires forall i :: 0 <= i < |ws| ==> ws[i] == ONES
    ensures Sum(ws) == ONES * |ws|
  {
    if ws != [] { SumOfOnes(ws[1..]); }
  }

  // ---- Incremental update ----

  /** What an update comes to: eqn. 3 of RFC 1624. */
  function Recalc16(c: Word, was: Word, now: Word): Word { ONES - Canon((ONES - c) + (ONES - was) + now) }

  /** recalc_csum16, by way of csum_finish. */
  method Update16(c: Word, was: Word, now: Word) returns (r: Word)
    ensures r == Recalc16(c, was, now)
    ensures forall ws: seq<Word>, i: nat :: i < |ws| && ws[i] == was && c == Checksum(ws) ==> Updated(r, ws[i := now])
  {
    forall ws: seq<Word>, i: nat | i < |ws| && ws[i] == was && c == Checksum(ws) ensures Updated(Recalc16(c, was, now), ws[i := now]) {
      Recalc16IsExact(ws, i, now);
    }
    r := Finish((ONES - c) + (ONES - was) + now);
  }

  /** The halves of a 32-bit field, low half first. */
  function Low(x: nat): Word { x % 0x1_0000 }
  function High(x: nat): Word
    requires x < WRAP
  {
    x / 0x1_0000
  }

  function Recalc32(c: Word, was: nat, now: nat): Word
    requires was < WRAP && now < WRAP
  {
    Recalc16(Recalc16(c, Low(was), Low(now)), High(was), High(now))
  }

  /** recalc_csum32. */
  method Update32(c: Word, was: nat, now: nat) returns (r: Word)
    requires was < WRAP && now < WRAP
    ensures r == Recalc32(c, was, now)
    ensures forall ws: seq<Word>, i: nat, big: bool :: Holds32(ws, i, was, big) && c == Checksum(ws) ==> Updated(r, Put32(ws, i, now, big))
  {
    hide Recalc16, Checksum, Updated, First, Second;
    forall ws: seq<Word>, i: nat, big: bool | Holds32(ws, i, was, big) && c == Checksum(ws)
      ensures Updated(Recalc32(c, was, now), Put32(ws, i, now, big))
    {
      Recalc32IsExact(ws, i, was, now, big);
    }
    r := Update16(c, Low(was), Low(now));
    r := Update16(r, High(was), High(now));
  }

  /** `c` is the complement of a ones-complement sum of total `s`; it may be the
      wrong one of the two zeros, but is never zero for a sum that is not. */
  ghost predicate SumsTo(c: Word, s: nat)
  {
    Congruent(ONES - c, s) && (c == ONES ==> s == 0)
  }

  ghost predicate Congruent(a: int, b: int) { exists k: int :: Shifted(a, b, k) }

  predicate Shifted(a: int, b: int, k: int) { a == b + ONES * k }

  lemma CanonCongruent(s: nat)
    ensures Congruent(Canon(s), s)
  {
    if s == 0 {
      assert Shifted(0, 0, 0);
    } else {
      var k := (s - 1) / ONES;
      assert Shifted(Canon(s), s, -k);
    }
  }

  lemma CongruentTrans(a: int, b: int, c: int)
    requires Congruent(a, b) && Congruent(b, c)
    ensures Congruent(a, c)
  {
    var j: int :| Shifted(a, b, j);
    var k: int :| Shifted(b, c, k);
    assert Shifted(a, c, j + k);
  }

  /** Congruent and not zero: the same ones-complement sum. */
  lemma CongruentCanon(a: nat, b: nat)
    requires Congruent(a, b) && a > 0 && b > 0
    ensures Canon(a) == Canon(b)
  {
    var k: int :| Shifted(a, b, k);
    if k >= 0 { CanonShift(b, k); } else { CanonShift(a, -k); }
  }

  lemma ChecksumSums(ws: seq<Word>)
    ensures SumsTo(Checksum(ws), Sum(ws))
  {
    CanonCongruent(Sum(ws));
  }

  /** One update keeps the checksum congruent, and settles the two zeros. */
  lemma RecalcSums(c: Word, s: nat, was: Word, now: Word)
    requires SumsTo(c, s) && was <= s
    ensures SumsTo(Recalc16(c, was, now), s - was + now) && Recalc16(c, was, now) != ONES
  {
    var total := (ONES - c) + (ONES - was) + now;
    assert total > 0;
    CanonCongruent(total);
    var k: int :| Shifted(ONES - c, s, k);
    assert Shifted(total, s - was + now, k + 1);
    CongruentTrans(Canon(total), total, s - was + now);
  }

  /** An updated checksum is that of a full computation, unless everything became
      zero: then the full computation gives the other zero. */
  lemma UpdatedIsChecksum(c: Word, ws: seq<Word>)
    requires SumsTo(c, Sum(ws)) && c != ONES
    ensures c == Checksum(ws) <==> Sum(ws) != 0
  {
    var s := Sum(ws);
    if s != 0 {
      CongruentCanon(ONES - c, s);
      CanonSmall(ONES - c);
    }
  }

  lemma {:induction false} SumUpdate(ws: seq<Word>, i: nat, w: Word)
    requires i < |ws|
    ensures ws[i] <= Sum(ws) && Sum(ws[i := w]) == Sum(ws) - ws[i] + w
  {
    if i > 0 {
      SumUpdate(ws[1..], i - 1, w);
      assert ws[i := w][1..] == ws[1..][i - 1 := w];
    }
  }

  lemma {:induction false} SumZero(ws: seq<Word>)
    ensures Sum(ws) == 0 <==> forall i :: 0 <= i < |ws| ==> ws[i] == 0
  {
    if ws != [] {
      SumZero(ws[1..]);
      assert ws == [ws[0]] + ws[1..];
    }
  }

  /** Not all words are zero. */
  predicate NonZero(ws: seq<Word>) { exists i :: 0 <= i < |ws| && ws[i] != 0 }

  /** An update is a full recomputation exactly unless the new data is all
      zero. */
  lemma Recalc16IsExact(ws: seq<Word>, i: nat, now: Word)
    requires i < |ws|
    ensures Updated(Recalc16(Checksum(ws), ws[i], now), ws[i := now])
  {
    hide Canon, Sum, SumsTo, Recalc16, Updated;
    ChecksumSums(ws);
    UpdateWord(Checksum(ws), ws, i, now);
    SumsIsUpdated(Recalc16(Checksum(ws), ws[i], now), ws[i := now]);
  }

  /** The result of updates, at least one: congruent to the sum of the new data, and
      the checksum of the new data exactly unless that is all zero. */
  ghost predicate Updated(r: Word, ws: seq<Word>)
  {
    SumsTo(r, Sum(ws)) && (r == Checksum(ws) <==> NonZero(ws))
  }

  lemma SumsIsUpdated(r: Word, ws: seq<Word>)
    requires SumsTo(r, Sum(ws)) && r != ONES
    ensures Updated(r, ws)
  {
    hide Canon, Sum, SumsTo;
    UpdatedIsChecksum(r, ws);
    SumZero(ws);
  }

  lemma UpdateWord(c: Word, ws: seq<Word>, i: nat, now: Word)
    requires i < |ws| && SumsTo(c, Sum(ws))
    ensures SumsTo(Recalc16(c, ws[i], now), Sum(ws[i := now])) && Recalc16(c, ws[i], now) != ONES
  {
    hide Canon, Sum, SumsTo, Recalc16;
    SumUpdate(ws, i, now);
    RecalcSums(c, Sum(ws), ws[i], now);
  }

  // ---- Fields of 32 bits ----

  /** The first and second word of a 32-bit field as the host reads it. */
  function First(x: nat, big: bool): Word
    requires x < WRAP
  {
    if big then High(x) else Low(x)
  }

  function Second(x: nat, big: bool): Word
    requires x < WRAP
  {
    if big then Low(x) else High(x)
  }

  function Put32(ws: seq<Word>, i: nat, x: nat, big: bool): seq<Word>
    requires i + 1 < |ws| && x < WRAP
  {
    ws[i := First(x, big)][i + 1 := Second(x, big)]
  }

  predicate Holds32(ws: seq<Word>, i: nat, x: nat, big: bool)
  {
    i + 1 < |ws| && x < WRAP && ws[i] == First(x, big) && ws[i + 1] == Second(x, big)
  }

  lemma Recalc32Sums(c: Word, ws: seq<Word>, i: nat, was: nat, now: nat, big: bool)
    requires Holds32(ws, i, was, big) && now < WRAP && SumsTo(c, Sum(ws))
    ensures SumsTo(Recalc32(c, was, now), Sum(Put32(ws, i, now, big))) && Recalc32(c, was, now) != ONES
  {
    hide Canon, Sum, SumsTo, Recalc16;
    var lo, hi := if big then i + 1 else i, if big then i else i + 1;
    var half := ws[lo := Low(now)];
    UpdateWord(c, ws, lo, Low(now));
    UpdateWord(Recalc16(c, Low(was), Low(now)), half, hi, High(now));
    assert half[hi := High(now)] == Put32(ws, i, now, big);
  }

  /** The same for a 32-bit field. */
  lemma Recalc32IsExact(ws: seq<Word>, i: nat, was: nat, now: nat, big: bool)
    requires Holds32(ws, i, was, big) && now < WRAP
    ensures Updated(Recalc32(Checksum(ws), was, now), Put32(ws, i, now, big))
  {
    hide Canon, Sum, SumsTo, Recalc16, Updated;
    ChecksumSums(ws);
    Recalc32Sums(Checksum(ws), ws, i, was, now, big);
    SumsIsUpdated(Recalc32(Checksum(ws), was, now), Put32(ws, i, now, big));
  }

  // ---- Fields of 48 and 128 bits ----

  function PutWords(ws: seq<Word>, i: nat, now: seq<Word>, n: nat): (r: seq<Word>)
    requires n <= |now| && i + |now| <= |ws|
    ensures |r| == |ws| && forall k :: i + n <= k < |ws| ==> r[k] == ws[k]
  {
    if n == 0 then ws else PutWords(ws, i, now, n - 1)[i + n - 1 := now[n - 1]]
  }

  /** recalc_csum48, for a field at word `i` of the data. */
  method Recalc48(c: Word, was: seq<Word>, now: seq<Word>, ghost ws: seq<Word>, ghost i: nat) returns (r: Word)
    requires |was| == |now| == 3 && i + 3 <= |ws| && ws[i..i + 3] == was && c == Checksum(ws)
    ensures Updated(r, PutWords(ws, i, now, 3))
  {
    hide Canon, Sum, SumsTo, Recalc16, Updated, Checksum;
    r := c;
    ChecksumSums(ws);
    for k := 0 to 3
      invariant SumsTo(r, Sum(PutWords(ws, i, now, k))) && (k > 0 ==> r != ONES)
    {
      assert was[k] == ws[i + k] == PutWords(ws, i, now, k)[i + k];
      UpdateWord(r, PutWords(ws, i, now, k), i + k, now[k]);
      r := Update16(r, was[k], now[k]);
    }
    SumsIsUpdated(r, PutWords(ws, i, now, 3));
  }

  function Put128(ws: seq<Word>, i: nat, now: seq<nat>, n: nat, big: bool): (r: seq<Word>)
    requires n <= |now| && i + 2 * |now| <= |ws| && forall k :: 0 <= k < |now| ==> now[k] < WRAP
    ensures |r| == |ws| && forall k :: i + 2 * n <= k < |ws| ==> r[k] == ws[k]
  {
    if n == 0 then ws else Put32(Put128(ws, i, now, n - 1, big), i + 2 * (n - 1), now[n - 1], big)
  }

  /** recalc_csum128, for a field at word `i` of the data. */
  method Recalc128(c: Word, was: seq<nat>, now: seq<nat>, ghost ws: seq<Word>, ghost i: nat, ghost big: bool) returns (r: Word)
    requires |was| == |now| == 4 && i + 8 <= |ws| && c == Checksum(ws)
    requires forall k :: 0 <= k < 4 ==> now[k] < WRAP && Holds32(ws, i + 2 * k, was[k], big)
    ensures Updated(r, Put128(ws, i, now, 4, big))
  {
    hide Canon, Sum, SumsTo, Recalc32, Updated, Checksum, First, Second;
    r := c;
    ChecksumSums(ws);
    for k := 0 to 4
      invariant SumsTo(r, Sum(Put128(ws, i, now, k, big))) && (k > 0 ==> r != ONES)
    {
      assert Holds32(ws, i + 2 * k, was[k], big);
      assert Holds32(Put128(ws, i, now, k, big), i + 2 * k, was[k], big);
      Recalc32Sums(r, Put128(ws, i, now, k, big), i + 2 * k, was[k], now[k], big);
      r := Update32(r, was[k], now[k]);
    }
    SumsIsUpdated(r, Put128(ws, i, now, 4, big));
  }

  // ---- Byte order ----

  function Swap(w: Word): Word { w % 0x100 * 0x100 + w / 0x100 }

  function SwapAll(ws: seq<Word>): (r: seq<Word>)
    ensures |r| == |ws|
  {
    if ws == [] then [] else [Swap(ws[0])] + SwapAll(ws[1..])
  }

  /** Swapping multiplies by 256. */
  lemma SwapCongruent(w: Word)
    ensures Congruent(0x100 * w, Swap(w)) && (Swap(w) == 0 <==> w == 0)
  {
    assert Shifted(0x100 * w, Swap(w), w / 0x100);
  }

  lemma {:induction false} SwapSum(ws: seq<Word>)
    ensures Congruent(0x100 * Sum(ws), Sum(SwapAll(ws))) && (Sum(SwapAll(ws)) == 0 <==> Sum(ws) == 0)
  {
    if ws == [] {
      assert Shifted(0, 0, 0);
    } else {
      SwapSum(ws[1..]);
      SwapCongruent(ws[0]);
      var w: int := ws[0];
      var j: int :| Shifted(0x100 * w, Swap(ws[0]), j);
      var k: int :| Shifted(0x100 * Sum(ws[1..]), Sum(SwapAll(ws[1..])), k);
      assert SwapAll(ws)[1..] == SwapAll(ws[1..]);
      assert Shifted(0x100 * Sum(ws), Sum(SwapAll(ws)), j + k);
    }
  }

  /** The checksum commutes with swapping the bytes of every word, so that it can be
      computed in either byte order. */
  lemma SwapCommutes(ws: seq<Word>)
    ensures Checksum(SwapAll(ws)) == Swap(Checksum(ws))
  {
    hide Sum, SwapAll, Swap, Canon;
    var s, k := Sum(ws), Canon(Sum(ws));
    SwapSum(ws);
    SwapComplement(k);
    SwapCongruent(k);
    if s != 0 {
      SwapOfCanon(s, k, Sum(SwapAll(ws)));
      CanonSmall(Swap(k));
    }
  }

  lemma SwapComplement(w: Word)
    ensures Swap(ONES - w) == ONES - Swap(w)
  {
    var lo, hi := w % 0x100, w / 0x100;
    assert ONES - w == (0xFF - hi) * 0x100 + (0xFF - lo);
  }

  lemma SwapOfCanon(s: nat, k: Word, t: nat)
    requires s > 0 && k == Canon(s) && Congruent(0x100 * s, t) && t > 0
    ensures Canon(t) == Canon(Swap(k))
  {
    CanonCongruent(s);
    SwapCongruent(k);
    var a: int :| Shifted(k, s, a);
    var b: int :| Shifted(0x100 * s, t, b);
    var c: int :| Shifted(0x100 * k, Swap(k), c);
    assert Shifted(Swap(k), t, 0x100 * a + b - c);
    CongruentCanon(Swap(k), t);
  }

  lemma PairSwaps(a: Byte, b: Byte)
    ensures Pair(a, b, true) == Swap(Pair(a, b, false))
  {
  }

  /** Reading bytes in the other order swaps every word. */
  lemma {:induction false} OrderSwaps(data: seq<Byte>)
    ensures Words(data, true) == SwapAll(Words(data, false))
    decreases |data|
  {
    hide Swap, Pair;
    if |data| == 1 {
      PairSwaps(data[0], 0);
    } else if |data| > 1 {
      OrderSwaps(data[2..]);
      PairSwaps(data[0], data[1]);
    }
  }
}
