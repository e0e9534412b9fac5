/** Words as 64 bits, lowest first, and numbers split into high part and low bits. */
module BitStrings {

  type Word = w: seq<bool> | |w| == 64 witness seq(64, _ => false)

  function ZeroWord(): (w: Word)
    ensures forall k | 0 <= k < 64 :: !w[k]
  {
    seq(64, _ => false)
  }

  // ----- numbers

  function Pow2(n: nat): (p: nat)
    ensures p > 0
  {
    if n == 0 then 1 else 2 * Pow2(n - 1)
  }

  /** v >> n. */
  function Shr(v: nat, n: nat): nat {
    if n == 0 then v else Shr(v / 2, n - 1)
  }

  /** The n low bits of v. */
  function Bits(v: nat, n: nat): (b: seq<bool>)
    ensures |b| == n
  {
    if n == 0 then [] else [v % 2 == 1] + Bits(v / 2, n - 1)
  }

  /** (high << |low|) | low. */
  function Join(high: nat, low: seq<bool>): nat {
    if low == [] then high else (if low[0] then 1 else 0) + 2 * Join(high, low[1..])
  }

  /** A number is its high part and its low bits. */
  lemma {:induction false} SplitJoin(v: nat, n: nat)
    ensures Join(Shr(v, n), Bits(v, n)) == v
  {
    if n > 0 { SplitJoin(v / 2, n - 1); }
  }

  lemma {:induction false} ShrMonotone(u: nat, v: nat, n: nat)
    requires u <= v
    ensures Shr(u, n) <= Shr(v, n)
  {
    if n > 0 { ShrMonotone(u / 2, v / 2, n - 1); }
  }

  lemma {:induction false} ShrSmall(v: nat, n: nat)
    requires v < Pow2(n)
    ensures Shr(v, n) == 0
  {
    if n > 0 { ShrSmall(v / 2, n - 1); }
  }

  /** bit_width(q) - 1. */
  function Log2(q: nat): nat
    requires q > 0
  {
    if q == 1 then 0 else 1 + Log2(q / 2)
  }

  lemma {:induction false} Log2Bound(q: nat, n: nat)
    requires 0 < q < Pow2(n)
    ensures Log2(q) < n
  {
    if q > 1 { Log2Bound(q / 2, n - 1); }
  }

  /** It is the exponent of the greatest power of two that is not above q. */
  lemma {:induction false} Log2Is(q: nat)
    requires q > 0
    ensures Pow2(Log2(q)) <= q < 2 * Pow2(Log2(q))
  {
    if q > 1 { Log2Is(q / 2); }
  }

  /** A shift is a division by a power of two. */
  lemma {:induction false} ShrIs(v: nat, n: nat)
    ensures Shr(v, n) == v / Pow2(n)
  {
    if n > 0 {
      ShrIs(v / 2, n - 1);
      HalfFirst(v, Pow2(n - 1));
    }
  }

  lemma HalfFirst(v: nat, p: nat)
    requires p > 0
    ensures v / 2 / p == v / (2 * p)
  {
    var q, r := v / 2 / p, v / 2 % p;
    assert v == 2 * (q * p + r) + v % 2;
    assert v == q * (2 * p) + (2 * r + v % 2);
    Quotient(v, q, 2 * p, 2 * r + v % 2);
  }

  lemma Quotient(v: nat, q: nat, d: nat, r: nat)
    requires r < d && v == q * d + r
    ensures v / d == q
  {
    var e, s := v / d, v % d;
    assert v == e * d + s;
    assert (q - e) * d == s - r by { assert (q - e) * d == q * d - e * d; }
    NoMultiple(q - e, d);
  }

  lemma NoMultiple(m: int, d: int)
    requires d > 0 && -d < m * d < d
    ensures m == 0
  {
    if m > 0 {
      AtLeastOnce(m, d);
    } else if m < 0 {
      assert -m * d == -(m * d);
      AtLeastOnce(-m, d);
    }
  }

  lemma {:induction false} AtLeastOnce(m: int, d: int)
    requires m > 0 && d > 0
    ensures m * d >= d
    decreases m
  {
    if m > 1 {
      AtLeastOnce(m - 1, d);
      assert m * d == (m - 1) * d + d;
    }
  }

  // ----- words

  function Or(a: Word, b: Word): (r: Word)
    ensures forall k | 0 <= k < 64 :: r[k] == (a[k] || b[k])
  {
    seq(64, k requires 0 <= k < 64 => a[k] || b[k])
  }

  /** The word whose bits are `field` shifted up by s, cut off at 64. */
  function ShiftUp(field: seq<bool>, s: nat): (r: Word)
    ensures forall k | 0 <= k < 64 :: r[k] == (s <= k < s + |field| && field[k - s])
  {
    seq(64, k requires 0 <= k < 64 => s <= k < s + |field| && field[k - s])
  }

  /** The word whose bits are `field` shifted down by s. */
  function ShiftDown(field: seq<bool>, s: nat): (r: Word)
    ensures forall k | 0 <= k < 64 :: r[k] == (k + s < |field| && field[k + s])
  {
    seq(64, k requires 0 <= k < 64 => k + s < |field| && field[k + s])
  }

  /** word & (~0 << from). */
  function MaskFrom(word: Word, from: nat): (r: Word)
    ensures forall k | 0 <= k < 64 :: r[k] == (k >= from && word[k])
  {
    seq(64, k requires 0 <= k < 64 => k >= from && word[k])
  }

  function SetBit(word: Word, k: nat): (r: Word)
    requires k < 64
    ensures r == word[k := true]
  {
    word[k := true]
  }

  /** Words of a section of so many bits. */
  function WordsFor(bits: nat): nat {
    (bits + 63) / 64
  }

  predicate BitAt(words: seq<Word>, p: nat)
    requires p < 64 * |words|
  {
    words[p / 64][p % 64]
  }

  function PopCount(bits: seq<bool>): (c: nat)
    ensures c <= |bits|
  {
    if bits == [] then 0 else PopCount(bits[..|bits| - 1]) + (if bits[|bits| - 1] then 1 else 0)
  }

  /** Bit k is the one with exactly r set bits below it. */
  predicate IsSelect(word: Word, r: nat, k: nat) {
    k < 64 && word[k] && PopCount(word[..k]) == r
  }
}
