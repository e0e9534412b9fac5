/** Keys as symbol strings: exact common prefixes and lexicographic order. */
module Keys {
  // A key is a sequence of symbols. The fractional index compares bits, so there a symbol is one bit; the encoded
  // merge compares policy units, so there a symbol is one unit. Every comparison below is the exact pair (common
  // prefix length, order) that `compare_common_bits` returns.


  type Key = seq<nat>

  function Min(a: nat, b: nat): nat {
    if a <= b then a else b
  }

  /** The first position from i on where the keys differ or one of them ends. */
  function AgreeFrom(a: Key, b: Key, i: nat): (c: nat)
    requires i <= |a| && i <= |b|
    ensures i <= c <= |a| && c <= |b|
    decreases |a| - i
  {
    if i == |a| || i == |b| || a[i] != b[i] then i else AgreeFrom(a, b, i + 1)
  }

  function Lcp(a: Key, b: Key): (c: nat)
    ensures c <= |a| && c <= |b|
  {
    AgreeFrom(a, b, 0)
  }

  lemma {:induction false} AgreeFromIs(a: Key, b: Key, i: nat)
    requires i <= |a| && i <= |b|
    ensures var c := AgreeFrom(a, b, i);
            (forall j | i <= j < c :: a[j] == b[j]) && (c < |a| && c < |b| ==> a[c] != b[c])
    decreases |a| - i
  {
    if !(i == |a| || i == |b| || a[i] != b[i]) { AgreeFromIs(a, b, i + 1); }
  }

  /** The common prefix agrees throughout and is maximal. */
  lemma LcpIs(a: Key, b: Key)
    ensures var c := Lcp(a, b);
            (forall j | 0 <= j < c :: a[j] == b[j]) && (c < |a| && c < |b| ==> a[c] != b[c])
  {
    AgreeFromIs(a, b, 0);
  }

  /** The sign of the lexicographic order: a proper prefix precedes its extensions. */
  function Order(a: Key, b: Key): (r: int)
    ensures -1 <= r <= 1
  {
    var c := Lcp(a, b);
    if c == |a| then (if c == |b| then 0 else -1)
    else if c == |b| then 1
    else if a[c] < b[c] then -1 else 1
  }

  predicate Le(a: Key, b: Key) { Order(a, b) <= 0 }

  predicate Lt(a: Key, b: Key) { Order(a, b) < 0 }

  /** Those two clauses determine it. */
  lemma LcpUnique(a: Key, b: Key, c: nat)
    requires c <= |a| && c <= |b|
    requires forall i | 0 <= i < c :: a[i] == b[i]
    requires c < |a| && c < |b| ==> a[c] != b[c]
    ensures Lcp(a, b) == c
  {
    LcpIs(a, b);
  }

  lemma LcpSymmetric(a: Key, b: Key)
    ensures Lcp(a, b) == Lcp(b, a)
    ensures Order(a, b) == -Order(b, a)
  {
    LcpIs(a, b);
    LcpUnique(b, a, Lcp(a, b));
  }

  lemma OrderZero(a: Key, b: Key)
    ensures Order(a, b) == 0 <==> a == b
    ensures a == b ==> Lcp(a, b) == |a|
  {
    LcpIs(a, b);
  }

  /** Along a sorted triple the outer common prefix is the smaller of the two inner ones. */
  lemma LcpOrderedMin(a: Key, b: Key, c: Key)
    requires Le(a, b) && Le(b, c)
    ensures Le(a, c)
    ensures Lcp(a, c) == Min(Lcp(a, b), Lcp(b, c))
    ensures Lt(a, b) || Lt(b, c) ==> Lt(a, c)
  {
    LcpIs(a, b);
    LcpIs(b, c);
    LcpUnique(a, c, Min(Lcp(a, b), Lcp(b, c)));
  }

  lemma OrderTotal(a: Key, b: Key)
    ensures Le(a, b) || Lt(b, a)
    ensures Le(a, b) && Le(b, a) ==> a == b
    ensures Lt(a, b) <==> Le(a, b) && a != b
  {
    LcpSymmetric(a, b);
    OrderZero(a, b);
  }

  /** Two keys at or above p: the one that shares more of p sorts first, and the shorter agreement
      with p is their common prefix. */
  lemma FrontierOrder(p: Key, a: Key, b: Key)
    requires Le(p, a) && Le(p, b)
    requires Lcp(p, a) > Lcp(p, b)
    ensures Lt(a, b) && Lcp(a, b) == Lcp(p, b)
  {
    LcpIs(p, a);
    LcpIs(p, b);
    LcpUnique(a, b, Lcp(p, b));
  }

  /** Keys that agree on their first k symbols are compared by their suffixes alone. */
  lemma SuffixOrder(a: Key, b: Key, k: nat)
    requires k <= |a| && k <= |b| && a[..k] == b[..k]
    ensures Lcp(a, b) == k + Lcp(a[k..], b[k..])
    ensures Order(a, b) == Order(a[k..], b[k..])
  {
    LcpIs(a[k..], b[k..]);
    var c := Lcp(a[k..], b[k..]);
    forall i | 0 <= i < k + c ensures a[i] == b[i] {
      if i < k {
        assert a[i] == a[..k][i] && b[i] == b[..k][i];
      } else {
        assert a[i] == a[k..][i - k] && b[i] == b[k..][i - k];
      }
    }
    LcpUnique(a, b, k + c);
  }

  /** Keys that agree with p for at least k symbols agree with each other that far. */
  lemma SharedPrefix(p: Key, a: Key, b: Key, k: nat)
    requires k <= Lcp(p, a) && k <= Lcp(p, b)
    ensures a[..k] == b[..k] == p[..k] && k <= Lcp(a, b)
  {
    LcpIs(p, a);
    LcpIs(p, b);
    LcpIs(a, b);
  }

  ghost predicate Nondecreasing(s: seq<Key>) {
    forall i, j {:trigger Le(s[i], s[j])} | 0 <= i <= j < |s| :: Le(s[i], s[j])
  }

  ghost predicate Increasing(s: seq<Key>) {
    forall i, j {:trigger Lt(s[i], s[j])} | 0 <= i < j < |s| :: Lt(s[i], s[j])
  }

  lemma IncreasingNondecreasing(s: seq<Key>)
    requires Increasing(s)
    ensures Nondecreasing(s)
  {
    forall i, j | 0 <= i <= j < |s| ensures Le(s[i], s[j]) {
      if i == j { OrderZero(s[i], s[j]); } else { assert Lt(s[i], s[j]); }
    }
  }

  /** Different entries of a strictly increasing sequence have different keys. */
  lemma IncreasingDistinct(s: seq<Key>, i: nat, j: nat)
    requires Increasing(s) && i < j < |s|
    ensures s[i] != s[j]
  {
    assert Lt(s[i], s[j]);
    OrderZero(s[i], s[j]);
  }
}
