/** Bounds over sorted fixed-width keys (fixed_search.h): branchless binary loops, pivot steps and lane bitsets all
    find the number of keys below a query. A key is one, two or four 32-bit words, most significant first. */
module FixedSearch {
  import opened Keys
  import opened BitStrings

  const WORD := 0x1_0000_0000

  predicate IsWidth(W: nat) {
    W == 1 || W == 2 || W == 4
  }

  predicate IsKey(key: Key, W: nat) {
    |key| == W && forall i | 0 <= i < W :: key[i] < WORD
  }

  ghost predicate Window(keys: seq<Key>, W: nat) {
    IsWidth(W) && Nondecreasing(keys) && forall i | 0 <= i < |keys| :: IsKey(keys[i], W)
  }

  /** Below the query, or at most the query for an upper bound. */
  predicate Below(key: Key, query: Key, upper: bool) {
    if upper then Le(key, query) else Lt(key, query)
  }

  /** The simple form: r keys lie below, and they are the first r. */
  predicate IsBound(keys: seq<Key>, query: Key, upper: bool, r: nat) {
    && r <= |keys|
    && (forall i | 0 <= i < r :: Below(keys[i], query, upper))
    && (forall i | r <= i < |keys| :: !Below(keys[i], query, upper))
  }

  lemma BoundAt(keys: seq<Key>, query: Key, upper: bool, r: nat, i: nat)
    requires IsBound(keys, query, upper, r) && i < |keys|
    ensures Below(keys[i], query, upper) <==> i < r
  {
  }

  /** All searches that meet this contract agree. */
  lemma BoundUnique(keys: seq<Key>, query: Key, upper: bool, r: nat, s: nat)
    requires IsBound(keys, query, upper, r) && IsBound(keys, query, upper, s)
    ensures r == s
  {
    var i := Min(r, s);
    if i < |keys| {
      BoundAt(keys, query, upper, r, i);
      BoundAt(keys, query, upper, s, i);
    }
  }

  /** In a sorted window what is below stays below downwards. */
  lemma BelowDown(keys: seq<Key>, W: nat, query: Key, upper: bool, i: nat, j: nat)
    requires Window(keys, W) && i <= j < |keys| && Below(keys[j], query, upper)
    ensures Below(keys[i], query, upper)
  {
    assert Le(keys[i], keys[j]);
    OrderTotal(keys[j], query);
    LcpOrderedMin(keys[i], keys[j], query);
  }

  // ----- one comparison

  predicate EqualTo(key: Key, query: Key, w: nat)
    requires w <= |key| && w <= |query|
  {
    w == 0 || (EqualTo(key, query, w - 1) && key[w - 1] == query[w - 1])
  }

  predicate LessTo(key: Key, query: Key, w: nat)
    requires w <= |key| && w <= |query|
  {
    w > 0 && (LessTo(key, query, w - 1) || (EqualTo(key, query, w - 1) && key[w - 1] < query[w - 1]))
  }

  lemma {:induction false} EqualToIs(key: Key, query: Key, w: nat)
    requires w <= |key| && w <= |query|
    ensures EqualTo(key, query, w) <==> w <= Lcp(key, query)
  {
    LcpIs(key, query);
    if w > 0 { EqualToIs(key, query, w - 1); }
  }

  lemma {:induction false} LessToIs(key: Key, query: Key, w: nat)
    requires w <= |key| == |query|
    ensures LessTo(key, query, w) <==> Lcp(key, query) < w && Order(key, query) < 0
  {
    LcpIs(key, query);
    if w > 0 {
      LessToIs(key, query, w - 1);
      EqualToIs(key, query, w - 1);
    }
  }

  /** The word-by-word flags are the lexicographic order. */
  lemma FlagsAreOrder(key: Key, query: Key)
    requires |key| == |query|
    ensures LessTo(key, query, |key|) <==> Lt(key, query)
    ensures LessTo(key, query, |key|) || EqualTo(key, query, |key|) <==> Le(key, query)
  {
    LessToIs(key, query, |key|);
    EqualToIs(key, query, |key|);
  }

  /** `precedes`, without a branch. */
  method Precedes(key: Key, query: Key, upper: bool) returns (below: bool)
    requires |key| == |query|
    ensures below == Below(key, query, upper)
  {
    var less, equal := false, true;
    for i := 0 to |key|
      invariant less == LessTo(key, query, i) && equal == EqualTo(key, query, i)
    {
      less := less || (equal && key[i] < query[i]);
      equal := equal && key[i] == query[i];
    }
    FlagsAreOrder(key, query);
    below := if upper then less || equal else less;
  }

  // ----- the weighted four-word comparison

  /** A vector mask lane: all ones or zero. */
  function Mask(b: bool): nat {
    if b then WORD - 1 else 0
  }

  function Sub32(a: nat, b: nat): (r: nat)
    requires a < WORD && b < WORD
    ensures r < WORD
  {
    if a >= b then a - b else a + WORD - b
  }

  function Mul32(a: nat, w: nat): (r: nat)
    requires a < WORD
    ensures r < WORD
  {
    (a * w) % WORD
  }

  /** The 32-bit word read as a signed number. */
  function Signed(x: nat): int
    requires x < WORD
  {
    if x < WORD / 2 then x else x - WORD
  }

  /** One lane: the word order as 0, 1 or 2^32 - 1. */
  function LaneOrder(value: nat, query: nat): (r: nat)
    ensures r < WORD
  {
    Sub32(Mask(value > query), Mask(value < query))
  }

  function Sign(value: nat, query: nat): int {
    if value < query then 1 else if value > query then -1 else 0
  }

  lemma LaneIsSign(value: nat, query: nat, w: nat)
    requires w == 1 || w == 2 || w == 4 || w == 8
    ensures Mul32(LaneOrder(value, query), w) == if Sign(value, query) < 0 then WORD - w else Sign(value, query) * w
  {
  }

  /** The sum of the weighted lanes modulo 2^32, as a signed number. */
  function Weighted(key: Key, query: Key): int
    requires |key| == |query| == 4
  {
    Signed((Mul32(LaneOrder(key[0], query[0]), 8) + Mul32(LaneOrder(key[1], query[1]), 4)
            + Mul32(LaneOrder(key[2], query[2]), 2) + Mul32(LaneOrder(key[3], query[3]), 1)) % WORD)
  }

  /** A more significant unequal word outweighs all that follow: the weighted sum has the sign of the order. */
  lemma WeightedSign(key: Key, query: Key)
    requires |key| == |query| == 4
    ensures Weighted(key, query) > 0 <==> Lt(key, query)
    ensures Weighted(key, query) >= 0 <==> Le(key, query)
    ensures -15 <= Weighted(key, query) <= 15
  {
    FlagsAreOrder(key, query);
    FourWords(key, query);
    hide Mul32, LaneOrder, LessTo, EqualTo, Order;
    WeightedIs(key, query);
  }

  /** The sum modulo 2^32 read as a signed number is the plain sum. */
  lemma WeightedIs(key: Key, query: Key)
    requires |key| == |query| == 4
    ensures Weighted(key, query) == 8 * Sign(key[0], query[0]) + 4 * Sign(key[1], query[1])
                                    + 2 * Sign(key[2], query[2]) + Sign(key[3], query[3])
  {
    LaneIsSign(key[0], query[0], 8);
    LaneIsSign(key[1], query[1], 4);
    LaneIsSign(key[2], query[2], 2);
    LaneIsSign(key[3], query[3], 1);
  }

  lemma FourWords(key: Key, query: Key)
    requires |key| == |query| == 4
    ensures LessTo(key, query, 4) <==>
              key[0] < query[0] || (key[0] == query[0] && (key[1] < query[1] || (key[1] == query[1]
              && (key[2] < query[2] || (key[2] == query[2] && key[3] < query[3])))))
    ensures EqualTo(key, query, 4) <==>
              key[0] == query[0] && key[1] == query[1] && key[2] == query[2] && key[3] == query[3]
  {
    assert EqualTo(key, query, 0) && !LessTo(key, query, 0);
    assert EqualTo(key, query, 1) == (EqualTo(key, query, 0) && key[0] == query[0]);
    assert LessTo(key, query, 1) == (LessTo(key, query, 0) || (EqualTo(key, query, 0) && key[0] < query[0]));
    assert EqualTo(key, query, 2) == (EqualTo(key, query, 1) && key[1] == query[1]);
    assert EqualTo(key, query, 3) == (EqualTo(key, query, 2) && key[2] == query[2]);
    assert LessTo(key, query, 2) == (LessTo(key, query, 1) || (EqualTo(key, query, 1) && key[1] < query[1]));
    assert LessTo(key, query, 3) == (LessTo(key, query, 2) || (EqualTo(key, query, 2) && key[2] < query[2]));
  }

  /** `precedes_four`. */
  method PrecedesFour(key: Key, query: Key, upper: bool) returns (below: bool)
    requires |key| == |query| == 4
    ensures below == Below(key, query, upper)
  {
    WeightedSign(key, query);
    below := if upper then Weighted(key, query) >= 0 else Weighted(key, query) > 0;
  }

  // ----- binary bounds

  /** `std::bit_floor`. */
  function BitFloor(n: nat): (p: nat)
    ensures n > 0 ==> p == Pow2(Log2(n)) && p <= n < 2 * p
    ensures n == 0 ==> p == 0
  {
    if n == 0 then 0 else if n == 1 then 1 else 2 * BitFloor(n / 2)
  }

  /** Everything before `first` is below, everything from `end` on is not. */
  predicate Between(keys: seq<Key>, query: Key, upper: bool, first: nat, end: int) {
    && first <= |keys|
    && (forall i | 0 <= i < first :: Below(keys[i], query, upper))
    && (forall i | 0 <= i < |keys| && end <= i :: !Below(keys[i], query, upper))
  }

  lemma RaiseFirst(keys: seq<Key>, W: nat, query: Key, upper: bool, first: nat, end: int, probe: nat)
    requires Window(keys, W) && Between(keys, query, upper, first, end) && probe < |keys|
    requires Below(keys[probe], query, upper)
    ensures first <= probe ==> Between(keys, query, upper, probe + 1, end)
  {
    forall i | 0 <= i <= probe ensures Below(keys[i], query, upper) { BelowDown(keys, W, query, upper, i, probe); }
  }

  lemma LowerEnd(keys: seq<Key>, W: nat, query: Key, upper: bool, first: nat, end: int, probe: nat)
    requires Window(keys, W) && Between(keys, query, upper, first, end) && probe < |keys|
    requires !Below(keys[probe], query, upper)
    ensures Between(keys, query, upper, first, probe)
  {
    forall i | 0 <= i < |keys| && probe <= i ensures !Below(keys[i], query, upper) {
      if Below(keys[i], query, upper) { BelowDown(keys, W, query, upper, probe, i); }
    }
  }

  predicate PowerStep(step: nat, left: nat) {
    step == if left == 0 then 0 else Pow2(left - 1)
  }

  /** `binary_bound`: exactly log2(n + 1) probes in a complete window, floor(log2 n) + 1 in any other. */
  method BinaryBound(keys: seq<Key>, W: nat, query: Key, upper: bool) returns (first: nat, probes: nat)
    requires Window(keys, W) && IsKey(query, W)
    ensures IsBound(keys, query, upper, first)
    ensures probes == if keys == [] then 0 else Log2(|keys|) + 1
    ensures forall m: nat :: |keys| + 1 == Pow2(m) ==> probes == m
  {
    var count := |keys|;
    var step := BitFloor(count);
    forall m: nat | count + 1 == Pow2(m) ensures m == if count == 0 then 0 else Log2(count) + 1 { CompleteLog(count, m); }
    if BitFloor(count + 1) == count + 1 {
      CompleteStep(count);
      first, probes := CompleteLoop(keys, W, query, upper, step);
    } else {
      first, probes := ClampedLoop(keys, W, query, upper, step);
    }
  }

  lemma {:induction false} CompleteLog(n: nat, m: nat)
    requires n + 1 == Pow2(m)
    ensures m == if n == 0 then 0 else Log2(n) + 1
    decreases m
  {
    if m > 1 { CompleteLog(n / 2, m - 1); }
  }

  lemma {:induction false} CompleteStep(n: nat)
    requires BitFloor(n + 1) == n + 1
    ensures n > 0 ==> n == 2 * BitFloor(n) - 1
  {
    if n > 1 {
      CompleteStep(n / 2);
    }
  }

  method CompleteLoop(keys: seq<Key>, W: nat, query: Key, upper: bool, start: nat) returns (first: nat, probes: nat)
    requires Window(keys, W) && IsKey(query, W)
    requires if keys == [] then start == 0 else start == Pow2(Log2(|keys|)) && |keys| == 2 * start - 1
    ensures IsBound(keys, query, upper, first) && probes == if keys == [] then 0 else Log2(|keys|) + 1
  {
    var step := start;
    first, probes := 0, 0;
    ghost var left: nat := if keys == [] then 0 else Log2(|keys|) + 1;
    while step != 0
      invariant PowerStep(step, left) && probes + left == if keys == [] then 0 else Log2(|keys|) + 1
      invariant Between(keys, query, upper, first, first + 2 * step - 1 + (if step == 0 then 1 else 0))
      invariant step > 0 ==> first + 2 * step - 1 <= |keys|
      decreases left
    {
      var below := Precedes(keys[first + step - 1], query, upper);
      if below {
        RaiseFirst(keys, W, query, upper, first, first + 2 * step - 1, first + step - 1);
        first := first + step;
      } else {
        LowerEnd(keys, W, query, upper, first, first + 2 * step - 1, first + step - 1);
      }
      probes := probes + 1;
      left := left - 1;
      step := step / 2;
    }
  }

  method ClampedLoop(keys: seq<Key>, W: nat, query: Key, upper: bool, start: nat) returns (first: nat, probes: nat)
    requires Window(keys, W) && IsKey(query, W)
    requires if keys == [] then start == 0 else start == Pow2(Log2(|keys|)) && |keys| < 2 * start
    ensures IsBound(keys, query, upper, first) && probes == if keys == [] then 0 else Log2(|keys|) + 1
  {
    var step, count := start, |keys|;
    first, probes := 0, 0;
    ghost var left: nat := if keys == [] then 0 else Log2(|keys|) + 1;
    while step != 0
      invariant PowerStep(step, left) && probes + left == if keys == [] then 0 else Log2(|keys|) + 1
      invariant Between(keys, query, upper, first, first + 2 * step - 1 + (if step == 0 then 1 else 0))
      invariant step > 0 ==> count > 0
      decreases left
    {
      var next := first + step;
      var probe := Min(next, count) - 1;
      var below := Precedes(keys[probe], query, upper);
      if next <= count && below {
        RaiseFirst(keys, W, query, upper, first, first + 2 * step - 1, probe);
        first := next;
      } else if next <= count {
        LowerEnd(keys, W, query, upper, first, first + 2 * step - 1, probe);
      }
      probes := probes + 1;
      left := left - 1;
      step := step / 2;
    }
  }

  // ----- populations

  /** `population`, one key at a time: counting the keys below is finding the bound of a sorted window. */
  method PopulationByKey(keys: seq<Key>, W: nat, query: Key, upper: bool, weighted: bool) returns (result: nat)
    requires Window(keys, W) && IsKey(query, W) && (weighted ==> W == 4)
    ensures IsBound(keys, query, upper, result)
  {
    result := 0;
    for i := 0 to |keys|
      invariant result <= i && IsBound(keys[..i], query, upper, result)
    {
      var below;
      if weighted { below := PrecedesFour(keys[i], query, upper); } else { below := Precedes(keys[i], query, upper); }
      CountNext(keys, W, query, upper, i, result);
      if below { result := result + 1; }
    }
    assert keys[..|keys|] == keys;
  }

  lemma CountNext(keys: seq<Key>, W: nat, query: Key, upper: bool, i: nat, r: nat)
    requires Window(keys, W) && i < |keys| && IsBound(keys[..i], query, upper, r)
    ensures IsBound(keys[..i + 1], query, upper, if Below(keys[i], query, upper) then r + 1 else r)
    ensures Below(keys[i], query, upper) ==> r == i
  {
    if Below(keys[i], query, upper) && r < i {
      BelowDown(keys, W, query, upper, r, i);
      BoundAt(keys[..i], query, upper, r, r);
    }
  }

  // ----- lane bitsets

  lemma {:induction false} BoundExists(keys: seq<Key>, W: nat, query: Key, upper: bool, n: nat) returns (r: nat)
    requires Window(keys, W) && n <= |keys|
    ensures IsBound(keys[..n], query, upper, r)
  {
    if n == 0 { return 0; }
    r := BoundExists(keys, W, query, upper, n - 1);
    CountNext(keys, W, query, upper, n - 1, r);
    if Below(keys[n - 1], query, upper) { r := r + 1; }
  }

  /** An `unsigned` used as 32 lane bits. */
  type Lanes = b: seq<bool> | |b| == 32 witness seq(32, _ => false)

  function NoLanes(): (b: Lanes)
    ensures forall p | 0 <= p < 32 :: !b[p]
  {
    seq(32, _ => false)
  }

  /** Word p of the packed keys; the last load pads with zeros. */
  function SourceWord(keys: seq<Key>, W: nat, p: nat): nat
    requires IsWidth(W) && forall i | 0 <= i < |keys| :: |keys[i]| == W
  {
    if p < |keys| * W then keys[p / W][p % W] else 0
  }

  function QueryWord(query: Key, W: nat, p: nat): nat
    requires IsWidth(W) && |query| == W
  {
    query[p % W]
  }

  /** Lane p compares word p of the keys with its word of the query. */
  ghost predicate LanesCompare(less: Lanes, equal: Lanes, keys: seq<Key>, W: nat, query: Key, loaded: nat)
    requires IsWidth(W) && |query| == W && forall i | 0 <= i < |keys| :: |keys[i]| == W
  {
    forall p {:trigger less[p]} {:trigger equal[p]} | 0 <= p < loaded && p < 32 ::
      && less[p] == (SourceWord(keys, W, p) < QueryWord(query, W, p))
      && equal[p] == (SourceWord(keys, W, p) == QueryWord(query, W, p))
  }

  /** One register of the source. */
  method LoadRegister(less: Lanes, equal: Lanes, keys: seq<Key>, W: nat, query: Key, from: nat, lanes: nat)
    returns (nextLess: Lanes, nextEqual: Lanes)
    requires Window(keys, W) && IsKey(query, W) && from + lanes <= 32
    requires LanesCompare(less, equal, keys, W, query, from)
    ensures LanesCompare(nextLess, nextEqual, keys, W, query, from + lanes)
  {
    hide Nondecreasing, SourceWord, QueryWord;
    nextLess, nextEqual := less, equal;
    for lane := 0 to lanes
      invariant LanesCompare(nextLess, nextEqual, keys, W, query, from + lane)
    {
      var p := from + lane;
      var value, other := SourceWord(keys, W, p), QueryWord(query, W, p);
      nextLess, nextEqual := nextLess[p := value < other], nextEqual[p := value == other];
    }
  }

  /** The loads stop at the last register that holds a key. */
  method LoadLanes(keys: seq<Key>, W: nat, query: Key, lanes: nat) returns (less: Lanes, equal: Lanes, loaded: nat)
    requires Window(keys, W) && IsKey(query, W) && |keys| <= 4 && (lanes == 4 || lanes == 8 || lanes == 16)
    ensures |keys| * W <= loaded <= 32 && LanesCompare(less, equal, keys, W, query, loaded)
  {
    hide Nondecreasing, SourceWord, QueryWord;
    less, equal, loaded := NoLanes(), NoLanes(), 0;
    KeysFit(|keys|, W);
    while loaded < 4 * W && loaded < |keys| * W
      invariant loaded <= 32 && LanesCompare(less, equal, keys, W, query, loaded) && loaded % lanes == 0
      decreases 32 - loaded
    {
      hide LanesCompare;
      RegisterFits(loaded, lanes, W);
      less, equal := LoadRegister(less, equal, keys, W, query, loaded, lanes);
      loaded := loaded + lanes;
    }
  }

  lemma KeysFit(count: nat, W: nat)
    requires IsWidth(W) && count <= 4
    ensures count * W <= 4 * W <= 16
  {
  }

  lemma RegisterFits(loaded: nat, lanes: nat, W: nat)
    requires IsWidth(W) && loaded < 4 * W && (lanes == 4 || lanes == 8 || lanes == 16) && loaded % lanes == 0
    ensures loaded + lanes <= 32 && (loaded + lanes) % lanes == 0
  {
    if lanes == 4 {} else if lanes == 8 {} else {}
  }

  /** A lane that starts one of the first `count` keys: the masks 0xffff, 0x5555 and 0x1111. */
  predicate StartsKey(W: nat, count: nat, p: nat)
    requires IsWidth(W)
  {
    p % W == 0 && p < 16 && p < count * W
  }

  lemma LaneOfWord(W: nat, count: nat, p: nat, word: nat)
    requires IsWidth(W) && StartsKey(W, count, p) && word < W
    ensures p + word < count * W && (p + word) / W == p / W < count && (p + word) % W == word
  {
    if W == 1 {} else if W == 2 {} else {}
  }

  ghost predicate LanesHold(matches: Lanes, result: Lanes, keys: seq<Key>, W: nat, query: Key, word: nat)
    requires IsWidth(W) && |query| == W && word <= W && forall i | 0 <= i < |keys| :: |keys[i]| == W
  {
    forall p {:trigger matches[p]} {:trigger result[p]} | 0 <= p < 32 ::
      if StartsKey(W, |keys|, p) then
        p / W < |keys| && matches[p] == EqualTo(keys[p / W], query, word) && result[p] == LessTo(keys[p / W], query, word)
      else !matches[p] && !result[p]
  }

  /** Following word of every key at once: shift its lane under the start lane. */
  lemma NextWord(less: Lanes, equal: Lanes, loaded: nat, matches: Lanes, result: Lanes, keys: seq<Key>, W: nat,
                 query: Key, word: nat)
    requires Window(keys, W) && IsKey(query, W) && |keys| <= 4 && word < W && |keys| * W <= loaded <= 32
    requires LanesCompare(less, equal, keys, W, query, loaded) && LanesHold(matches, result, keys, W, query, word)
    ensures LanesHold(AndShifted(matches, equal, word), OrAndShifted(result, matches, less, word), keys, W, query, word + 1)
  {
    forall p | 0 <= p < 32 && StartsKey(W, |keys|, p)
      ensures p / W < |keys|
      ensures AndShifted(matches, equal, word)[p] == EqualTo(keys[p / W], query, word + 1)
      ensures OrAndShifted(result, matches, less, word)[p] == LessTo(keys[p / W], query, word + 1)
    {
      LaneOfWord(W, |keys|, p, word);
      WordOf(keys, W, query, p, word);
      assert less[p + word] == (SourceWord(keys, W, p + word) < QueryWord(query, W, p + word));
    }
  }

  lemma WordOf(keys: seq<Key>, W: nat, query: Key, p: nat, word: nat)
    requires Window(keys, W) && IsKey(query, W) && word < W && StartsKey(W, |keys|, p)
    ensures p / W < |keys| && SourceWord(keys, W, p + word) == keys[p / W][word]
    ensures QueryWord(query, W, p + word) == query[word]
  {
    LaneOfWord(W, |keys|, p, word);
  }

  /** a & (b >> word). */
  function AndShifted(a: Lanes, b: Lanes, word: nat): (r: Lanes)
    ensures forall p | 0 <= p < 32 :: r[p] == (a[p] && p + word < 32 && b[p + word])
  {
    seq(32, p requires 0 <= p < 32 => a[p] && p + word < 32 && b[p + word])
  }

  /** r | (a & (b >> word)). */
  function OrAndShifted(r: Lanes, a: Lanes, b: Lanes, word: nat): (out: Lanes)
    ensures forall p | 0 <= p < 32 :: out[p] == (r[p] || AndShifted(a, b, word)[p])
  {
    seq(32, p requires 0 <= p < 32 => r[p] || AndShifted(a, b, word)[p])
  }

  function OrLanes(a: Lanes, b: Lanes): (r: Lanes)
    ensures forall p | 0 <= p < 32 :: r[p] == (a[p] || b[p])
  {
    seq(32, p requires 0 <= p < 32 => a[p] || b[p])
  }

  /** Fold the words of all keys at once, most significant first. */
  method FoldWords(less: Lanes, equal: Lanes, keys: seq<Key>, W: nat, query: Key, ghost loaded: nat)
    returns (matches: Lanes, result: Lanes)
    requires Window(keys, W) && IsKey(query, W) && |keys| <= 4 && |keys| * W <= loaded <= 32
    requires LanesCompare(less, equal, keys, W, query, loaded)
    ensures LanesHold(matches, result, keys, W, query, W)
  {
    matches := StartMask(|keys|, W);
    result := NoLanes();
    StartLanes(matches, result, keys, W, query);
    hide LanesCompare, Nondecreasing, LanesHold, StartsKey;
    for word := 0 to W
      invariant LanesHold(matches, result, keys, W, query, word)
    {
      NextWord(less, equal, loaded, matches, result, keys, W, query, word);
      result, matches := OrAndShifted(result, matches, less, word), AndShifted(matches, equal, word);
    }
  }

  function StartMask(count: nat, W: nat): (mask: Lanes)
    requires IsWidth(W)
    ensures forall p | 0 <= p < 32 :: mask[p] == StartsKey(W, count, p)
  {
    seq(32, p requires 0 <= p < 32 => StartsKey(W, count, p))
  }

  /** `population`, bitset form: every lane compared first, then the words of all keys folded at once. */
  method PopulationLanes(keys: seq<Key>, W: nat, query: Key, upper: bool, lanes: nat) returns (count: nat)
    requires Window(keys, W) && IsKey(query, W) && |keys| <= 4 && (lanes == 4 || lanes == 8 || lanes == 16)
    ensures IsBound(keys, query, upper, count)
  {
    var less, equal, loaded := LoadLanes(keys, W, query, lanes);
    var matches, result := FoldWords(less, equal, keys, W, query, loaded);
    var below := if upper then OrLanes(result, matches) else result;
    hide LanesCompare, Window, IsBound, LanesHold;
    ghost var r := BoundExists(keys, W, query, upper, |keys|);
    assert keys[..|keys|] == keys;
    LanesBelow(matches, result, keys, W, query, upper, r, below);
    CountAll(below, W, r);
    count := PopCount(below);
    BoundSize(keys, query, upper, r);
  }

  lemma CountAll(below: Lanes, W: nat, r: nat)
    requires IsWidth(W) && r <= 4 && forall p | 0 <= p < 32 :: below[p] <==> p % W == 0 && p < r * W
    ensures PopCount(below) == r
  {
    CountStarts(below, W, r, 32);
    assert below[..32] == below;
  }

  lemma StartLanes(matches: Lanes, result: Lanes, keys: seq<Key>, W: nat, query: Key)
    requires Window(keys, W) && IsKey(query, W)
    requires forall p | 0 <= p < 32 :: matches[p] == StartsKey(W, |keys|, p) && !result[p]
    ensures LanesHold(matches, result, keys, W, query, 0)
  {
    forall p | 0 <= p < 32 && StartsKey(W, |keys|, p) ensures p / W < |keys| { LaneOfWord(W, |keys|, p, 0); }
  }

  /** What is left: a one at the start lane of every key below. */
  lemma LanesBelow(matches: Lanes, result: Lanes, keys: seq<Key>, W: nat, query: Key, upper: bool, r: nat, below: Lanes)
    requires Window(keys, W) && IsKey(query, W) && |keys| <= 4 && IsBound(keys, query, upper, r)
    requires LanesHold(matches, result, keys, W, query, W)
    requires forall p | 0 <= p < 32 :: below[p] == (result[p] || (upper && matches[p]))
    ensures r <= 4 && forall p | 0 <= p < 32 :: below[p] <==> p % W == 0 && p < r * W
  {
    forall p | 0 <= p < 32 ensures below[p] <==> p % W == 0 && p < r * W {
      assert result[p] == result[p];
      if StartsKey(W, |keys|, p) {
        LaneOfWord(W, |keys|, p, 0);
        FlagsAreOrder(keys[p / W], query);
        BoundAt(keys, query, upper, r, p / W);
        if W == 1 {} else if W == 2 {} else {}
      } else {
        if W == 1 {} else if W == 2 {} else {}
      }
    }
  }

  lemma {:induction false} CountStarts(below: Lanes, W: nat, r: nat, n: nat)
    requires IsWidth(W) && r <= 4 && n <= 32 && forall p | 0 <= p < 32 :: below[p] <==> p % W == 0 && p < r * W
    ensures PopCount(below[..n]) == Min((n + W - 1) / W, r)
  {
    if n > 0 {
      CountStarts(below, W, r, n - 1);
      assert below[..n][..n - 1] == below[..n - 1] && below[..n][n - 1] == below[n - 1];
      StartsStep(W, r, n);
    }
  }

  lemma StartsStep(W: nat, r: nat, n: nat)
    requires IsWidth(W) && r <= 4 && 0 < n <= 32
    ensures Min((n + W - 1) / W, r) == Min((n + W - 2) / W, r) + (if (n - 1) % W == 0 && n - 1 < r * W then 1 else 0)
  {
    if W == 1 {} else if W == 2 {} else {}
  }

  /** How a build counts keys: by key, by key with the weighted comparison, or in lane bitsets of one register width. */
  datatype Kernel = ByKey | ByWeightedKey | InLanes(lanes: nat)

  predicate KernelFits(kernel: Kernel, W: nat) {
    match kernel
    case ByKey => true
    case ByWeightedKey => W == 4
    case InLanes(lanes) => lanes == 4 || lanes == 8 || lanes == 16
  }

  method Population(keys: seq<Key>, W: nat, query: Key, upper: bool, kernel: Kernel) returns (result: nat)
    requires Window(keys, W) && IsKey(query, W) && |keys| <= 4 && KernelFits(kernel, W)
    ensures IsBound(keys, query, upper, result)
  {
    if kernel.InLanes? {
      result := PopulationLanes(keys, W, query, upper, kernel.lanes);
    } else {
      result := PopulationByKey(keys, W, query, upper, kernel.ByWeightedKey?);
    }
  }

  // ----- pivot steps

  /** A subwindow that still holds the bound. */
  ghost predicate Bracketed(keys: seq<Key>, query: Key, upper: bool, first: nat, count: nat) {
    first + count <= |keys| && Between(keys, query, upper, first, first + count)
  }

  /** `pivot_step`: three distinct pivots leave one quarter. */
  method PivotStep(keys: seq<Key>, W: nat, query: Key, upper: bool, first: nat, count: nat, kernel: Kernel)
    returns (nextFirst: nat, nextCount: nat)
    requires Window(keys, W) && IsKey(query, W) && KernelFits(kernel, W) && count >= 3 && Bracketed(keys, query, upper, first, count)
    ensures Bracketed(keys, query, upper, nextFirst, nextCount) && nextCount <= (count + 3) / 4
    ensures count >= 16 ==> nextCount >= count / 4 - 1
  {
    hide Bracketed, Between, IsBound, Window, IsKey;
    Extent(keys, query, upper, first, count);
    var positions := [count / 4, count / 2, 3 * count / 4];
    var pivots := [keys[first + positions[0]], keys[first + positions[1]], keys[first + positions[2]]];
    SortedPick(keys, W, first + positions[0], first + positions[1], first + positions[2]);
    var rank := Population(pivots, W, query, upper, kernel);
    BoundSize(pivots, query, upper, rank);
    PivotSpan(rank, count);
    var start: nat := rank * count / 4 + (if rank != 0 then 1 else 0);
    var end: nat := (rank + 1) * count / 4;
    PivotRange(keys, W, query, upper, first, count, pivots, rank);
    nextFirst, nextCount := first + start, end - start;
  }

  lemma SortedPick(keys: seq<Key>, W: nat, a: nat, b: nat, c: nat)
    requires Window(keys, W) && a <= b <= c < |keys|
    ensures Window([keys[a], keys[b], keys[c]], W)
  {
    var picked := [keys[a], keys[b], keys[c]];
    forall i, j | 0 <= i <= j < 3 ensures Le(picked[i], picked[j]) {
      var at := [a, b, c];
      assert Le(keys[at[i]], keys[at[j]]);
    }
  }

  function PivotAt(count: nat, i: nat): nat {
    if i == 0 then count / 4 else if i == 1 then count / 2 else 3 * count / 4
  }

  lemma PivotBelow(keys: seq<Key>, W: nat, query: Key, upper: bool, first: nat, count: nat, pivots: seq<Key>, rank: nat)
    requires Window(keys, W) && count >= 3 && Bracketed(keys, query, upper, first, count)
    requires |pivots| == 3 && forall i | 0 <= i < 3 :: pivots[i] == keys[first + PivotAt(count, i)]
    requires IsBound(pivots, query, upper, rank) && 1 <= rank <= 3
    ensures Between(keys, query, upper, first + PivotAt(count, rank - 1) + 1, first + count)
  {
    BoundAt(pivots, query, upper, rank, rank - 1);
    RaiseFirst(keys, W, query, upper, first, first + count, first + PivotAt(count, rank - 1));
  }

  lemma PivotAbove(keys: seq<Key>, W: nat, query: Key, upper: bool, first: nat, count: nat, pivots: seq<Key>, rank: nat)
    requires Window(keys, W) && count >= 3 && Bracketed(keys, query, upper, first, count)
    requires |pivots| == 3 && forall i | 0 <= i < 3 :: pivots[i] == keys[first + PivotAt(count, i)]
    requires IsBound(pivots, query, upper, rank) && rank <= 2
    ensures Between(keys, query, upper, first, first + PivotAt(count, rank))
  {
    BoundAt(pivots, query, upper, rank, rank);
    LowerEnd(keys, W, query, upper, first, first + count, first + PivotAt(count, rank));
  }

  lemma Extent(keys: seq<Key>, query: Key, upper: bool, first: nat, count: nat)
    requires Bracketed(keys, query, upper, first, count)
    ensures first + count <= |keys|
  {
  }

  lemma BoundSize(keys: seq<Key>, query: Key, upper: bool, r: nat)
    requires IsBound(keys, query, upper, r)
    ensures r <= |keys|
  {
  }

  /** The rank picks the quarter: past the last pivot below, up to the first that is not. */
  lemma PivotSpan(rank: nat, count: nat)
    requires rank <= 3 <= count
    ensures rank * count / 4 == if rank == 0 then 0 else PivotAt(count, rank - 1)
    ensures (rank + 1) * count / 4 == if rank == 3 then count else PivotAt(count, rank)
  {
    if rank == 0 {} else if rank == 1 {} else if rank == 2 {} else {}
  }

  lemma PivotRange(keys: seq<Key>, W: nat, query: Key, upper: bool, first: nat, count: nat, pivots: seq<Key>, rank: nat)
    requires Window(keys, W) && count >= 3 && Bracketed(keys, query, upper, first, count)
    requires |pivots| == 3 && forall i | 0 <= i < 3 :: pivots[i] == keys[first + PivotAt(count, i)]
    requires IsBound(pivots, query, upper, rank)
    ensures rank <= 3
    ensures var start := if rank == 0 then 0 else PivotAt(count, rank - 1) + 1;
            var end := if rank == 3 then count else PivotAt(count, rank);
            start <= end && Bracketed(keys, query, upper, first + start, end - start)
  {
    if rank >= 1 { PivotBelow(keys, W, query, upper, first, count, pivots, rank); }
    if rank <= 2 { PivotAbove(keys, W, query, upper, first, count, pivots, rank); }
  }

  /** `small_bound`: no, one or two pivot steps, then at most four keys counted. */
  method SmallBound(keys: seq<Key>, W: nat, query: Key, upper: bool, bucket: nat, kernel: Kernel) returns (bound: nat)
    requires Window(keys, W) && IsKey(query, W) && KernelFits(kernel, W)
    requires |keys| <= bucket <= 32 && (bucket > 4 ==> |keys| >= 5) && (bucket > 16 ==> |keys| >= 17)
    requires bucket <= 4 || bucket == 8 || bucket == 16 || bucket == 32
    ensures IsBound(keys, query, upper, bound)
  {
    var first, count := 0, |keys|;
    if bucket > 4 { first, count := PivotStep(keys, W, query, upper, first, count, kernel); }
    if bucket > 16 { first, count := PivotStep(keys, W, query, upper, first, count, kernel); }
    assert count <= 4;
    if count == 0 { return first; }
    WindowPart(keys, W, first, first + count);
    var inside := Population(keys[first..first + count], W, query, upper, kernel);
    bound := first + inside;
    Within(keys, query, upper, first, count, inside);
  }

  lemma WindowPart(keys: seq<Key>, W: nat, first: nat, last: nat)
    requires Window(keys, W) && first <= last <= |keys|
    ensures Window(keys[first..last], W)
  {
    var part := keys[first..last];
    forall i, j | 0 <= i <= j < |part| ensures Le(part[i], part[j]) { assert Le(keys[first + i], keys[first + j]); }
  }

  lemma Within(keys: seq<Key>, query: Key, upper: bool, first: nat, count: nat, inside: nat)
    requires Bracketed(keys, query, upper, first, count) && IsBound(keys[first..first + count], query, upper, inside)
    ensures IsBound(keys, query, upper, first + inside)
  {
    forall i | 0 <= i < |keys| ensures Below(keys[i], query, upper) <==> i < first + inside {
      if first <= i < first + count { BoundAt(keys[first..first + count], query, upper, inside, i - first); }
    }
  }

  /** `simd_bound`: the bucket is chosen by size. */
  method SimdBound(keys: seq<Key>, W: nat, query: Key, upper: bool, kernel: Kernel) returns (bound: nat)
    requires Window(keys, W) && IsKey(query, W) && KernelFits(kernel, W)
    ensures IsBound(keys, query, upper, bound)
  {
    if |keys| <= 4 { bound := SmallBound(keys, W, query, upper, 4, kernel); }
    else if |keys| <= 8 { bound := SmallBound(keys, W, query, upper, 8, kernel); }
    else if |keys| <= 16 { bound := SmallBound(keys, W, query, upper, 16, kernel); }
    else if |keys| <= 32 { bound := SmallBound(keys, W, query, upper, 32, kernel); }
    else {
      var probes;
      bound, probes := BinaryBound(keys, W, query, upper);
    }
  }
}
