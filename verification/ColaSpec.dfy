/** The fractional index as data, and the direct definition of its metadata. */
module ColaSpec {
  // An index node keeps a native run, two streams of borrowed keys (every K-th key of the main target's own
  // augmented order, and every K-th native key of the secondary target), and for each of the two routes: group
  // populations, false-borrow flags and cut common prefixes. Nothing here says how a builder computes them.

  import opened Options
  import opened Keys
  import opened StableMerge

  /** An encoded value. */
  type Value = seq<nat>

  /** A front-coded stream: record i keeps `retained[i]` symbols of the preceding key. */
  datatype Run = Run(keys: seq<Key>, retained: seq<nat>, values: seq<Value>)

  ghost predicate Framed(run: Run) {
    && |run.retained| == |run.keys| == |run.values|
    && (|run.keys| > 0 ==> run.retained[0] == 0)
    && forall i | 0 < i < |run.keys| :: run.retained[i] <= Lcp(run.keys[i - 1], run.keys[i])
  }

  ghost predicate NativeRun(run: Run) {
    Framed(run) && Increasing(run.keys)
  }

  /** `native` and `secondary` are complete runs, `main` is the next node of the chain. Route 0 leads to
      the main target and route 1 to the secondary. */
  datatype Index = Index(
    native: Run,
    borrowed: seq<Run>,
    pops: seq<seq<nat>>,
    flags: seq<seq<bool>>,
    cuts: seq<seq<nat>>,
    count: nat,
    main: Option<Index>,
    secondary: Option<Run>)

  // ----- group arithmetic

  function GroupCount(n: nat, K: nat): nat
    requires K > 0
  {
    n / K + (if n % K != 0 then 1 else 0)
  }

  /** The ordinal K * g of group g, kept linear. */
  function Times(g: nat, K: nat): nat {
    if g == 0 then 0 else Times(g - 1, K) + K
  }

  lemma TimesIs(g: nat, K: nat)
    ensures Times(g, K) == g * K
  {
    if g > 0 { TimesIs(g - 1, K); assert g * K == (g - 1) * K + K; }
  }

  lemma TimesLess(a: nat, b: nat, K: nat)
    requires a < b
    ensures Times(a, K) + K <= Times(b, K)
    decreases b
  {
    if a + 1 < b { TimesLess(a, b - 1, K); }
  }

  lemma TimesMonotone(a: nat, b: nat, K: nat)
    requires a <= b
    ensures Times(a, K) <= Times(b, K)
  {
    if a < b { TimesLess(a, b, K); }
  }

  /** The number of groups is the count of multiples of K below n. */
  lemma GroupIndex(g: nat, n: nat, K: nat)
    requires K > 0
    ensures g < GroupCount(n, K) <==> Times(g, K) < n
  {
    var q := n / K;
    assert n == q * K + n % K;
    TimesIs(q, K);
    if g < q { TimesLess(g, q, K); }
    if q < g { TimesLess(q, g, K); }
  }

  lemma GroupCountIs(n: nat, K: nat, g: nat)
    requires K > 0 && n <= Times(g, K) && (g > 0 ==> Times(g - 1, K) < n)
    ensures GroupCount(n, K) == g
  {
    GroupIndex(g, n, K);
    if g > 0 { GroupIndex(g - 1, n, K); }
  }

  // ----- samples and the augmented order

  function SampleAt(keys: seq<Key>, K: nat, g: nat): (key: Key)
    requires K > 0 && g < GroupCount(|keys|, K)
    ensures Times(g, K) < |keys| && key == keys[Times(g, K)]
  {
    GroupIndex(g, |keys|, K);
    keys[Times(g, K)]
  }

  function EveryKth(keys: seq<Key>, K: nat): (samples: seq<Key>)
    requires K > 0
    ensures |samples| == GroupCount(|keys|, K)
    ensures forall g | 0 <= g < |samples| :: samples[g] == SampleAt(keys, K, g)
  {
    seq(GroupCount(|keys|, K), g requires 0 <= g < GroupCount(|keys|, K) => SampleAt(keys, K, g))
  }

  lemma EveryKthSorted(keys: seq<Key>, K: nat)
    requires K > 0 && Nondecreasing(keys)
    ensures Nondecreasing(EveryKth(keys, K))
  {
    var s := EveryKth(keys, K);
    forall i, j | 0 <= i <= j < |s| ensures Le(s[i], s[j]) {
      if i < j { TimesLess(i, j, K); }
      assert s[i] == SampleAt(keys, K, i) && s[j] == SampleAt(keys, K, j);
    }
  }

  function ItemKeys(items: seq<Item>): (keys: seq<Key>)
    ensures |keys| == |items| && forall i | 0 <= i < |items| :: keys[i] == items[i].key
  {
    seq(|items|, i requires 0 <= i < |items| => items[i].key)
  }

  /** The native stream and the two borrowed streams. */
  function StreamsOf(index: Index): Streams {
    [index.native.keys, BorrowedKeys(index, 0), BorrowedKeys(index, 1)]
  }

  function BorrowedKeys(index: Index, r: nat): seq<Key> {
    if r < |index.borrowed| then index.borrowed[r].keys else []
  }

  ghost function Augmented(index: Index): seq<Item> {
    Merge(StreamsOf(index))
  }

  // ----- metadata by direct definition

  /** Occurrences of stream o among the first t, where t may exceed the end. */
  function CountTo(items: seq<Item>, o: nat, t: nat): nat {
    Count(items, o, Min(t, |items|))
  }

  /** Borrows of this route inside one group. */
  function PopulationAt(items: seq<Item>, route: nat, g: nat, K: nat): int {
    CountTo(items, route + 1, Times(g, K) + K) - CountTo(items, route + 1, Times(g, K))
  }

  /** The common prefix of the group's first key with the last borrow of this route before the group. */
  function CutAt(streams: Streams, items: seq<Item>, route: nat, g: nat, K: nat): nat
    requires route + 1 < |streams|
  {
    var c := CountTo(items, route + 1, Times(g, K));
    if c == 0 || c > |streams[route + 1]| || Times(g, K) >= |items| then 0
    else Lcp(streams[route + 1][c - 1], items[Times(g, K)].key)
  }

  /** A false borrow duplicates a native key. */
  predicate FalseBorrow(streams: Streams, route: nat, ordinal: nat)
    requires route + 1 < |streams| && ordinal < |streams[route + 1]|
  {
    streams[route + 1][ordinal] in streams[0]
  }

  ghost predicate PopulationsExact(items: seq<Item>, route: nat, K: nat, pops: seq<nat>) {
    forall g | 0 <= g < |pops| :: pops[g] == PopulationAt(items, route, g, K)
  }

  ghost predicate CutsExact(streams: Streams, items: seq<Item>, route: nat, K: nat, cuts: seq<nat>)
    requires route + 1 < |streams|
  {
    forall g | 0 <= g < |cuts| :: cuts[g] == CutAt(streams, items, route, g, K)
  }

  ghost predicate FlagsExact(streams: Streams, route: nat, flags: seq<bool>)
    requires route + 1 < |streams| && |flags| <= |streams[route + 1]|
  {
    forall b | 0 <= b < |flags| :: flags[b] == FalseBorrow(streams, route, b)
  }

  ghost predicate RouteExact(streams: Streams, items: seq<Item>, route: nat, K: nat,
                             pops: seq<nat>, flags: seq<bool>, cuts: seq<nat>)
    requires K > 0 && route + 1 < |streams|
  {
    && |pops| == GroupCount(|items|, K) && PopulationsExact(items, route, K, pops)
    && |cuts| == GroupCount(|items|, K) && CutsExact(streams, items, route, K, cuts)
    && |flags| == |streams[route + 1]| && FlagsExact(streams, route, flags)
  }

  ghost predicate Shaped(index: Index) {
    |index.borrowed| == |index.pops| == |index.flags| == |index.cuts| == 2
  }

  ghost predicate MetadataExact(index: Index, K: nat)
    requires K > 0 && Shaped(index)
  {
    && index.count == |Augmented(index)|
    && forall r | 0 <= r < 2 ::
         RouteExact(StreamsOf(index), Augmented(index), r, K, index.pops[r], index.flags[r], index.cuts[r])
  }

  /** The borrowed streams hold exactly the samples of the two targets. */
  ghost predicate SamplesExact(index: Index, K: nat)
    requires K > 0 && Shaped(index)
  {
    && index.borrowed[0].keys
       == (if index.main.None? then [] else EveryKth(ItemKeys(Augmented(index.main.value)), K))
    && index.borrowed[1].keys
       == (if index.secondary.None? then [] else EveryKth(index.secondary.value.keys, K))
  }

  /** A trusted node: sorted front-coded streams, exact samples, exact metadata, all the way down. */
  ghost predicate WellFormed(index: Index, K: nat)
    requires K > 0
    decreases index
  {
    && Shaped(index)
    && NativeRun(index.native) && Framed(index.borrowed[0]) && Framed(index.borrowed[1])
    && (index.secondary.Some? ==> NativeRun(index.secondary.value))
    && (index.main.Some? ==> WellFormed(index.main.value, K))
    && SamplesExact(index, K)
    && MetadataExact(index, K)
  }

  lemma AugmentedSorted(streams: Streams, items: seq<Item>)
    requires SortedStreams(streams) && IsMerge(streams, items)
    ensures Nondecreasing(ItemKeys(items))
  {
    forall i, j | 0 <= i <= j < |items| ensures Le(ItemKeys(items)[i], ItemKeys(items)[j]) {
      Sorted(streams, items, i, j);
    }
  }

  /** Every stream of a well-formed node is sorted, and so is its augmented order. */
  lemma {:induction false} WellFormedSorted(index: Index, K: nat)
    requires K > 0 && WellFormed(index, K)
    ensures SortedStreams(StreamsOf(index))
    ensures Nondecreasing(ItemKeys(Augmented(index)))
    decreases index
  {
    IncreasingNondecreasing(index.native.keys);
    if index.main.Some? {
      WellFormedSorted(index.main.value, K);
      EveryKthSorted(ItemKeys(Augmented(index.main.value)), K);
    }
    if index.secondary.Some? {
      IncreasingNondecreasing(index.secondary.value.keys);
      EveryKthSorted(index.secondary.value.keys, K);
    }
    AugmentedSorted(StreamsOf(index), Augmented(index));
  }

  /** What one node offers a search, apart from its targets. */
  ghost predicate NodeExact(index: Index, K: nat)
    requires K > 0
  {
    && Shaped(index)
    && NativeRun(index.native) && Framed(index.borrowed[0]) && Framed(index.borrowed[1])
    && SortedStreams(StreamsOf(index))
    && index.count == |Augmented(index)|
    && RouteExact(StreamsOf(index), Augmented(index), 0, K, index.pops[0], index.flags[0], index.cuts[0])
    && RouteExact(StreamsOf(index), Augmented(index), 1, K, index.pops[1], index.flags[1], index.cuts[1])
  }

  lemma WellFormedNode(index: Index, K: nat)
    requires K > 0 && WellFormed(index, K)
    ensures NodeExact(index, K)
  {
    WellFormedSorted(index, K);
  }
}
