/** The age-ordered range sweep (native_sweep): a cascade seeds every run at its lower bound, then a priority
    frontier merges the runs without any further point query. */
module NativeSweep {
  import opened Options
  import opened Keys
  import opened StableMerge
  import opened Frontier
  import opened ColaSpec
  import opened QueryContexts
  import opened ColaSearch
  import opened ColaQuery

  /** Ordinal x splits the keys into those below the bound and the rest. */
  ghost predicate IsLowerBound(keys: seq<Key>, lower: Key, x: nat) {
    && x <= |keys|
    && (forall i {:trigger keys[i]} | 0 <= i < x :: Lt(keys[i], lower))
    && (forall i {:trigger keys[i]} | x <= i < |keys| :: Le(lower, keys[i]))
  }

  // ----- seeding one window

  /** First record at or above the query inside a window; `last` if there is none. */
  method BoundInWindow(run: Run, first: nat, last: nat, context: Context, ghost boundary: Key)
    returns (x: nat, equal: bool)
    requires NativeRun(run) && WindowOf(run.keys, first, last, boundary, context.query)
    requires Describes(context, boundary)
    ensures first <= x <= last && (equal ==> x < last && run.keys[x] == context.query)
    ensures !equal ==> forall i | first <= i < last :: run.keys[i] != context.query
    ensures forall i {:trigger run.keys[i]} | first <= i < x :: Lt(run.keys[i], context.query)
    ensures forall i {:trigger run.keys[i]} | x <= i < |run.keys| :: Le(context.query, run.keys[i])
  {
    IncreasingNondecreasing(run.keys);
    var c := context;
    ghost var previous := boundary;
    if first < last { WindowEntry(run, first, last, boundary, c.query); }
    x := first;
    while x < last
      invariant first <= x <= last && c.query == context.query
      invariant Describes(c, previous) && c.order <= 0 && (x < last ==> Readable(run, x, previous))
      invariant forall i {:trigger run.keys[i]} | first <= i < x :: Lt(run.keys[i], context.query)
      invariant forall i | first <= i < x :: run.keys[i] != context.query
    {
      c := ReadRecord(run, x, c, previous);
      OrderZero(run.keys[x], context.query);
      if c.order >= 0 {
        AtOrAbove(run.keys, x, context.query);
        return x, c.order == 0;
      }
      NextReadable(run, x);
      previous := run.keys[x];
      x := x + 1;
    }
    PastWindow(run.keys, last, context.query);
    return last, false;
  }

  lemma AtOrAbove(keys: seq<Key>, x: nat, query: Key)
    requires Increasing(keys) && x < |keys| && Order(keys[x], query) >= 0
    ensures forall i {:trigger keys[i]} | x <= i < |keys| :: Le(query, keys[i])
    ensures Order(keys[x], query) > 0 ==> forall i | x <= i < |keys| :: keys[i] != query
  {
    IncreasingNondecreasing(keys);
    LcpSymmetric(keys[x], query);
    forall i | x <= i < |keys|
      ensures Le(query, keys[i]) && (Order(keys[x], query) > 0 ==> keys[i] != query)
    {
      assert Le(keys[x], keys[i]);
      LcpOrderedMin(query, keys[x], keys[i]);
      OrderZero(query, keys[i]);
    }
  }

  lemma PastWindow(keys: seq<Key>, last: nat, query: Key)
    requires last <= |keys| && forall i {:trigger keys[i]} | last <= i < |keys| :: Lt(query, keys[i])
    ensures forall i {:trigger keys[i]} | last <= i < |keys| :: Le(query, keys[i])
  {
  }

  datatype Bound = Bound(nativeOrdinal: nat, predecessors: seq<Option<Predecessor>>)

  /** `lower_bound_window`: the routed window holds the native lower bound, except that an equal false borrow
      can follow its native occurrence past the cut. Its errors cannot be taken. */
  method LowerBoundWindow(index: Index, K: nat, g: nat, context: Context, ghost boundary: Key) returns (b: Bound)
    requires K > 0 && NodeExact(index, K)
    requires Routed(index, K, g, boundary, context.query) && Describes(context, boundary)
    ensures IsLowerBound(index.native.keys, context.query, b.nativeOrdinal)
    ensures |b.predecessors| == 2
    ensures PredecessorExact(index.borrowed[0].keys, index.flags[0], K, context.query, b.predecessors[0])
    ensures PredecessorExact(index.borrowed[1].keys, index.flags[1], K, context.query, b.predecessors[1])
  {
    var w := Project(index, K, g);
    WindowBrackets(index, K, g, boundary, context.query, 0);
    var x, equal := BoundInWindow(index.native, w.nativeFirst, w.nativeLast, context, boundary);
    var inWindow := if equal then Some(x) else None;
    if !equal {
      WindowRecovers(index, K, 0, w.nativeFirst, w.nativeLast, boundary, context.query);
      WindowRecovers(index, K, 1, w.nativeFirst, w.nativeLast, boundary, context.query);
    }
    var main, found := SearchRoute(index, K, g, 0, w, context, inWindow, boundary);
    var side, recovered := SearchRoute(index, K, g, 1, w, context, found, boundary);
    if recovered.None? { NothingMissed(index, K, g, w, boundary, context.query); }
    SeedIsLowerBound(index.native.keys, w.nativeFirst, w.nativeLast, boundary, context.query, x, recovered);
    b := Bound(if recovered.Some? then Min(x, recovered.value) else x, [main, side]);
  }

  lemma SeedIsLowerBound(keys: seq<Key>, first: nat, last: nat, boundary: Key, query: Key, x: nat, hit: Option<nat>)
    requires Increasing(keys) && WindowOf(keys, first, last, boundary, query) && first <= x <= last
    requires forall i {:trigger keys[i]} | first <= i < x :: Lt(keys[i], query)
    requires forall i {:trigger keys[i]} | x <= i < |keys| :: Le(query, keys[i])
    requires IsFound(keys, query, hit)
    ensures IsLowerBound(keys, query, if hit.Some? then Min(x, hit.value) else x)
  {
    var bound := if hit.Some? then Min(x, hit.value) else x;
    forall i | 0 <= i < bound ensures Lt(keys[i], query) {
      if hit.Some? {
        assert Lt(keys[i], keys[hit.value]);
      } else if i < first {
        LcpOrderedMin(keys[i], boundary, query);
        OrderTotal(keys[i], query);
      }
    }
    forall i | bound <= i < |keys| ensures Le(query, keys[i]) {
      if hit.Some? && bound == hit.value {
        OrderZero(query, keys[hit.value]);
        if hit.value < i { assert Lt(keys[hit.value], keys[i]); }
      }
    }
  }

  // ----- the seeding cascade

  ghost predicate Recorded(index: Index, starts: map<Run, nat>) {
    index.native in starts && (index.secondary.Some? ==> index.secondary.value in starts)
  }

  ghost predicate SoundStarts(starts: map<Run, nat>, lower: Key) {
    forall run | run in starts :: IsLowerBound(run.keys, lower, starts[run])
  }

  /** Every native array downstream lies above the bound. */
  ghost predicate AllAboveBound(current: Option<Index>, lower: Key)
    decreases current
  {
    current.Some? ==>
      && IsLowerBound(current.value.native.keys, lower, 0)
      && (current.value.secondary.Some? ==> IsLowerBound(current.value.secondary.value.keys, lower, 0))
      && AllAboveBound(current.value.main, lower)
  }

  lemma AboveHead(keys: seq<Key>, lower: Key)
    requires Nondecreasing(keys) && (|keys| > 0 ==> Lt(lower, keys[0]))
    ensures IsLowerBound(keys, lower, 0)
  {
    forall i | 0 <= i < |keys| ensures Le(lower, keys[i]) {
      assert Le(keys[0], keys[i]);
      LcpOrderedMin(lower, keys[0], keys[i]);
    }
  }

  lemma {:induction false} DownstreamAbove(index: Index, K: nat, lower: Key)
    requires K > 0 && WellFormed(index, K)
    requires |Augmented(index)| > 0 ==> Lt(lower, Augmented(index)[0].key)
    ensures AllAboveBound(Some(index), lower)
    decreases index, 1
  {
    WellFormedSorted(index, K);
    var items, streams := Augmented(index), StreamsOf(index);
    forall o | 0 <= o < 3 && |streams[o]| > 0 ensures Lt(lower, streams[o][0]) {
      LiveIffBefore(streams, items, 0);
      AboveCut(streams, items, o, 0, 0, 0);
      LcpOrderedMin(lower, items[0].key, streams[o][0]);
    }
    assert streams[0] == index.native.keys && streams[1] == index.borrowed[0].keys
        && streams[2] == index.borrowed[1].keys;
    AboveHead(index.native.keys, lower);
    NoSideBelow(index, K, lower);
    NoMainBelow(index, K, lower);
  }

  lemma NoSideBelow(index: Index, K: nat, lower: Key)
    requires K > 0 && WellFormed(index, K) && IsPredecessor(index.borrowed[1].keys, lower, None)
    ensures index.secondary.Some? ==> IsLowerBound(index.secondary.value.keys, lower, 0)
  {
    SamplesOf(index, K);
    if index.secondary.Some? {
      var keys := index.secondary.value.keys;
      if |keys| > 0 {
        GroupIndex(0, |keys|, K);
        SampleOrdinal(keys, K, 0);
      }
      IncreasingNondecreasing(keys);
      AboveHead(keys, lower);
    }
  }

  lemma {:induction false} NoMainBelow(index: Index, K: nat, lower: Key)
    requires K > 0 && WellFormed(index, K) && IsPredecessor(index.borrowed[0].keys, lower, None)
    ensures AllAboveBound(index.main, lower)
    decreases index, 0
  {
    SamplesOf(index, K);
    if index.main.Some? {
      var items := Augmented(index.main.value);
      if |items| > 0 {
        GroupIndex(0, |items|, K);
        SampleOrdinal(ItemKeys(items), K, 0);
      }
      DownstreamAbove(index.main.value, K, lower);
    }
  }

  /** The secondary's seed from its routed window. */
  method SeedSecondary(index: Index, K: nat, lower: Key, p: Option<Predecessor>) returns (ordinal: nat)
    requires K > 0 && WellFormed(index, K) && index.secondary.Some?
    requires PredecessorExact(index.borrowed[1].keys, index.flags[1], K, lower, p)
    ensures IsLowerBound(index.secondary.value.keys, lower, ordinal)
  {
    if p.None? {
      NoSideBelow(index, K, lower);
      return 0;
    }
    var leaf, first := index.secondary.value, p.value.targetOrdinal;
    RouteToSecondary(index, K, lower, p.value);
    assert first < |leaf.keys| && first % K == 0;
    var last := first + Min(K, |leaf.keys| - first);
    var equal;
    ordinal, equal := BoundInWindow(leaf, first, last, p.value.comparison, leaf.keys[first]);
    forall i | 0 <= i < ordinal ensures Lt(leaf.keys[i], lower) {
      if i < first {
        assert Lt(leaf.keys[i], leaf.keys[first]);
        LcpOrderedMin(leaf.keys[i], leaf.keys[first], lower);
      }
    }
  }

  /** One node of the cascade. */
  method SeedNode(index: Index, K: nat, g: nat, context: Context, above: bool, ghost boundary: Key)
    returns (native: nat, side: nat, next: Option<Predecessor>)
    requires K > 0 && WellFormed(index, K)
    requires !above && index.count > 0 ==> Stands(Some(index), K, g, boundary, context)
    requires above ==> AllAboveBound(Some(index), context.query)
    ensures IsLowerBound(index.native.keys, context.query, native)
    ensures index.secondary.Some? ==> IsLowerBound(index.secondary.value.keys, context.query, side)
    ensures next.None? ==> AllAboveBound(index.main, context.query)
    ensures next.Some? ==>
              && !above && index.count > 0 && index.main.Some?
              && next.value.comparison.query == context.query && next.value.ordinal < |index.borrowed[0].keys|
              && Stands(index.main, K, GroupOf(next.value.targetOrdinal, K),
                        index.borrowed[0].keys[next.value.ordinal], next.value.comparison)
  {
    if above { return 0, 0, None; }
    if index.count == 0 {
      DownstreamAbove(index, K, context.query);
      return 0, 0, None;
    }
    WellFormedNode(index, K);
    var b := LowerBoundWindow(index, K, g, context, boundary);
    native, side, next := b.nativeOrdinal, 0, b.predecessors[0];
    if index.secondary.Some? { side := SeedSecondary(index, K, context.query, b.predecessors[1]); }
    if next.Some? {
      RouteToMain(index, K, context.query, next.value);
    } else {
      NoMainBelow(index, K, context.query);
    }
  }

  /** `emplace` keeps an earlier entry. */
  function Emplace(starts: map<Run, nat>, run: Run, ordinal: nat): map<Run, nat> {
    if run in starts then starts else starts[run := ordinal]
  }

  /** Where the cascade stands at a node. */
  ghost predicate SeedStands(node: Option<Index>, K: nat, g: nat, boundary: Key, context: Context, above: bool)
    requires K > 0
  {
    node.Some? ==>
      && WellFormed(node.value, K)
      && (!above && node.value.count > 0 ==> Stands(node, K, g, boundary, context))
      && (above ==> AllAboveBound(node, context.query))
  }

  /** Seed one node and move on. */
  method SeedStep(index: Index, K: nat, g: nat, context: Context, above: bool, starts: map<Run, nat>,
                  ghost boundary: Key)
    returns (grown: map<Run, nat>, nextGroup: nat, nextContext: Context, nextAbove: bool, ghost nextBoundary: Key)
    requires K > 0 && SeedStands(Some(index), K, g, boundary, context, above)
    requires SoundStarts(starts, context.query)
    ensures SeedStands(index.main, K, nextGroup, nextBoundary, nextContext, nextAbove)
    ensures nextContext.query == context.query && SoundStarts(grown, context.query)
    ensures Recorded(index, grown) && starts.Keys <= grown.Keys
  {
    var native, side, next := SeedNode(index, K, g, context, above, boundary);
    grown := Emplace(starts, index.native, native);
    if index.secondary.Some? { grown := Emplace(grown, index.secondary.value, side); }
    nextGroup, nextContext, nextAbove, nextBoundary := g, context, above, boundary;
    if next.Some? {
      nextGroup, nextContext := GroupOf(next.value.targetOrdinal, K), next.value.comparison;
      nextBoundary := index.borrowed[0].keys[next.value.ordinal];
    } else {
      nextAbove := true;
    }
  }

  lemma SeedStart(root: Index, K: nat, context: Context)
    requires K > 0 && WellFormed(root, K) && root.count <= K && context == Fresh(context.query)
    ensures SeedStands(Some(root), K, 0, [], context, false) && SoundStarts(map[], context.query)
  {
    EmptyIsLeast(context.query);
  }

  ghost predicate AllRecorded(visited: seq<Index>, starts: map<Run, nat>) {
    forall index | index in visited :: Recorded(index, starts)
  }

  lemma RecordedGrows(visited: seq<Index>, index: Index, starts: map<Run, nat>, grown: map<Run, nat>)
    requires AllRecorded(visited, starts) && starts.Keys <= grown.Keys && Recorded(index, grown)
    ensures AllRecorded(visited + [index], grown)
  {
    forall x | x in visited + [index] ensures Recorded(x, grown) {
      if x in visited { assert Recorded(x, starts); }
    }
  }

  lemma ChainNext(root: Index, visited: seq<Index>, index: Index)
    requires Chain(Some(root)) == visited + Chain(Some(index))
    ensures Chain(Some(root)) == (visited + [index]) + Chain(index.main)
  {
  }

  /** The constructor's cascade. Once no sampled predecessor exists, every later run starts at zero. */
  method SeedCascade(root: Index, K: nat, lower: Key) returns (starts: map<Run, nat>)
    requires K > 0 && WellFormed(root, K) && root.count <= K
    ensures SoundStarts(starts, lower) && forall index | index in Chain(Some(root)) :: Recorded(index, starts)
  {
    starts := map[];
    var node, g, context, above := Some(root), 0, Fresh(lower), false;
    ghost var boundary: Key := [];
    ghost var visited: seq<Index> := [];
    SeedStart(root, K, context);
    while node.Some?
      invariant SeedStands(node, K, g, boundary, context, above)
      invariant context.query == lower && SoundStarts(starts, lower)
      invariant Chain(Some(root)) == visited + Chain(node)
      invariant AllRecorded(visited, starts)
      decreases Depth(node)
    {
      hide SeedStands, SoundStarts, AllRecorded, Recorded, WellFormed, Chain;
      var index := node.value;
      ghost var before := starts;
      starts, g, context, above, boundary := SeedStep(index, K, g, context, above, starts, boundary);
      RecordedGrows(visited, index, before, starts);
      ChainNext(root, visited, index);
      visited := visited + [index];
      node := index.main;
    }
  }

  // ----- the priority frontier

  /** The constructor of a positioned cursor rebuilds its first key from the query and one record: the interval
      between the preceding key and this one shares every retained prefix. */
  method SeedCursor(run: Run, ordinal: nat, lower: Key) returns (key: Key)
    requires NativeRun(run) && ordinal < |run.keys| && IsLowerBound(run.keys, lower, ordinal)
    ensures key == run.keys[ordinal]
  {
    var retained := run.retained[ordinal];
    if ordinal > 0 { LcpOrderedMin(run.keys[ordinal - 1], lower, run.keys[ordinal]); }
    assert retained <= Lcp(lower, run.keys[ordinal]);
    assert retained <= |lower|;
    LcpIs(lower, run.keys[ordinal]);
    key := lower[..retained] + run.keys[ordinal][retained..];
  }

  /** What remains of every run from its seed, oldest run first. */
  function Suffixes(runs: seq<Run>, starts: seq<nat>): (streams: Streams)
    requires |starts| == |runs| && forall i | 0 <= i < |runs| :: starts[i] <= |runs[i].keys|
    ensures |streams| == |runs|
    ensures forall i | 0 <= i < |runs| :: streams[i] == runs[i].keys[starts[i]..]
  {
    seq(|runs|, i requires 0 <= i < |runs| => runs[i].keys[starts[i]..])
  }

  ghost predicate CursorsAt(streams: Streams, items: seq<Item>, t: nat, pos: seq<nat>) {
    && t <= |items| && |pos| == |streams|
    && forall o | 0 <= o < |streams| :: pos[o] == Count(items, o, t) <= |streams[o]|
  }

  /** The frontier lists each unfinished run once. */
  ghost predicate HeapOf(streams: Streams, pos: seq<nat>, heap: seq<nat>)
    requires |pos| == |streams|
  {
    && (forall i | 0 <= i < |heap| :: heap[i] < |streams| && pos[heap[i]] < |streams[heap[i]]|)
    && (forall o | 0 <= o < |streams| && pos[o] < |streams[o]| :: o in heap)
    && (forall i, j | 0 <= i < j < |heap| :: heap[i] != heap[j])
  }

  /** Its front leaves before every other: smaller key first, then the older run. */
  ghost predicate FrontBest(streams: Streams, pos: seq<nat>, heap: seq<nat>)
    requires |pos| == |streams| && HeapOf(streams, pos, heap)
  {
    forall i | 0 <= i < |heap| ::
      Before(heap[0], streams[heap[0]][pos[heap[0]]], heap[i], streams[heap[i]][pos[heap[i]]])
  }

  /** Restore the library heap's guarantee: a least element by (key, age) is in front. */
  method RaiseFront(streams: Streams, pos: seq<nat>, heap: seq<nat>) returns (raised: seq<nat>)
    requires |pos| == |streams| && HeapOf(streams, pos, heap)
    ensures HeapOf(streams, pos, raised) && FrontBest(streams, pos, raised)
    ensures |raised| == |heap|
  {
    if heap == [] { return heap; }
    var best := 0;
    OrderZero(streams[heap[0]][pos[heap[0]]], streams[heap[0]][pos[heap[0]]]);
    for i := 1 to |heap|
      invariant best < i
      invariant forall j | 0 <= j < i ::
        Before(heap[best], streams[heap[best]][pos[heap[best]]], heap[j], streams[heap[j]][pos[heap[j]]])
    {
      var a, b := heap[best], heap[i];
      var x, y := streams[a][pos[a]], streams[b][pos[b]];
      OrderTotal(x, y);
      OrderTotal(y, x);
      OrderZero(y, y);
      var order := Order(x, y);
      if order > 0 || (order == 0 && a > b) {
        forall j | 0 <= j < i ensures Before(b, y, heap[j], streams[heap[j]][pos[heap[j]]]) {
          BeforeTransitive(b, y, a, x, heap[j], streams[heap[j]][pos[heap[j]]]);
        }
        best := i;
      }
    }
    raised := heap[0 := heap[best]][best := heap[0]];
    SwapKeepsFrontier(streams, pos, heap, best);
  }

  lemma BeforeTransitive(a: nat, x: Key, b: nat, y: Key, c: nat, z: Key)
    requires Before(a, x, b, y) && Before(b, y, c, z)
    ensures Before(a, x, c, z)
  {
    OrderTotal(x, y);
    OrderTotal(y, z);
    LcpOrderedMin(x, y, z);
  }

  lemma SwapKeepsFrontier(streams: Streams, pos: seq<nat>, heap: seq<nat>, best: nat)
    requires |pos| == |streams| && HeapOf(streams, pos, heap) && best < |heap|
    ensures HeapOf(streams, pos, heap[0 := heap[best]][best := heap[0]])
  {
    var swapped := heap[0 := heap[best]][best := heap[0]];
    forall o | 0 <= o < |streams| && pos[o] < |streams[o]| ensures o in swapped {
      var i :| 0 <= i < |heap| && heap[i] == o;
      assert swapped[if i == 0 then best else if i == best then 0 else i] == o;
    }
  }

  /** A swept record: its value and the prefix its frame retained. */
  datatype Observation = Observation(value: Value, retained: nat)

  /** What a sweep over the seeded runs will hand out, in order. */
  class Sweep {
    const runs: seq<Run>
    const starts: seq<nat>
    /** What each source's cursor walks from its seed. */
    const streams: Streams
    ghost const items: seq<Item>
    var pos: seq<nat>
    var heap: seq<nat>
    var consumed: nat

    ghost predicate Bound() {
      && |starts| == |runs|
      && (forall i | 0 <= i < |runs| :: NativeRun(runs[i]) && starts[i] <= |runs[i].keys|)
      && streams == Suffixes(runs, starts) && IsMerge(streams, items) && SortedStreams(streams)
    }

    ghost predicate Valid()
      reads this
    {
      && Bound() && CursorsAt(streams, items, consumed, pos)
      && HeapOf(streams, pos, heap) && FrontBest(streams, pos, heap)
    }

    /** Runs are oldest first, each seeded at its lower bound. */
    constructor (sources: seq<Run>, seeds: seq<nat>, lower: Key)
      requires |seeds| == |sources|
      requires forall i | 0 <= i < |sources| :: NativeRun(sources[i]) && IsLowerBound(sources[i].keys, lower, seeds[i])
      ensures Valid() && consumed == 0 && runs == sources && starts == seeds
    {
      runs, starts := sources, seeds;
      var s := Suffixes(sources, seeds);
      var z := seq(|sources|, _ => 0);
      var live := LiveRuns(s, z);
      var raised := RaiseFront(s, z, live);
      heap := raised;
      pos := z;
      consumed := 0;
      streams := s;
      items := Merge(s);
      new;
      SuffixesSorted(sources, seeds);
    }

    predicate Done()
      reads this
    {
      heap == []
    }

    /** The front run is where the merge takes its next record. */
    lemma FrontIsNext()
      requires Valid()
      ensures heap == [] <==> consumed == |items|
      ensures heap != [] ==> items[consumed] == Item(heap[0], streams[heap[0]][pos[heap[0]]])
    {
      LiveIffBefore(streams, items, consumed);
      if heap != [] {
        assert TakesBest(streams, items, consumed);
        FrontBeats(streams, items, consumed, pos, heap);
        BestUnique(streams, items, consumed, heap[0]);
      } else {
        forall o | 0 <= o < |streams| ensures Count(items, o, consumed) == |streams[o]| {}
      }
    }

    /** The record the sweep stands at. */
    method Peek() returns (which: nat, ordinal: nat)
      requires Valid() && !Done()
      ensures which < |runs| && ordinal < |runs[which].keys| && consumed < |items|
      ensures items[consumed] == Item(which, runs[which].keys[ordinal])
      ensures ordinal == starts[which] + Count(items, which, consumed)
    {
      FrontIsNext();
      which := heap[0];
      ordinal := starts[which] + pos[which];
    }

    /** Leave the record at the front; its run is never found out of order. */
    method Consume()
      requires Valid() && !Done()
      modifies this
      ensures Valid() && consumed == old(consumed) + 1
    {
      FrontIsNext();
      var which := heap[0];
      RunInOrder(runs[which], starts[which] + pos[which]);
      pos, heap := PopAdvancePush(streams, pos, heap);
      consumed := consumed + 1;
    }

    /** Everything that has left is below the key. */
    ghost predicate Behind(key: Key)
      reads this`consumed
    {
      0 < consumed <= |items| ==> Lt(items[consumed - 1].key, key)
    }

    /** Skip records below the key. */
    method SkipBelow(key: Key)
      requires Valid() && Behind(key)
      modifies this
      ensures Valid() && Behind(key) && consumed >= old(consumed)
      ensures consumed < |items| ==> Le(key, items[consumed].key)
    {
      while !Done()
        invariant Valid() && Behind(key) && consumed >= old(consumed)
        decreases |items| - consumed
      {
        var which, ordinal := Peek();
        LcpSymmetric(runs[which].keys[ordinal], key);
        if Order(runs[which].keys[ordinal], key) >= 0 { return; }
        Consume();
      }
      FrontIsNext();
    }

    /** `replacement`: for increasing keys, the newest swept record of the key, or none. */
    method Replacement(key: Key) returns (r: Option<Observation>)
      requires Valid() && Behind(key)
      modifies this
      ensures Valid() && Newest(runs, starts, streams, key, r)
      ensures consumed > 0 ==> Le(items[consumed - 1].key, key)
      ensures consumed < |items| ==> Lt(key, items[consumed].key)
    {
      SkipBelow(key);
      ghost var t, o, x := consumed, 0, 0;
      r, o, x := TakeAll(key);
      Settled(key, t, r, o, x);
    }

    /** Take every record of the key; the last one taken is the newest. */
    method TakeAll(key: Key) returns (r: Option<Observation>, ghost o: nat, ghost x: nat)
      requires Valid() && (consumed < |items| ==> Le(key, items[consumed].key))
      modifies this
      ensures Valid() && old(consumed) <= consumed
      ensures consumed < |items| ==> Lt(key, items[consumed].key)
      ensures if consumed == old(consumed) then r.None? else Taken(key, r, o, x)
    {
      r, o, x := None, 0, 0;
      FrontIsNext();
      while !Done()
        invariant Valid() && old(consumed) <= consumed && (Done() <==> consumed == |items|)
        invariant consumed < |items| ==> Le(key, items[consumed].key)
        invariant if consumed == old(consumed) then r.None? else Taken(key, r, o, x)
        decreases |items| - consumed
      {
        var taken, which, ordinal := TakeEqual(key);
        if taken.None? { return; }
        r, o, x := taken, which, ordinal;
        FrontIsNext();
      }
    }

    /** Take the front record if it carries the key. */
    method TakeEqual(key: Key) returns (taken: Option<Observation>, ghost o: nat, ghost x: nat)
      requires Valid() && !Done() && consumed < |items| && Le(key, items[consumed].key)
      modifies this
      ensures Valid()
      ensures taken.None? ==> consumed == old(consumed) && Lt(key, items[consumed].key)
      ensures taken.Some? ==> consumed == old(consumed) + 1 && Taken(key, taken, o, x)
      ensures taken.Some? && consumed < |items| ==> Le(key, items[consumed].key)
    {
      var which, ordinal := Peek();
      o, x := which, ordinal;
      OrderZero(runs[which].keys[ordinal], key);
      if Order(runs[which].keys[ordinal], key) == 0 {
        taken := Some(Observation(runs[which].values[ordinal], runs[which].retained[ordinal]));
        Consume();
        StillAtLeast(key);
      } else {
        OrderTotal(key, items[consumed].key);
        taken := None;
      }
    }

    lemma StillAtLeast(key: Key)
      requires Valid() && 0 < consumed && items[consumed - 1].key == key
      ensures consumed < |items| ==> Le(key, items[consumed].key)
    {
      if consumed < |items| { Sorted(streams, items, consumed - 1, consumed); }
    }

    /** The record that left last carries the key, and this is what it held. */
    ghost predicate Taken(key: Key, r: Option<Observation>, o: nat, x: nat)
      reads this`consumed
    {
      && 0 < consumed <= |items| && items[consumed - 1] == Item(o, key) && r.Some?
      && Observed(runs, starts, key, r.value, o, x)
    }

    lemma Settled(key: Key, t: nat, r: Option<Observation>, o: nat, x: nat)
      requires Valid() && t <= consumed
      requires consumed < |items| ==> Lt(key, items[consumed].key)
      requires t > 0 ==> Lt(items[t - 1].key, key)
      requires consumed == t ==> r.None?
      requires consumed > t ==> Taken(key, r, o, x)
      ensures Newest(runs, starts, streams, key, r)
      ensures consumed > 0 ==> Le(items[consumed - 1].key, key)
    {
      forall run | 0 <= run < |streams| ensures key in streams[run] ==> t < consumed && run <= items[consumed - 1].origin {
        KeyHasLeft(streams, items, key, t, consumed, run);
      }
      OrderTotal(key, key);
    }
  }

  /** Sources of a sweep: each run with the ordinal the cascade recorded for it. The error on an absent run
      cannot be taken for runs of the chain. */
  method OpenSweep(root: Index, K: nat, lower: Key, runs: seq<Run>) returns (sweep: Sweep)
    requires K > 0 && WellFormed(root, K) && root.count <= K
    requires forall run | run in runs :: NativeRun(run) && exists index | index in Chain(Some(root)) ::
               index.native == run || index.secondary == Some(run)
    ensures fresh(sweep) && sweep.Valid() && sweep.consumed == 0 && sweep.runs == runs
    ensures forall i | 0 <= i < |runs| :: IsLowerBound(runs[i].keys, lower, sweep.starts[i])
  {
    var starts := SeedCascade(root, K, lower);
    var seeds: seq<nat> := [];
    for i := 0 to |runs|
      invariant |seeds| == i && forall j | 0 <= j < i :: IsLowerBound(runs[j].keys, lower, seeds[j])
    {
      assert runs[i] in runs;
      assert runs[i] in starts;
      var key: Key := [];
      if starts[runs[i]] < |runs[i].keys| { key := SeedCursor(runs[i], starts[runs[i]], lower); }
      seeds := seeds + [starts[runs[i]]];
    }
    sweep := new Sweep(runs, seeds, lower);
  }

  /** Which occurrence of a key is the newest among the swept records. */
  ghost predicate Newest(runs: seq<Run>, starts: seq<nat>, streams: Streams, key: Key, r: Option<Observation>)
    requires |runs| == |starts| == |streams|
  {
    if r.None? then forall o | 0 <= o < |streams| :: key !in streams[o]
    else exists o: nat, x: nat :: Observed(runs, starts, key, r.value, o, x)
                                  && forall newer | o < newer < |streams| :: key !in streams[newer]
  }

  ghost predicate Observed(runs: seq<Run>, starts: seq<nat>, key: Key, r: Observation, o: nat, x: nat) {
    && o < |runs| && o < |starts| && starts[o] <= x < |runs[o].keys| && runs[o].keys[x] == key
    && x < |runs[o].values| && x < |runs[o].retained| && r == Observation(runs[o].values[x], runs[o].retained[x])
  }

  /** Once the sweep stands past a key, every run's record of it has left, in age order. */
  lemma KeyHasLeft(streams: Streams, items: seq<Item>, key: Key, t: nat, u: nat, o: nat)
    requires SortedStreams(streams) && IsMerge(streams, items) && t <= u <= |items| && o < |streams|
    requires t > 0 ==> Lt(items[t - 1].key, key)
    requires u < |items| ==> Lt(key, items[u].key)
    requires t < u ==> items[u - 1].key == key
    ensures key in streams[o] ==> t < u && o <= items[u - 1].origin
  {
    if key in streams[o] {
      var x :| 0 <= x < |streams[o]| && streams[o][x] == key;
      var p := PositionAfter(streams, items, o, x, 0);
      OrderTotal(key, key);
      if p < t {
        Sorted(streams, items, p, t - 1);
        OrderTotal(items[t - 1].key, key);
        assert false;
      }
      if u <= p {
        Sorted(streams, items, u, p);
        OrderTotal(key, items[u].key);
        assert false;
      }
      Sorted(streams, items, p, u - 1);
    }
  }

  lemma RunInOrder(run: Run, x: nat)
    requires NativeRun(run) && x < |run.keys|
    ensures var next := NextComparison(run.keys, x); next.Some? ==> next.value.order < 0
  {
    if x + 1 < |run.keys| { assert Lt(run.keys[x], run.keys[x + 1]); }
  }

  lemma HeapFront(streams: Streams, pos: seq<nat>, heap: seq<nat>)
    requires |pos| == |streams| && HeapOf(streams, pos, heap) && heap != []
    ensures heap[0] < |streams| && pos[heap[0]] < |streams[heap[0]]|
  {
  }

  /** Pop the front run, advance its cursor, and push it back unless it ended. */
  method PopAdvancePush(streams: Streams, pos: seq<nat>, heap: seq<nat>) returns (next: seq<nat>, raised: seq<nat>)
    requires |pos| == |streams| && HeapOf(streams, pos, heap) && heap != []
    ensures next == Advanced(pos, heap[0])
    ensures HeapOf(streams, next, raised) && FrontBest(streams, next, raised)
  {
    HeapFront(streams, pos, heap);
    DropFront(streams, pos, heap);
    hide HeapOf, FrontBest, Rest, Advanced;
    var which := heap[0];
    next := Advanced(pos, which);
    raised := RaiseFront(streams, next, Rest(streams, next, heap));
  }

  lemma SuffixesSorted(runs: seq<Run>, starts: seq<nat>)
    requires |starts| == |runs|
    requires forall i | 0 <= i < |runs| :: NativeRun(runs[i]) && starts[i] <= |runs[i].keys|
    ensures SortedStreams(Suffixes(runs, starts))
  {
    var streams := Suffixes(runs, starts);
    forall o | 0 <= o < |streams| ensures Nondecreasing(streams[o]) {
      var keys := runs[o].keys;
      IncreasingNondecreasing(keys);
      forall i, j | 0 <= i <= j < |streams[o]| ensures Le(streams[o][i], streams[o][j]) {
        assert Le(keys[starts[o] + i], keys[starts[o] + j]);
      }
    }
  }

  /** The unfinished runs in age order. */
  method LiveRuns(streams: Streams, pos: seq<nat>) returns (heap: seq<nat>)
    requires |pos| == |streams| && forall o | 0 <= o < |streams| :: pos[o] <= |streams[o]|
    ensures HeapOf(streams, pos, heap)
  {
    heap := [];
    for o := 0 to |streams|
      invariant forall i | 0 <= i < |heap| :: heap[i] < o && pos[heap[i]] < |streams[heap[i]]|
      invariant forall x | 0 <= x < o && pos[x] < |streams[x]| :: x in heap
      invariant forall i, j | 0 <= i < j < |heap| :: heap[i] != heap[j]
    {
      if pos[o] < |streams[o]| { heap := heap + [o]; }
    }
  }

  lemma FrontBeats(streams: Streams, items: seq<Item>, t: nat, pos: seq<nat>, heap: seq<nat>)
    requires CursorsAt(streams, items, t, pos) && HeapOf(streams, pos, heap) && FrontBest(streams, pos, heap)
    requires heap != []
    ensures var o := heap[0];
            forall x | 0 <= x < |streams| && Count(items, x, t) < |streams[x]| ::
              Before(o, streams[o][Count(items, o, t)], x, streams[x][Count(items, x, t)])
  {
    var o := heap[0];
    forall x | 0 <= x < |streams| && Count(items, x, t) < |streams[x]|
      ensures Before(o, streams[o][Count(items, o, t)], x, streams[x][Count(items, x, t)])
    {
      var i :| 0 <= i < |heap| && heap[i] == x;
    }
  }

  function Advanced(pos: seq<nat>, o: nat): (next: seq<nat>)
    ensures |next| == |pos| && (o < |pos| ==> next == pos[o := pos[o] + 1])
  {
    if o < |pos| then pos[o := pos[o] + 1] else pos
  }

  /** The heap without its front, and the front run again behind it while it lasts. */
  function Rest(streams: Streams, next: seq<nat>, heap: seq<nat>): seq<nat>
    requires |next| == |streams| && heap != [] && heap[0] < |streams|
  {
    if next[heap[0]] < |streams[heap[0]]| then heap[1..] + [heap[0]] else heap[1..]
  }

  lemma DropFront(streams: Streams, pos: seq<nat>, heap: seq<nat>)
    requires |pos| == |streams| && HeapOf(streams, pos, heap) && heap != []
    ensures HeapOf(streams, Advanced(pos, heap[0]), Rest(streams, Advanced(pos, heap[0]), heap))
  {
    var next := Advanced(pos, heap[0]);
    var rest := Rest(streams, next, heap);
    forall i | 0 <= i < |rest| ensures rest[i] < |streams| && next[rest[i]] < |streams[rest[i]]| {
      if i < |heap| - 1 { assert rest[i] == heap[i + 1] && heap[0] != heap[i + 1]; }
    }
    StillListed(streams, pos, heap);
    StillDistinct(streams, next, heap);
  }

  /** Every unfinished run is still listed. */
  lemma StillListed(streams: Streams, pos: seq<nat>, heap: seq<nat>)
    requires |pos| == |streams| && HeapOf(streams, pos, heap) && heap != []
    ensures var next := Advanced(pos, heap[0]);
            forall o | 0 <= o < |streams| && next[o] < |streams[o]| :: o in Rest(streams, next, heap)
  {
    var next := Advanced(pos, heap[0]);
    var rest := Rest(streams, next, heap);
    forall o | 0 <= o < |streams| && next[o] < |streams[o]| ensures o in rest {
      if o == heap[0] {
        assert rest[|heap| - 1] == o;
      } else {
        var i :| 0 <= i < |heap| && heap[i] == o;
        assert rest[i - 1] == o;
      }
    }
  }

  lemma StillDistinct(streams: Streams, next: seq<nat>, heap: seq<nat>)
    requires |next| == |streams| && heap != [] && heap[0] < |streams|
    requires forall i, j | 0 <= i < j < |heap| :: heap[i] != heap[j]
    ensures var rest := Rest(streams, next, heap); forall i, j | 0 <= i < j < |rest| :: rest[i] != rest[j]
  {
    var rest := Rest(streams, next, heap);
    forall i, j | 0 <= i < j < |rest| ensures rest[i] != rest[j] {
      assert rest[i] == heap[i + 1] && heap[0] != heap[i + 1];
      if j < |heap| - 1 { assert rest[j] == heap[j + 1]; }
    }
  }
}
