/** Searching one augmented group of a node (cola_index_view). */
module ColaSearch {
  // Rank projection turns the group into one window per stream (project). The native window holds the key unless a
  // run of equal borrows has carried the route past it; then a false borrow points back at the preceding native
  // entry (search_window_with).

  import opened Options
  import opened Keys
  import opened StableMerge
  import opened Frontier
  import opened ColaSpec
  import opened QueryContexts

  /** Half-open windows of the native stream and of the two borrowed streams. */
  datatype Window = Window(nativeFirst: nat, nativeLast: nat, borrowedFirst: seq<nat>, borrowedLast: seq<nat>)

  /** A borrowed entry at or below the query, with the ordinal it samples in its target. */
  datatype Predecessor = Predecessor(ordinal: nat, targetOrdinal: nat, falseBorrow: bool, comparison: Context)

  datatype WindowResult = WindowResult(native: Option<nat>, predecessors: seq<Option<Predecessor>>)

  function GroupEnd(items: seq<Item>, g: nat, K: nat): nat {
    Min(Times(g, K) + K, |items|)
  }

  /** A query routed to group g of a node: the boundary is the group's first key (or nothing yet, at the
      first group), it is at most the query, and the next group starts above the query. */
  ghost predicate Routed(index: Index, K: nat, g: nat, boundary: Key, query: Key) {
    var items := Augmented(index);
    && Times(g, K) < |items|
    && (boundary == items[Times(g, K)].key || (g == 0 && boundary == []))
    && Le(boundary, query)
    && (Times(g, K) + K < |items| ==> Lt(query, items[Times(g, K) + K].key))
  }

  // ----- rank projection

  function PrefixSum(pops: seq<nat>, g: nat): nat
    requires g <= |pops|
  {
    if g == 0 then 0 else PrefixSum(pops, g - 1) + pops[g - 1]
  }

  /** Prefix sums of exact populations are exact ranks. */
  lemma {:induction false} RankExact(items: seq<Item>, r: nat, K: nat, pops: seq<nat>, g: nat)
    requires PopulationsExact(items, r, K, pops) && g <= |pops|
    ensures PrefixSum(pops, g) == CountTo(items, r + 1, Times(g, K))
  {
    if g > 0 {
      RankExact(items, r, K, pops, g - 1);
      assert pops[g - 1] == PopulationAt(items, r, g - 1, K);
    }
  }

  /** The windows of group g are exactly the group's entries of each stream. */
  ghost predicate WindowExact(items: seq<Item>, K: nat, g: nat, w: Window) {
    && |w.borrowedFirst| == |w.borrowedLast| == 2
    && w.nativeFirst == CountTo(items, 0, Times(g, K)) && w.nativeLast == Count(items, 0, GroupEnd(items, g, K))
    && w.borrowedFirst == [CountTo(items, 1, Times(g, K)), CountTo(items, 2, Times(g, K))]
    && w.borrowedLast == [Count(items, 1, GroupEnd(items, g, K)), Count(items, 2, GroupEnd(items, g, K))]
  }

  /** The windows of a group together hold exactly its occurrences. */
  lemma WindowsTile(index: Index, K: nat, g: nat, w: Window)
    requires K > 0 && NodeExact(index, K) && Times(g, K) < index.count && WindowExact(Augmented(index), K, g, w)
    ensures w.nativeFirst <= w.nativeLast <= |index.native.keys|
    ensures forall r | 0 <= r < 2 :: w.borrowedFirst[r] <= w.borrowedLast[r] <= |index.borrowed[r].keys|
    ensures w.nativeFirst + w.borrowedFirst[0] + w.borrowedFirst[1] == Times(g, K)
    ensures w.nativeLast + w.borrowedLast[0] + w.borrowedLast[1] == GroupEnd(Augmented(index), g, K)
  {
    var items, streams := Augmented(index), StreamsOf(index);
    CountsAddUp(streams, items, Times(g, K));
    CountsAddUp(streams, items, GroupEnd(items, g, K));
    GroupCounts(streams, items, Times(g, K), GroupEnd(items, g, K));
  }

  /** Rank and class of one route at group g; its range errors cannot be taken. */
  method ProjectRoute(index: Index, K: nat, g: nat, r: nat) returns (prefix: nat, population: nat)
    requires K > 0 && NodeExact(index, K) && Times(g, K) < index.count && r < 2
    ensures var items := Augmented(index);
            prefix == Count(items, r + 1, Times(g, K))
            && prefix + population == Count(items, r + 1, GroupEnd(items, g, K))
  {
    ghost var items, streams := Augmented(index), StreamsOf(index);
    GroupIndex(g, index.count, K);
    RankExact(items, r, K, index.pops[r], g);
    prefix, population := PrefixSum(index.pops[r], g), index.pops[r][g];
    assert population == PopulationAt(items, r, g, K);
    GroupCounts(streams, items, Times(g, K), GroupEnd(items, g, K));
    assert prefix <= Times(g, K) && prefix + population <= |index.borrowed[r].keys|;
    assert population <= Min(K, index.count - Times(g, K));
  }

  /** The projection arithmetic. Its consistency errors cannot be taken on exact ranks and classes. */
  method Subtract(streams: Streams, first: nat, width: nat, prefix0: nat, prefix1: nat, population0: nat,
                  population1: nat, nativeSize: nat, ghost items: seq<Item>) returns (w: Window)
    requires IsMerge(streams, items) && |streams| == 3 && nativeSize == |streams[0]|
    requires first + width <= |items|
    requires prefix0 == Count(items, 1, first) && prefix0 + population0 == Count(items, 1, first + width)
    requires prefix1 == Count(items, 2, first) && prefix1 + population1 == Count(items, 2, first + width)
    ensures w == Window(Count(items, 0, first), Count(items, 0, first + width),
                        [Count(items, 1, first), Count(items, 2, first)],
                        [Count(items, 1, first + width), Count(items, 2, first + width)])
  {
    NativeWindow(streams, items, first, first + width);
    assert prefix0 <= first - prefix1 && population0 <= width - population1;
    var nativeFirst := first - prefix0 - prefix1;
    var nativeLast := nativeFirst + width - population0 - population1;
    assert nativeLast <= nativeSize;
    w := Window(nativeFirst, nativeLast, [prefix0, prefix1], [prefix0 + population0, prefix1 + population1]);
  }

  /** `project`: rank and class of both routes, and the native rest. */
  method Project(index: Index, K: nat, g: nat) returns (w: Window)
    requires K > 0 && NodeExact(index, K) && Times(g, K) < index.count
    ensures WindowExact(Augmented(index), K, g, w)
  {
    var first := Times(g, K);
    var prefix0, population0 := ProjectRoute(index, K, g, 0);
    var prefix1, population1 := ProjectRoute(index, K, g, 1);
    w := Subtract(StreamsOf(index), first, Min(K, index.count - first), prefix0, prefix1, population0, population1,
                  |index.native.keys|, Augmented(index));
  }

  /** Natives are what the two routes leave over. */
  lemma NativeWindow(streams: Streams, items: seq<Item>, t: nat, u: nat)
    requires IsMerge(streams, items) && |streams| == 3 && t <= u <= |items|
    ensures Count(items, 0, t) == t - Count(items, 1, t) - Count(items, 2, t)
    ensures Count(items, 0, u) == u - Count(items, 1, u) - Count(items, 2, u) <= |streams[0]|
    ensures Count(items, 0, t) <= Count(items, 0, u)
  {
    CountsAddUp(streams, items, t);
    CountsAddUp(streams, items, u);
    GroupCounts(streams, items, t, u);
    assert Count(items, 0, u) <= |streams[0]|;
  }

  lemma GroupCounts(streams: Streams, items: seq<Item>, t: nat, u: nat)
    requires IsMerge(streams, items) && |streams| == 3 && t <= u <= |items|
    ensures forall o {:trigger Count(items, o, u)} | 0 <= o < 3 ::
              Count(items, o, t) <= Count(items, o, u) <= |streams[o]|
              && Count(items, o, u) - Count(items, o, t) <= u - t
  {
    forall o | 0 <= o < 3
      ensures Count(items, o, t) <= Count(items, o, u) <= |streams[o]|
      ensures Count(items, o, u) - Count(items, o, t) <= u - t
    {
      CountMonotone(items, o, t, u);
      CountBound(streams, items, o, u);
    }
  }

  /** In a routed group every stream's window brackets the query. */
  lemma WindowBrackets(index: Index, K: nat, g: nat, boundary: Key, query: Key, o: nat)
    requires K > 0 && NodeExact(index, K) && Routed(index, K, g, boundary, query) && o < 3
    ensures var items := Augmented(index);
            WindowOf(StreamsOf(index)[o], CountTo(items, o, Times(g, K)), Count(items, o, GroupEnd(items, g, K)),
                     boundary, query)
  {
    var items, streams := Augmented(index), StreamsOf(index);
    var first, end := Times(g, K), GroupEnd(items, g, K);
    GroupCounts(streams, items, first, end);
    var keys := streams[o];
    forall x | 0 <= x < Count(items, o, first) ensures Le(keys[x], boundary) {
      BelowCut(streams, items, o, x, first, first);
    }
    forall x | Count(items, o, first) <= x < |keys| ensures Le(boundary, keys[x]) {
      AboveCut(streams, items, o, x, first, first);
      EmptyIsLeast(keys[x]);
    }
    forall x | Count(items, o, end) <= x < |keys| ensures Lt(query, keys[x]) {
      if end < |items| {
        AboveCut(streams, items, o, x, end, end);
        LcpOrderedMin(query, items[end].key, keys[x]);
        OrderTotal(query, items[end].key);
      }
    }
  }

  // ----- false borrows

  /** A false borrow of the query whose native is not in the window: it is the entry just before it. */
  lemma FalseBorrowRecovers(index: Index, K: nat, r: nat, j: nat, first: nat, last: nat, boundary: Key, query: Key)
    requires K > 0 && NodeExact(index, K) && r < 2 && j < |index.borrowed[r].keys|
    requires WindowOf(index.native.keys, first, last, boundary, query)
    requires index.borrowed[r].keys[j] == query && index.flags[r][j]
    requires forall x | first <= x < last :: index.native.keys[x] != query
    ensures first > 0 && index.native.keys[first - 1] == query
  {
    var streams := StreamsOf(index);
    assert index.flags[r][j] == FalseBorrow(streams, r, j);
    assert streams[r + 1] == index.borrowed[r].keys;
    var x :| 0 <= x < |index.native.keys| && index.native.keys[x] == query;
    MissedEntry(index.native.keys, first, last, boundary, query, x);
  }

  /** If the query's native entry precedes the group, the group opens with an equal false borrow. */
  lemma MissedHasFalseBorrow(index: Index, K: nat, g: nat, boundary: Key, query: Key, x: nat) returns (r: nat)
    requires K > 0 && NodeExact(index, K) && Routed(index, K, g, boundary, query)
    requires var items := Augmented(index);
             x < |index.native.keys| && index.native.keys[x] == query && x < CountTo(items, 0, Times(g, K))
    ensures r < 2
    ensures var items := Augmented(index);
            var j := CountTo(items, r + 1, Times(g, K));
            && j < Count(items, r + 1, GroupEnd(items, g, K)) <= |index.borrowed[r].keys|
            && index.borrowed[r].keys[j] == query && j < |index.flags[r]| && index.flags[r][j]
  {
    var items, streams := Augmented(index), StreamsOf(index);
    var t := Times(g, K);
    OpensBorrowed(index, K, g, boundary, query, x);
    r := items[t].origin - 1;
    CountMonotone(items, r + 1, t + 1, GroupEnd(items, g, K));
    CountBound(streams, items, r + 1, GroupEnd(items, g, K));
    assert TakesBest(streams, items, t);
    assert streams[r + 1] == index.borrowed[r].keys;
    var j := Count(items, r + 1, t);
    assert index.flags[r][j] == FalseBorrow(streams, r, j);
    assert streams[0][x] == query;
  }

  /** The group then opens with the query itself, and not with a native entry. */
  lemma OpensBorrowed(index: Index, K: nat, g: nat, boundary: Key, query: Key, x: nat)
    requires K > 0 && NodeExact(index, K) && Routed(index, K, g, boundary, query)
    requires var items := Augmented(index);
             x < |index.native.keys| && index.native.keys[x] == query && x < CountTo(items, 0, Times(g, K))
    ensures var items, t := Augmented(index), Times(g, K); t < |items| && items[t].key == query && 0 < items[t].origin < 3
  {
    var items, streams := Augmented(index), StreamsOf(index);
    var t := Times(g, K);
    BelowCut(streams, items, 0, x, t, t);
    assert boundary == items[t].key;
    OrderTotal(items[t].key, query);
    assert TakesBest(streams, items, t);
    if Count(items, 0, t) < |streams[0]| { IncreasingDistinct(streams[0], x, Count(items, 0, t)); }
  }

  // ----- one route of a window search

  /** What a route search must return. */
  ghost predicate PredecessorExact(keys: seq<Key>, flags: seq<bool>, K: nat, query: Key, p: Option<Predecessor>) {
    if p.None? then IsPredecessor(keys, query, None)
    else
      && IsPredecessor(keys, query, Some(p.value.ordinal))
      && p.value.targetOrdinal == Times(p.value.ordinal, K)
      && p.value.ordinal < |flags| && p.value.falseBorrow == flags[p.value.ordinal]
      && p.value.comparison.query == query && p.value.comparison.order <= 0
      && Describes(p.value.comparison, keys[p.value.ordinal])
  }

  /** Every equal false borrow of this route has its native entry just before the native window. */
  ghost predicate Recovers(native: seq<Key>, nativeFirst: nat, keys: seq<Key>, flags: seq<bool>, query: Key) {
    && |flags| == |keys|
    && forall j | 0 <= j < |keys| && keys[j] == query && flags[j] ::
         0 < nativeFirst <= |native| && native[nativeFirst - 1] == query
  }

  ghost predicate Hit(native: seq<Key>, query: Key, found: Option<nat>) {
    found.Some? ==> found.value < |native| && native[found.value] == query
  }

  lemma WindowRecovers(index: Index, K: nat, r: nat, first: nat, last: nat, boundary: Key, query: Key)
    requires K > 0 && NodeExact(index, K) && r < 2
    requires WindowOf(index.native.keys, first, last, boundary, query)
    requires forall x | first <= x < last :: index.native.keys[x] != query
    ensures Recovers(index.native.keys, first, index.borrowed[r].keys, index.flags[r], query)
  {
    var keys, flags := index.borrowed[r].keys, index.flags[r];
    assert StreamsOf(index)[r + 1] == keys && |flags| == |keys|;
    forall j | 0 <= j < |keys| && keys[j] == query && flags[j]
      ensures 0 < first <= |index.native.keys| && index.native.keys[first - 1] == query
    {
      FalseBorrowRecovers(index, K, r, j, first, last, boundary, query);
    }
  }

  /** `remember`: record a candidate and, if it is an equal false borrow and nothing native was found, the
      native entry before the window. The error on an empty native prefix cannot be taken. */
  method Remember(native: seq<Key>, nativeFirst: nat, keys: seq<Key>, flags: seq<bool>, K: nat, ordinal: nat,
                  comparison: Context, found: Option<nat>)
    returns (p: Predecessor, next: Option<nat>)
    requires ordinal < |keys| == |flags| && Describes(comparison, keys[ordinal])
    requires Hit(native, comparison.query, found)
    requires found.None? ==> Recovers(native, nativeFirst, keys, flags, comparison.query)
    ensures p == Predecessor(ordinal, Times(ordinal, K), flags[ordinal], comparison)
    ensures Hit(native, comparison.query, next) && (found.Some? ==> next == found)
    ensures keys[ordinal] == comparison.query && flags[ordinal] ==> next.Some?
  {
    OrderZero(keys[ordinal], comparison.query);
    var isFalse := flags[ordinal];
    p := Predecessor(ordinal, Times(ordinal, K), isFalse, comparison);
    next := found;
    if comparison.order == 0 && isFalse && found.None? {
      assert nativeFirst > 0;
      next := Some(nativeFirst - 1);
    }
  }

  /** The borrowed window of one route: every record at or below the query is remembered, the last one stays. */
  method ScanBorrows(native: seq<Key>, nativeFirst: nat, run: Run, flags: seq<bool>, K: nat, first: nat, last: nat,
                     context: Context, native0: Option<nat>, ghost boundary: Key)
    returns (p: Option<Predecessor>, found: Option<nat>)
    requires Framed(run) && Nondecreasing(run.keys) && |flags| == |run.keys|
    requires WindowOf(run.keys, first, last, boundary, context.query) && Describes(context, boundary)
    requires Hit(native, context.query, native0)
    requires native0.None? ==> Recovers(native, nativeFirst, run.keys, flags, context.query)
    ensures p.Some? ==> PredecessorExact(run.keys, flags, K, context.query, p)
    ensures p.None? ==> found == native0 && (first < |run.keys| ==> Lt(context.query, run.keys[first]))
    ensures Hit(native, context.query, found) && (native0.Some? ==> found == native0)
    ensures first < last && run.keys[first] == context.query && flags[first] ==> found.Some?
  {
    p, found := None, native0;
    var c := context;
    ghost var previous := boundary;
    if first < last { WindowEntry(run, first, last, boundary, c.query); }
    var i := first;
    while i < last
      invariant first <= i <= last && c.query == context.query
      invariant Describes(c, previous) && c.order <= 0 && (i < last ==> Readable(run, i, previous))
      invariant i == first ==> p.None? && found == native0
      invariant first < i ==> p == Some(Predecessor(i - 1, Times(i - 1, K), flags[i - 1], c))
      invariant first < i ==> previous == run.keys[i - 1]
      invariant Hit(native, context.query, found) && (native0.Some? ==> found == native0)
      invariant first < i && run.keys[first] == context.query && flags[first] ==> found.Some?
    {
      var read := ReadRecord(run, i, c, previous);
      if read.order > 0 {
        ScanStops(run.keys, i, context.query);
        return;
      }
      var remembered;
      remembered, found := Remember(native, nativeFirst, run.keys, flags, K, i, read, found);
      p, c := Some(remembered), read;
      NextReadable(run, i);
      previous := run.keys[i];
      i := i + 1;
    }
  }

  lemma ScanStops(keys: seq<Key>, i: nat, query: Key)
    requires i < |keys| && Order(keys[i], query) > 0
    ensures Lt(query, keys[i]) && keys[i] != query
  {
    LcpSymmetric(keys[i], query);
    OrderZero(keys[i], query);
  }

  /** One route of `search_window`: the last borrow at or below the query in the window, or the borrow just
      before the window through the cut prefix. */
  method SearchRoute(index: Index, K: nat, g: nat, r: nat, w: Window, context: Context, native: Option<nat>,
                     ghost boundary: Key)
    returns (p: Option<Predecessor>, found: Option<nat>)
    requires K > 0 && NodeExact(index, K) && r < 2
    requires Routed(index, K, g, boundary, context.query) && Describes(context, boundary)
    requires WindowExact(Augmented(index), K, g, w)
    requires Hit(index.native.keys, context.query, native)
    requires native.None? ==>
               Recovers(index.native.keys, w.nativeFirst, index.borrowed[r].keys, index.flags[r], context.query)
    ensures PredecessorExact(index.borrowed[r].keys, index.flags[r], K, context.query, p)
    ensures Hit(index.native.keys, context.query, found) && (native.Some? ==> found == native)
    ensures OpensWithFalseBorrow(index, w, r, context.query) ==> found.Some?
  {
    var run, flags, first := index.borrowed[r], index.flags[r], w.borrowedFirst[r];
    RouteWindow(index, K, g, r, w, boundary, context.query);
    hide Framed, Nondecreasing, Recovers, Hit, Describes;
    p, found := ScanBorrows(index.native.keys, w.nativeFirst, run, flags, K, first, w.borrowedLast[r], context,
                            native, boundary);
    if p.None? && first > 0 {
      BorrowBefore(index, K, g, r, first, boundary, context);
      p, found := RememberBefore(index.native.keys, w.nativeFirst, run.keys, flags, K, first,
                                 StepBack(context, index.cuts[r][g]), found);
    }
  }

  /** No borrow of the group lies at or below the query: its cut tells about the last one before the group. */
  method RememberBefore(native: seq<Key>, nativeFirst: nat, keys: seq<Key>, flags: seq<bool>, K: nat, first: nat,
                        comparison: Context, found: Option<nat>)
    returns (p: Option<Predecessor>, next: Option<nat>)
    requires 0 < first <= |keys| == |flags| && Describes(comparison, keys[first - 1]) && comparison.order <= 0
    requires first < |keys| ==> Lt(comparison.query, keys[first])
    requires Nondecreasing(keys) && Hit(native, comparison.query, found)
    requires found.None? ==> Recovers(native, nativeFirst, keys, flags, comparison.query)
    ensures PredecessorExact(keys, flags, K, comparison.query, p)
    ensures Hit(native, comparison.query, next) && (found.Some? ==> next == found)
  {
    hide Nondecreasing, Hit, Recovers;
    var remembered;
    remembered, next := Remember(native, nativeFirst, keys, flags, K, first - 1, comparison, found);
    p := Some(remembered);
  }

  ghost predicate OpensWithFalseBorrow(index: Index, w: Window, r: nat, query: Key) {
    && r < |w.borrowedFirst| == |w.borrowedLast| && r < |index.borrowed| == |index.flags|
    && w.borrowedFirst[r] < w.borrowedLast[r] <= |index.borrowed[r].keys| == |index.flags[r]|
    && index.borrowed[r].keys[w.borrowedFirst[r]] == query && index.flags[r][w.borrowedFirst[r]]
  }

  lemma RouteWindow(index: Index, K: nat, g: nat, r: nat, w: Window, boundary: Key, query: Key)
    requires K > 0 && NodeExact(index, K) && r < 2
    requires Routed(index, K, g, boundary, query) && WindowExact(Augmented(index), K, g, w)
    ensures Framed(index.borrowed[r]) && Nondecreasing(index.borrowed[r].keys)
    ensures |index.flags[r]| == |index.borrowed[r].keys|
    ensures WindowOf(index.borrowed[r].keys, w.borrowedFirst[r], w.borrowedLast[r], boundary, query)
  {
    WindowBrackets(index, K, g, boundary, query, r + 1);
    assert StreamsOf(index)[r + 1] == index.borrowed[r].keys;
  }

  /** The cut prefix is the last borrow's common prefix with the group's first key, so stepping back by it
      describes that borrow. */
  lemma BorrowBefore(index: Index, K: nat, g: nat, r: nat, first: nat, boundary: Key, context: Context)
    requires K > 0 && NodeExact(index, K) && r < 2
    requires Routed(index, K, g, boundary, context.query) && Describes(context, boundary)
    requires first == CountTo(Augmented(index), r + 1, Times(g, K)) && first > 0
    ensures first <= |index.borrowed[r].keys| && g < |index.cuts[r]|
    ensures var c := StepBack(context, index.cuts[r][g]);
            Admits(context, index.cuts[r][g]) && c.order <= 0 && Describes(c, index.borrowed[r].keys[first - 1])
  {
    var items, streams := Augmented(index), StreamsOf(index);
    GroupIndex(g, index.count, K);
    CountBound(streams, items, r + 1, Times(g, K));
    BelowCut(streams, items, r + 1, first - 1, Times(g, K), Times(g, K));
    assert index.cuts[r][g] == CutAt(streams, items, r, g, K);
    assert streams[r + 1] == index.borrowed[r].keys && g > 0;
    StepBackDescribes(context, boundary, index.borrowed[r].keys[first - 1]);
  }

  /** `search_window`: the exact native match of the query in this node, and the exact borrowed predecessor on
      each route, from one group of at most K occurrences. */
  method SearchWindow(index: Index, K: nat, g: nat, context: Context, ghost boundary: Key)
    returns (result: WindowResult)
    requires K > 0 && NodeExact(index, K)
    requires Routed(index, K, g, boundary, context.query) && Describes(context, boundary)
    ensures IsFound(index.native.keys, context.query, result.native)
    ensures |result.predecessors| == 2
    ensures PredecessorExact(index.borrowed[0].keys, index.flags[0], K, context.query, result.predecessors[0])
    ensures PredecessorExact(index.borrowed[1].keys, index.flags[1], K, context.query, result.predecessors[1])
  {
    assert context.order <= 0;
    var w := Project(index, K, g);
    WindowBrackets(index, K, g, boundary, context.query, 0);
    var inWindow := FindInWindow(index.native, w.nativeFirst, w.nativeLast, context, boundary);
    if inWindow.None? {
      WindowRecovers(index, K, 0, w.nativeFirst, w.nativeLast, boundary, context.query);
      WindowRecovers(index, K, 1, w.nativeFirst, w.nativeLast, boundary, context.query);
    }
    var main, found := SearchRoute(index, K, g, 0, w, context, inWindow, boundary);
    var side, native := SearchRoute(index, K, g, 1, w, context, found, boundary);
    if native.None? { NothingMissed(index, K, g, w, boundary, context.query); }
    result := WindowResult(native, [main, side]);
  }

  /** A native entry outside its window always shows as a false borrow that opens the group. */
  lemma NothingMissed(index: Index, K: nat, g: nat, w: Window, boundary: Key, query: Key)
    requires K > 0 && NodeExact(index, K) && Routed(index, K, g, boundary, query)
    requires WindowExact(Augmented(index), K, g, w)
    requires forall x | w.nativeFirst <= x < w.nativeLast <= |index.native.keys| :: index.native.keys[x] != query
    requires !OpensWithFalseBorrow(index, w, 0, query) && !OpensWithFalseBorrow(index, w, 1, query)
    ensures query !in index.native.keys
  {
    WindowBrackets(index, K, g, boundary, query, 0);
    if query in index.native.keys {
      var x :| 0 <= x < |index.native.keys| && index.native.keys[x] == query;
      MissedEntry(index.native.keys, w.nativeFirst, w.nativeLast, boundary, query, x);
      var r := MissedHasFalseBorrow(index, K, g, boundary, query, x);
      assert OpensWithFalseBorrow(index, w, r, query);
    }
  }
}
