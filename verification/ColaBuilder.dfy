/** The incremental fractional-index builder (cola_index_builder). */
module ColaBuilder {
  // The builder never compares two whole keys. From carried common prefixes it derives the order of the three
  // streams, the cut prefixes, the false-borrow flags, the group populations and the prefix handed to the borrowed
  // writers; the class invariant says that all of these equal their direct definitions in ColaSpec.

  import opened Options
  import opened Keys
  import opened StableMerge
  import opened Frontier
  import opened ColaSpec
  import opened SampleCursors

  /** What one route has accumulated: the borrowed output with its known prefixes, and the navigation. */
  datatype Route = Route(
    keys: seq<Key>,
    known: seq<nat>,
    flags: seq<bool>,
    cuts: seq<nat>,
    ranks: seq<nat>,
    cutCommon: nat,
    population: nat)

  const EmptyRoute := Route([], [], [], [], [], 0, 0)

  function LowerCut(route: Route, common: nat): Route {
    if route.keys == [] then route else route.(cutCommon := Min(route.cutCommon, common))
  }

  function PushCut(route: Route): Route {
    route.(cuts := route.cuts + [if route.keys == [] then 0 else route.cutCommon])
  }

  function AppendBorrow(route: Route, key: Key, nativeEqual: bool): Route {
    route.(keys := route.keys + [key],
           known := route.known + [if route.keys == [] then 0 else route.cutCommon],
           flags := route.flags + [nativeEqual],
           population := route.population + 1,
           cutCommon := |key|)
  }

  function FlushRank(route: Route): Route {
    route.(ranks := route.ranks + [route.population], population := 0)
  }

  /** The prefix `append_known` may rely on: the common prefix of a borrow with the one before it. */
  function KnownAt(stream: seq<Key>, b: nat): nat
    requires b < |stream|
  {
    if b == 0 then 0 else Lcp(stream[b - 1], stream[b])
  }

  ghost predicate KnownExact(stream: seq<Key>, known: seq<nat>)
    requires |known| <= |stream|
  {
    forall b | 0 <= b < |known| :: known[b] == KnownAt(stream, b)
  }

  /** After t occurrences, with `groups` complete groups and `started` cuts, everything the route holds is
      exact; the cut prefix relates the last borrow to `facing`. */
  ghost predicate RouteAt(streams: Streams, items: seq<Item>, r: nat, K: nat, t: nat,
                          groups: nat, started: nat, facing: Key, route: Route)
    requires r + 1 < |streams| && t <= |items|
  {
    && |route.keys| == |route.known| == |route.flags| == Count(items, r + 1, t) <= |streams[r + 1]|
    && route.keys == streams[r + 1][..|route.keys|]
    && KnownExact(streams[r + 1], route.known)
    && FlagsExact(streams, r, route.flags)
    && |route.cuts| == started && CutsExact(streams, items, r, K, route.cuts)
    && |route.ranks| == groups && PopulationsExact(items, r, K, route.ranks)
    && route.population == Count(items, r + 1, t) - CountTo(items, r + 1, Times(groups, K))
    && (route.keys != [] ==> route.cutCommon == Lcp(route.keys[|route.keys| - 1], facing))
  }

  /** The minimum of adjacent common prefixes since the last borrow is its common prefix with this key. */
  lemma LowerCutExact(streams: Streams, items: seq<Item>, r: nat, K: nat, t: nat, groups: nat, started: nat,
                      route: Route)
    requires Trusted(streams, items) && r < 2 && t < |items|
    requires RouteAt(streams, items, r, K, t, groups, started, Previous(items, t), route)
    ensures RouteAt(streams, items, r, K, t, groups, started, items[t].key,
                    LowerCut(route, Lcp(Previous(items, t), items[t].key)))
  {
    if route.keys != [] {
      var x := |route.keys| - 1;
      assert route.keys[x] == streams[r + 1][x];
      BelowCut(streams, items, r + 1, x, t, t - 1);
      Sorted(streams, items, t - 1, t);
      LcpOrderedMin(route.keys[x], items[t - 1].key, items[t].key);
    }
  }

  /** A cut recorded at a group's first key is the direct one. */
  lemma PushCutExact(streams: Streams, items: seq<Item>, r: nat, K: nat, t: nat, groups: nat, route: Route)
    requires r + 1 < |streams| && t < |items| && t == Times(groups, K)
    requires RouteAt(streams, items, r, K, t, groups, groups, items[t].key, route)
    ensures RouteAt(streams, items, r, K, t, groups, groups + 1, items[t].key, PushCut(route))
  {
    var next := PushCut(route);
    forall g | 0 <= g < groups + 1 ensures next.cuts[g] == CutAt(streams, items, r, g, K) {
      if g == groups && route.keys != [] {
        assert route.keys[|route.keys| - 1] == streams[r + 1][|route.keys| - 1];
      }
    }
  }

  /** Native equality carried along the merge: the key just consumed has an equal native key exactly when
      it is native itself, or equals its predecessor and the predecessor had one. */
  lemma NativeEqualStep(streams: Streams, items: seq<Item>, t: nat)
    requires Trusted(streams, items) && t < |items|
    ensures items[t].origin == 0 ==> items[t].key in streams[0]
    ensures items[t].origin != 0 ==>
              (items[t].key in streams[0]
               <==> t > 0 && items[t - 1].key == items[t].key && items[t - 1].key in streams[0])
    ensures t > 0 && items[t].origin == 0 ==> items[t - 1].key != items[t].key
  {
    assert TakesBest(streams, items, t);
    var key := items[t].key;
    if items[t].origin != 0 && key in streams[0] {
      var x :| 0 <= x < |streams[0]| && streams[0][x] == key;
      var p := PositionAfter(streams, items, 0, x, 0);
      if p >= t {
        Sorted(streams, items, t, p);
        assert false;
      }
      Sorted(streams, items, p, t - 1);
      Sorted(streams, items, t - 1, t);
      OrderTotal(items[t - 1].key, key);
    }
    if t > 0 && items[t].origin == 0 && items[t - 1].key == key {
      Sorted(streams, items, t - 1, t);
      assert TakesBest(streams, items, t - 1);
      IncreasingDistinct(streams[0], Count(items, 0, t - 1), Count(items, 0, t));
      assert false;
    }
  }

  /** Equality with the preceding key is read off three lengths. */
  lemma EqualByLength(a: Key, b: Key)
    ensures (Lcp(a, b) == |a| && |b| == |a|) <==> a == b
  {
    LcpIs(a, b);
  }

  /** Emitting a borrow, or passing over another stream's occurrence, keeps the route exact. */
  lemma BorrowExact(streams: Streams, items: seq<Item>, r: nat, K: nat, t: nat, groups: nat, started: nat,
                    route: Route)
    requires Trusted(streams, items) && r < 2 && t < |items| && Times(groups, K) <= t
    requires RouteAt(streams, items, r, K, t, groups, started, items[t].key, route)
    requires items[t].origin == r + 1
    ensures RouteAt(streams, items, r, K, t + 1, groups, started, items[t].key,
                    AppendBorrow(route, items[t].key, items[t].key in streams[0]))
  {
    assert TakesBest(streams, items, t);
    var x := |route.keys|;
    var next := AppendBorrow(route, items[t].key, items[t].key in streams[0]);
    assert streams[r + 1][..x + 1] == streams[r + 1][..x] + [streams[r + 1][x]];
    if x > 0 { assert route.keys[x - 1] == streams[r + 1][x - 1]; }
    OrderZero(items[t].key, items[t].key);
    forall b | 0 <= b < x + 1 ensures next.known[b] == KnownAt(streams[r + 1], b) {}
  }

  lemma PassOver(streams: Streams, items: seq<Item>, r: nat, K: nat, t: nat, groups: nat, started: nat,
                 route: Route)
    requires r + 1 < |streams| && t < |items|
    requires RouteAt(streams, items, r, K, t, groups, started, items[t].key, route) && items[t].origin != r + 1
    ensures RouteAt(streams, items, r, K, t + 1, groups, started, items[t].key, route)
  {
  }

  /** A flushed population is the group's. */
  lemma FlushExact(streams: Streams, items: seq<Item>, r: nat, K: nat, t: nat, groups: nat, started: nat,
                   route: Route)
    requires r + 1 < |streams| && t <= |items|
    requires RouteAt(streams, items, r, K, t, groups, started, Previous(items, t), route)
    requires t == Min(Times(groups, K) + K, |items|)
    ensures RouteAt(streams, items, r, K, t, groups + 1, started, Previous(items, t), FlushRank(route))
  {
    var next := FlushRank(route);
    forall g | 0 <= g < groups + 1 ensures next.ranks[g] == PopulationAt(items, r, g, K) {}
  }

  /** One consumed occurrence, as seen by route r: lower the cut prefix, record a cut at a group start, and
      emit the key if it is this route's borrow. */
  function StepRoute(route: Route, r: nat, origin: nat, key: Key, edge: nat, width: nat, nativeEqual: bool): Route {
    var lowered := LowerCut(route, edge);
    var cut := if width == 0 then PushCut(lowered) else lowered;
    if origin == r + 1 then AppendBorrow(cut, key, nativeEqual) else cut
  }

  function Started(groups: nat, width: nat): nat {
    if width == 0 then groups else groups + 1
  }

  lemma StepRouteExact(streams: Streams, items: seq<Item>, r: nat, K: nat, t: nat, groups: nat, width: nat,
                       route: Route)
    requires Trusted(streams, items) && r < 2 && t < |items| && t == Times(groups, K) + width
    requires RouteAt(streams, items, r, K, t, groups, Started(groups, width), Previous(items, t), route)
    ensures RouteAt(streams, items, r, K, t + 1, groups, groups + 1, items[t].key,
                    StepRoute(route, r, items[t].origin, items[t].key,
                              Lcp(Previous(items, t), items[t].key), width, items[t].key in streams[0]))
  {
    var lowered := LowerCut(route, Lcp(Previous(items, t), items[t].key));
    LowerCutExact(streams, items, r, K, t, groups, Started(groups, width), route);
    var cut := if width == 0 then PushCut(lowered) else lowered;
    if width == 0 { PushCutExact(streams, items, r, K, t, groups, lowered); }
    if items[t].origin == r + 1 {
      BorrowExact(streams, items, r, K, t, groups, groups + 1, cut);
    } else {
      PassOver(streams, items, r, K, t, groups, groups + 1, cut);
    }
  }

  /** The builder's navigation state. */
  datatype Book = Book(routes: seq<Route>, previousLength: nat, count: nat, width: nat, nativeEqual: bool)

  function EmptyBook(): Book {
    Book([EmptyRoute, EmptyRoute], 0, 0, 0, false)
  }

  function Complete(book: Book): nat
    requires |book.routes| == 2
  {
    |book.routes[0].ranks|
  }

  ghost predicate BookAt(streams: Streams, items: seq<Item>, K: nat, book: Book) {
    && |streams| == 3 && |book.routes| == 2 && book.count <= |items|
    && book.count == Times(Complete(book), K) + book.width && book.width < K
    && RouteAt(streams, items, 0, K, book.count, Complete(book), Started(Complete(book), book.width),
               Previous(items, book.count), book.routes[0])
    && RouteAt(streams, items, 1, K, book.count, Complete(book), Started(Complete(book), book.width),
               Previous(items, book.count), book.routes[1])
  }

  /** What is kept of the preceding key: its length, and whether an equal native key exists. */
  ghost predicate Remembers(streams: Streams, items: seq<Item>, book: Book) {
    0 < book.count <= |items| && |streams| > 0 ==>
      && book.previousLength == |items[book.count - 1].key|
      && book.nativeEqual == (items[book.count - 1].key in streams[0])
  }

  function FlushGroup(book: Book): Book
    requires |book.routes| == 2
  {
    book.(routes := [FlushRank(book.routes[0]), FlushRank(book.routes[1])], width := 0)
  }

  /** Both routes recorded: complete the group if it is full. */
  method CloseStep(K: nat, book: Book, ghost streams: Streams, ghost items: seq<Item>) returns (next: Book)
    requires |streams| == 3 && |book.routes| == 2 && 0 < book.count <= |items| && 0 < book.width <= K
    requires |book.routes[0].ranks| == Complete(book) && book.count == Times(Complete(book), K) + book.width
    requires RouteAt(streams, items, 0, K, book.count, Complete(book), Complete(book) + 1,
                     Previous(items, book.count), book.routes[0])
    requires RouteAt(streams, items, 1, K, book.count, Complete(book), Complete(book) + 1,
                     Previous(items, book.count), book.routes[1])
    ensures BookAt(streams, items, K, next)
    ensures next.count == book.count && next.previousLength == book.previousLength
    ensures next.nativeEqual == book.nativeEqual
  {
    next := book;
    if book.width == K {
      FlushExact(streams, items, 0, K, book.count, Complete(book), Complete(book) + 1, book.routes[0]);
      FlushExact(streams, items, 1, K, book.count, Complete(book), Complete(book) + 1, book.routes[1]);
      next := FlushGroup(book);
    }
  }

  /** Record a chosen occurrence on both routes. The sortedness error of the original cannot be taken. */
  method Record(K: nat, book: Book, origin: nat, key: Key, edge: nat,
                ghost streams: Streams, ghost items: seq<Item>) returns (next: Book)
    requires Trusted(streams, items) && BookAt(streams, items, K, book) && Remembers(streams, items, book)
    requires book.count < |items| && items[book.count] == Item(origin, key)
    requires edge == Lcp(Previous(items, book.count), key)
    ensures BookAt(streams, items, K, next) && Remembers(streams, items, next) && next.count == book.count + 1
  {
    ghost var t, groups := book.count, Complete(book);
    var equal := book.count > 0 && edge == book.previousLength && |key| == book.previousLength;
    if t > 0 { EqualByLength(items[t - 1].key, key); }
    NativeEqualStep(streams, items, t);
    assert !(origin == 0 && equal);
    var nativeEqual := origin == 0 || (equal && book.nativeEqual);
    StepRouteExact(streams, items, 0, K, t, groups, book.width, book.routes[0]);
    StepRouteExact(streams, items, 1, K, t, groups, book.width, book.routes[1]);
    var first := StepRoute(book.routes[0], 0, origin, key, edge, book.width, nativeEqual);
    var second := StepRoute(book.routes[1], 1, origin, key, edge, book.width, nativeEqual);
    next := Book([first, second], |key|, book.count + 1, book.width + 1, nativeEqual);
    next := CloseStep(K, next, streams, items);
  }

  lemma InitialRoute(streams: Streams, items: seq<Item>, r: nat, K: nat)
    requires r + 1 < |streams|
    ensures RouteAt(streams, items, r, K, 0, 0, 0, [], EmptyRoute)
  {
  }

  // ----- source cursors at sample positions

  /** Where a cursor over `keys` stands when it faces sample x of every K. */
  function SampleStart(keys: seq<Key>, K: nat, x: nat): nat {
    Min(Times(x, K), |keys|)
  }

  lemma SampleHead(keys: seq<Key>, K: nat, x: nat)
    requires K > 0
    ensures SampleStart(keys, K, x) < |keys| <==> x < |EveryKth(keys, K)|
    ensures x < |EveryKth(keys, K)| ==> EveryKth(keys, K)[x] == keys[SampleStart(keys, K, x)]
  {
    GroupIndex(x, |keys|, K);
    if x < |EveryKth(keys, K)| { assert EveryKth(keys, K)[x] == SampleAt(keys, K, x); }
  }

  lemma SampleNext(keys: seq<Key>, K: nat, x: nat)
    requires K > 0
    ensures SampleStart(keys, K, x + 1) == Min(SampleStart(keys, K, x) + K, |keys|)
  {
  }

  /** The sampled streams of a builder's three sources. */
  ghost function SourceStreams(native: Run, main: Option<Index>, secondary: Option<Run>, K: nat): Streams
    requires K > 0
  {
    [native.keys,
     EveryKth(ItemKeys(TargetOrder(main)), K),
     if secondary.None? then [] else EveryKth(secondary.value.keys, K)]
  }

  ghost predicate TrustedSources(native: Run, main: Option<Index>, secondary: Option<Run>, K: nat) {
    && K > 0 && NativeRun(native)
    && (main.Some? ==> WellFormed(main.value, K))
    && (secondary.Some? ==> NativeRun(secondary.value))
  }

  lemma SourcesTrusted(native: Run, main: Option<Index>, secondary: Option<Run>, K: nat)
    requires TrustedSources(native, main, secondary, K)
    ensures var streams := SourceStreams(native, main, secondary, K); Trusted(streams, Merge(streams))
  {
    IncreasingNondecreasing(native.keys);
    if main.Some? {
      WellFormedSorted(main.value, K);
      EveryKthSorted(ItemKeys(Augmented(main.value)), K);
    }
    if secondary.Some? {
      IncreasingNondecreasing(secondary.value.keys);
      EveryKthSorted(secondary.value.keys, K);
    }
  }

  /** The three source cursors: an ordinal in the native run, a sample cursor of the main target, and an
      ordinal in the secondary run. */
  datatype Cursors = Cursors(nativeAt: nat, primary: CursorState, secondaryAt: nat)

  /** The bound sources: what the cursors walk. */
  datatype Sources = Sources(K: nat, native: seq<Key>, target: Streams, count: nat, side: seq<Key>)

  /** The sources' sampled streams are exactly the merged streams. */
  ghost predicate BoundTo(src: Sources, order: seq<Item>, streams: Streams, items: seq<Item>) {
    && src.K > 0 && Trusted(streams, items)
    && Trusted(src.target, order) && src.count == |order|
    && Increasing(src.side)
    && streams == [src.native, EveryKth(ItemKeys(order), src.K), EveryKth(src.side, src.K)]
  }

  /** The cursors face entries `pos` of the three streams. */
  ghost predicate Facing(src: Sources, order: seq<Item>, pos: seq<nat>, c: Cursors)
    requires src.K > 0
  {
    && |pos| == 3 && c.nativeAt == pos[0]
    && At(src.target, order, c.primary)
    && c.primary.ordinal == SampleStart(ItemKeys(order), src.K, pos[1])
    && c.secondaryAt == SampleStart(src.side, src.K, pos[2])
  }

  method PrimaryHead(src: Sources, c: CursorState, ghost order: seq<Item>) returns (head: Option<Key>)
    requires Trusted(src.target, order) && src.count == |order| && At(src.target, order, c)
    ensures head == if c.ordinal < |order| then Some(order[c.ordinal].key) else None
  {
    if c.ordinal == src.count { return None; }
    var origin, _ := SampleCursors.Choose(src.target, c, order);
    head := Some(src.target[origin][c.pos[origin]]);
  }

  /** The heads the three cursors expose are the heads of the sampled streams. */
  method SourceHeads(src: Sources, c: Cursors, ghost order: seq<Item>, ghost streams: Streams,
                     ghost items: seq<Item>, ghost pos: seq<nat>) returns (heads: seq<Option<Key>>)
    requires BoundTo(src, order, streams, items) && Facing(src, order, pos, c)
    ensures heads == HeadsAt(streams, pos)
  {
    var first := if c.nativeAt < |src.native| then Some(src.native[c.nativeAt]) else None;
    SampleHead(ItemKeys(order), src.K, pos[1]);
    var second := PrimaryHead(src, c.primary, order);
    SampleHead(src.side, src.K, pos[2]);
    var third := if c.secondaryAt < |src.side| then Some(src.side[c.secondaryAt]) else None;
    heads := [first, second, third];
  }

  /** Move the secondary cursor to its next sample, keeping the running minimum of adjacent prefixes. */
  method AdvanceSecondary(keys: seq<Key>, K: nat, start: nat) returns (at: nat, edge: nat)
    requires Increasing(keys) && start < |keys|
    ensures at == Min(start + K, |keys|)
    ensures at < |keys| ==> edge == Lcp(keys[start], keys[at])
  {
    at, edge := start, |keys[start]|;
    OrderZero(keys[start], keys[start]);
    var i := 0;
    while i < K && at < |keys|
      invariant i <= K && at == Min(start + i, |keys|)
      invariant at < |keys| ==> edge == Lcp(keys[start], keys[at])
    {
      var next := NextComparison(keys, at);
      if next.Some? {
        IncreasingMin(keys, start, at);
        assert next.value.order < 0;
      }
      edge := Min(edge, Edge(next));
      at := at + 1;
      i := i + 1;
    }
  }

  method AdvancePrimary(src: Sources, c: CursorState, ghost order: seq<Item>, ghost x: nat)
    returns (next: CursorState, edge: nat)
    requires src.K > 0 && Trusted(src.target, order) && src.count == |order| && At(src.target, order, c)
    requires c.ordinal == SampleStart(ItemKeys(order), src.K, x) < |order|
    ensures At(src.target, order, next) && next.ordinal == SampleStart(ItemKeys(order), src.K, x + 1)
    ensures var samples := EveryKth(ItemKeys(order), src.K);
            x + 1 < |samples| ==> edge == Lcp(samples[x], samples[x + 1])
  {
    SampleHead(ItemKeys(order), src.K, x);
    SampleHead(ItemKeys(order), src.K, x + 1);
    SampleNext(ItemKeys(order), src.K, x);
    var comparison;
    next, comparison := AdvanceState(src.target, src.K, src.count, c, true, order);
    edge := Frontier.Edge(comparison);
  }

  /** Advance the consumed source; `edge` is the common prefix of its old and new head. */
  method AdvanceSource(src: Sources, c: Cursors, origin: nat, ghost order: seq<Item>, ghost streams: Streams,
                       ghost items: seq<Item>, ghost pos: seq<nat>) returns (next: Cursors, edge: nat)
    requires BoundTo(src, order, streams, items) && Facing(src, order, pos, c)
    requires origin < 3 && pos[origin] < |streams[origin]|
    ensures Facing(src, order, pos[origin := pos[origin] + 1], next)
    ensures pos[origin] + 1 < |streams[origin]| ==>
              edge == Lcp(streams[origin][pos[origin]], streams[origin][pos[origin] + 1])
  {
    if origin == 0 {
      var comparison := NextComparison(src.native, c.nativeAt);
      NextInOrder(streams, items, 0, c.nativeAt);
      assert comparison.Some? ==> comparison.value.order < 0;
      next, edge := c.(nativeAt := c.nativeAt + 1), Frontier.Edge(comparison);
    } else if origin == 1 {
      SampleHead(ItemKeys(order), src.K, pos[1]);
      var primary;
      primary, edge := AdvancePrimary(src, c.primary, order, pos[1]);
      next := c.(primary := primary);
    } else {
      SampleHead(src.side, src.K, pos[2]);
      SampleHead(src.side, src.K, pos[2] + 1);
      SampleNext(src.side, src.K, pos[2]);
      var at;
      at, edge := AdvanceSecondary(src.side, src.K, c.secondaryAt);
      next := c.(secondaryAt := at);
    }
  }

  lemma IncreasingMin(keys: seq<Key>, i: nat, j: nat)
    requires Increasing(keys) && i <= j && j + 1 < |keys|
    ensures Lcp(keys[i], keys[j + 1]) == Min(Lcp(keys[i], keys[j]), Lcp(keys[j], keys[j + 1]))
    ensures Lt(keys[j], keys[j + 1])
  {
    IncreasingNondecreasing(keys);
    assert Le(keys[i], keys[j]) && Lt(keys[j], keys[j + 1]) && Le(keys[j], keys[j + 1]);
    LcpOrderedMin(keys[i], keys[j], keys[j + 1]);
  }

  // ----- the metadata-only path without targets

  /** With no borrows on a route, any number of native occurrences leaves it exact. */
  lemma TerminalJump(streams: Streams, items: seq<Item>, r: nat, K: nat, t: nat, u: nat, groups: nat,
                     started: nat, facing: Key, route: Route)
    requires IsMerge(streams, items) && r + 1 < |streams| && streams[r + 1] == [] && t <= u <= |items|
    requires RouteAt(streams, items, r, K, t, groups, started, facing, route)
    ensures forall other :: RouteAt(streams, items, r, K, u, groups, started, other, route)
  {
    CountBound(streams, items, r + 1, t);
    CountBound(streams, items, r + 1, u);
  }

  lemma TerminalStep(streams: Streams, items: seq<Item>, r: nat, K: nat, t: nat, u: nat, groups: nat,
                     width: nat, route: Route)
    requires IsMerge(streams, items) && r + 1 < |streams| && streams[r + 1] == []
    requires t < u <= |items| && t == Times(groups, K) + width
    requires RouteAt(streams, items, r, K, t, groups, Started(groups, width), Previous(items, t), route)
    ensures RouteAt(streams, items, r, K, u, groups, groups + 1, Previous(items, u),
                    if width == 0 then PushCut(route) else route)
  {
    TerminalJump(streams, items, r, K, t, t, groups, Started(groups, width), Previous(items, t), route);
    var cut := if width == 0 then PushCut(route) else route;
    if width == 0 { PushCutExact(streams, items, r, K, t, groups, route); }
    TerminalJump(streams, items, r, K, t, u, groups, groups + 1, items[t].key, cut);
  }

  /** One chunk of `step_terminal`: no key is read. */
  method TerminalChunk(K: nat, book: Book, chunk: nat, ghost streams: Streams, ghost items: seq<Item>)
    returns (next: Book)
    requires IsMerge(streams, items) && BookAt(streams, items, K, book) && streams[1] == streams[2] == []
    requires 0 < chunk && book.count + chunk <= |items| && book.width + chunk <= K
    ensures BookAt(streams, items, K, next) && next.count == book.count + chunk
  {
    ghost var t, groups := book.count, Complete(book);
    TerminalStep(streams, items, 0, K, t, t + chunk, groups, book.width, book.routes[0]);
    TerminalStep(streams, items, 1, K, t, t + chunk, groups, book.width, book.routes[1]);
    var first := if book.width == 0 then PushCut(book.routes[0]) else book.routes[0];
    var second := if book.width == 0 then PushCut(book.routes[1]) else book.routes[1];
    next := book.(routes := [first, second], count := book.count + chunk, width := book.width + chunk);
    next := CloseStep(K, next, streams, items);
  }

  method StepTerminal(K: nat, total: nat, book: Book, budget: nat, ghost streams: Streams, ghost items: seq<Item>)
    returns (next: Book, consumed: nat)
    requires IsMerge(streams, items) && BookAt(streams, items, K, book) && streams[1] == streams[2] == []
    requires K > 0 && total == |items|
    ensures BookAt(streams, items, K, next) && next.count == book.count + consumed
    ensures consumed == Min(budget, total - book.count)
  {
    next, consumed := book, 0;
    while consumed < budget && next.count < total
      invariant BookAt(streams, items, K, next) && next.count == book.count + consumed && consumed <= budget
    {
      var chunk := Min(budget - consumed, Min(total - next.count, K - next.width));
      next := TerminalChunk(K, next, chunk, streams, items);
      consumed := consumed + chunk;
    }
  }

  // ----- the builder

  function SideKeys(secondary: Option<Run>): seq<Key> {
    if secondary.None? then [] else secondary.value.keys
  }

  function BindSources(native: Run, main: Option<Index>, secondary: Option<Run>, K: nat): Sources
  {
    Sources(K, native.keys, TargetStreams(main), TargetCount(main), SideKeys(secondary))
  }

  lemma SourcesBound(native: Run, main: Option<Index>, secondary: Option<Run>, K: nat)
    requires TrustedSources(native, main, secondary, K)
    ensures var streams := SourceStreams(native, main, secondary, K);
            BoundTo(BindSources(native, main, secondary, K), TargetOrder(main), streams, Merge(streams))
  {
    SourcesTrusted(native, main, secondary, K);
    TargetTrusted(main, K);
  }

  /** What `finish` hands over for one route. */
  function Prefixes(known: seq<nat>, unit: nat): (retained: seq<nat>)
    requires unit > 0
    ensures |retained| == |known| && forall i | 0 <= i < |known| :: retained[i] == known[i] - known[i] % unit
  {
    seq(|known|, i requires 0 <= i < |known| => known[i] - known[i] % unit)
  }

  /** The borrowed stream a route's writer produced: prefixes are kept in whole units. */
  function BorrowedRun(route: Route, unit: nat): Run
    requires unit > 0
  {
    Run(route.keys, Prefixes(route.known, unit), seq(|route.keys|, _ => []))
  }

  function AssembleIndex(native: Run, main: Option<Index>, secondary: Option<Run>, book: Book, unit: nat): Index
    requires unit > 0 && |book.routes| == 2
  {
    var a, b := book.routes[0], book.routes[1];
    Index(native, [BorrowedRun(a, unit), BorrowedRun(b, unit)], [a.ranks, b.ranks], [a.flags, b.flags],
          [a.cuts, b.cuts], book.count, main, secondary)
  }

  /** The open cursors face the next occurrence, and the kept facts about the previous one are exact. */
  ghost predicate Following(src: Sources, order: seq<Item>, streams: Streams, items: seq<Item>, pos: seq<nat>,
                            cursors: Cursors, prefixes: seq<nat>, book: Book) {
    && src.K > 0 && Facing(src, order, pos, cursors)
    && FrontierAt(streams, items, book.count, pos, prefixes)
    && Remembers(streams, items, book)
  }

  /** One occurrence of the opened path of `step`. */
  method ConsumeOne(src: Sources, cursors: Cursors, prefixes: seq<nat>, book: Book, ghost order: seq<Item>,
                    ghost streams: Streams, ghost items: seq<Item>, ghost pos: seq<nat>)
    returns (nextBook: Book, nextCursors: Cursors, nextPrefixes: seq<nat>, ghost nextPos: seq<nat>)
    requires BoundTo(src, order, streams, items) && BookAt(streams, items, src.K, book)
    requires Following(src, order, streams, items, pos, cursors, prefixes, book) && book.count < |items|
    ensures BookAt(streams, items, src.K, nextBook) && nextBook.count == book.count + 1
    ensures Following(src, order, streams, items, nextPos, nextCursors, nextPrefixes, nextBook)
  {
    hide BookAt, Remembers, Increasing;
    var heads := SourceHeads(src, cursors, order, streams, items, pos);
    var origin, common, key := ChooseNext(heads, prefixes, streams, items, book.count, pos);
    nextBook := Record(src.K, book, origin, key, prefixes[origin], streams, items);
    var edge;
    nextCursors, edge := AdvanceSource(src, cursors, origin, order, streams, items, pos);
    FrontierAdvance(streams, items, book.count, pos, prefixes, origin, common, edge);
    nextPrefixes, nextPos := common[origin := edge], pos[origin := pos[origin] + 1];
  }

  class ColaIndexBuilder {
    const K: nat
    const native: Run
    const main: Option<Index>
    const secondary: Option<Run>
    const source: Sources
    /** The target's augmented order, the three sampled streams, and their merge. */
    ghost const order: seq<Item>
    ghost const streams: Streams
    ghost const items: seq<Item>
    /** Consumed entries of each of the three streams. */
    ghost var pos: seq<nat>
    var cursors: Cursors
    var prefixes: seq<nat>
    var book: Book
    var finished: bool

    /** Payload cursors exist only when there is a target. */
    predicate Opened() {
      main.Some? || secondary.Some?
    }

    /** The builder was given trusted sources and merges exactly their sampled streams. */
    ghost predicate Admitted() {
      && TrustedSources(native, main, secondary, K)
      && order == TargetOrder(main) && streams == SourceStreams(native, main, secondary, K)
    }

    /** Every recorded number is its direct definition for the first `book.count` merged occurrences. */
    ghost predicate Valid()
      reads this`pos, this`cursors, this`prefixes, this`book
    {
      && BoundTo(source, order, streams, items) && source.K == K && streams[0] == native.keys
      && BookAt(streams, items, K, book)
      && if Opened() then Following(source, order, streams, items, pos, cursors, prefixes, book)
         else streams[1] == streams[2] == []
    }

    constructor (stride: nat, native': Run, main': Option<Index>, secondary': Option<Run>)
      requires TrustedSources(native', main', secondary', stride)
      ensures Valid() && Admitted() && book.count == 0 && !finished
      ensures K == stride && native == native' && main == main' && secondary == secondary'
    {
      K, native, main, secondary := stride, native', main', secondary';
      source := BindSources(native', main', secondary', stride);
      order := TargetOrder(main');
      streams := SourceStreams(native', main', secondary', stride);
      items := Merge(SourceStreams(native', main', secondary', stride));
      pos, prefixes := seq(3, _ => 0), seq(3, _ => 0);
      cursors := Cursors(0, StartState(), 0);
      book := EmptyBook();
      finished := false;
      new;
      SourcesBound(native, main, secondary, K);
      InitialRoute(streams, items, 0, K);
      InitialRoute(streams, items, 1, K);
      TargetTrusted(main, K);
      FrontierStart(streams, items);
    }

    /** The original's test: every source at its end or, without targets, every native entry counted. */
    method Done() returns (done: bool)
      requires Valid()
      ensures done <==> book.count == |items|
    {
      if Opened() {
        var heads := SourceHeads(source, cursors, order, streams, items, pos);
        LiveIffBefore(streams, items, book.count);
        done := heads[0].None? && heads[1].None? && heads[2].None?;
      } else {
        LengthIsTotal(streams, items);
        done := book.count == |native.keys|;
      }
    }

    method Consume()
      requires Valid() && Opened() && book.count < |items|
      modifies this
      ensures Valid() && book.count == old(book.count) + 1 && finished == old(finished)
    {
      hide Following, BookAt, BoundTo;
      book, cursors, prefixes, pos := ConsumeOne(source, cursors, prefixes, book, order, streams, items, pos);
    }

    /** Consume at most `budget` merged occurrences. */
    method Step(budget: nat) returns (consumed: nat)
      requires Valid() && !finished
      modifies this
      ensures Valid() && !finished
      ensures consumed == Min(budget, |items| - old(book.count)) && book.count == old(book.count) + consumed
    {
      consumed := 0;
      if !Opened() {
        LengthIsTotal(streams, items);
        book, consumed := StepTerminal(K, |native.keys|, book, budget, streams, items);
        return;
      }
      var done := Done();
      while consumed < budget && !done
        invariant Valid() && !finished && consumed <= budget
        invariant book.count == old(book.count) + consumed
        invariant done <==> book.count == |items|
      {
        Consume();
        consumed := consumed + 1;
        done := Done();
      }
    }

    /** The finished node is well formed: all of its metadata is the direct one; and its borrowed streams retain
        everything neighbouring samples share, in whole units. */
    method Finish(unit: nat) returns (index: Index)
      requires Valid() && Admitted() && !finished && book.count == |items| && unit > 0
      modifies this
      ensures WellFormed(index, K) && finished
      ensures index.native == native && index.main == main && index.secondary == secondary
      ensures |index.borrowed| == 2
      ensures forall r, b | 0 <= r < 2 && 0 <= b < |index.borrowed[r].keys| ::
                var shared := if b == 0 then 0 else Lcp(index.borrowed[r].keys[b - 1], index.borrowed[r].keys[b]);
                b < |index.borrowed[r].retained| && index.borrowed[r].retained[b] == shared - shared % unit
    {
      assert |streams| == 3 && K > 0;
      hide BookAt, BookFinal, WellFormed, Trusted, BoundTo, TrustedSources, RouteAt, Remembers, Following, Facing, Opened;
      var last := CloseBook(K, book, streams, items);
      index := Assemble(native, main, secondary, K, last, unit, streams, items);
      finished := true;
    }
  }

  method ChooseNext(heads: seq<Option<Key>>, prefixes: seq<nat>, ghost streams: Streams, ghost items: seq<Item>,
                    ghost t: nat, ghost pos: seq<nat>) returns (origin: nat, common: seq<nat>, key: Key)
    requires Trusted(streams, items) && FrontierAt(streams, items, t, pos, prefixes) && t < |items|
    requires heads == HeadsAt(streams, pos)
    ensures Selected(heads, 3, origin, common)
    ensures items[t] == Item(origin, key) && key == streams[origin][pos[origin]]
    ensures prefixes[origin] == Lcp(Previous(items, t), key)
  {
    FrontierCarried(streams, items, t, pos, prefixes);
    origin, common := ChooseFrontier(prefixes, heads, Previous(items, t));
    if origin == 3 {
      assert TakesBest(streams, items, t);
      assert Live(heads, items[t].origin);
      assert false;
    }
    SelectedIsNext(streams, items, t, pos, prefixes, origin, common);
    key := heads[origin].value;
  }

  method Assemble(native: Run, main: Option<Index>, secondary: Option<Run>, K: nat, book: Book, unit: nat,
                  ghost streams: Streams, ghost items: seq<Item>) returns (index: Index)
    requires TrustedSources(native, main, secondary, K) && unit > 0
    requires streams == SourceStreams(native, main, secondary, K) && Trusted(streams, items)
    requires BookFinal(streams, items, K, book)
    ensures WellFormed(index, K) && index.native == native && index.main == main && index.secondary == secondary
    ensures |index.borrowed| == 2
    ensures forall r, b | 0 <= r < 2 && 0 <= b < |index.borrowed[r].keys| ::
              var shared := if b == 0 then 0 else Lcp(index.borrowed[r].keys[b - 1], index.borrowed[r].keys[b]);
              b < |index.borrowed[r].retained| && index.borrowed[r].retained[b] == shared - shared % unit
  {
    hide WellFormed, TrustedSources, Trusted, BookFinal, SourceStreams, BorrowedRun;
    FinalRoutes(streams, items, K, book, unit);
    AssembledWellFormed(native, main, secondary, K, book, unit, streams, items);
    AssembledKeeps(native, main, secondary, K, book, unit, streams, items);
    index := AssembleIndex(native, main, secondary, book, unit);
  }

  /** Close the last group, if one is open. */
  method CloseBook(K: nat, book: Book, ghost streams: Streams, ghost items: seq<Item>) returns (last: Book)
    requires BookAt(streams, items, K, book) && book.count == |items| && K > 0 && |streams| == 3
    ensures BookFinal(streams, items, K, last)
  {
    last := book;
    if book.width != 0 {
      last := CloseLast(K, book, streams, items);
    } else {
      GroupCountIs(|items|, K, Complete(book));
    }
  }

  /** The final partial group. */
  method CloseLast(K: nat, book: Book, ghost streams: Streams, ghost items: seq<Item>) returns (last: Book)
    requires BookAt(streams, items, K, book) && book.count == |items| && book.width > 0
    ensures BookFinal(streams, items, K, last)
  {
    FlushExact(streams, items, 0, K, book.count, Complete(book), Complete(book) + 1, book.routes[0]);
    FlushExact(streams, items, 1, K, book.count, Complete(book), Complete(book) + 1, book.routes[1]);
    last := FlushGroup(book);
    GroupCountIs(|items|, K, Complete(last));
  }

  ghost predicate BookFinal(streams: Streams, items: seq<Item>, K: nat, book: Book) {
    && |streams| == 3 && |book.routes| == 2 && book.count == |items| && K > 0
    && Complete(book) == GroupCount(|items|, K)
    && RouteAt(streams, items, 0, K, |items|, Complete(book), Complete(book), Previous(items, |items|), book.routes[0])
    && RouteAt(streams, items, 1, K, |items|, Complete(book), Complete(book), Previous(items, |items|), book.routes[1])
  }

  lemma FinalRoute(streams: Streams, items: seq<Item>, r: nat, K: nat, route: Route, unit: nat)
    requires Trusted(streams, items) && r < 2 && K > 0 && unit > 0
    requires RouteAt(streams, items, r, K, |items|, GroupCount(|items|, K), GroupCount(|items|, K),
                     Previous(items, |items|), route)
    ensures RouteExact(streams, items, r, K, route.ranks, route.flags, route.cuts)
    ensures route.keys == streams[r + 1] && Framed(BorrowedRun(route, unit))
  {
    assert Count(items, r + 1, |items|) == |streams[r + 1]|;
    assert route.keys == streams[r + 1];
    var run := BorrowedRun(route, unit);
    forall i | 0 < i < |run.keys| ensures run.retained[i] <= Lcp(run.keys[i - 1], run.keys[i]) {
      assert route.known[i] == KnownAt(streams[r + 1], i);
    }
    if |run.keys| > 0 { assert route.known[0] == KnownAt(streams[r + 1], 0); }
  }

  /** A front-coded stream that keeps everything neighbouring keys share, in whole units. */
  ghost predicate KeepsShared(run: Run, unit: nat)
    requires unit > 0
  {
    && |run.retained| == |run.keys|
    && forall b | 0 <= b < |run.keys| :: run.retained[b] == SharedUnits(run.keys, b, unit)
  }

  function SharedUnits(keys: seq<Key>, b: nat, unit: nat): nat
    requires b < |keys| && unit > 0
  {
    var shared := if b == 0 then 0 else Lcp(keys[b - 1], keys[b]);
    shared - shared % unit
  }

  lemma RouteKeeps(route: Route, streams: Streams, r: nat, unit: nat)
    requires r + 1 < |streams| && unit > 0 && route.keys == streams[r + 1] && |route.known| == |route.keys|
    requires KnownExact(streams[r + 1], route.known)
    ensures KeepsShared(BorrowedRun(route, unit), unit)
  {
    var run := BorrowedRun(route, unit);
    forall b | 0 <= b < |run.keys| ensures run.retained[b] == SharedUnits(run.keys, b, unit) {
      assert route.known[b] == KnownAt(streams[r + 1], b);
    }
  }

  lemma AssembledKeeps(native: Run, main: Option<Index>, secondary: Option<Run>, K: nat, book: Book, unit: nat,
                       streams: Streams, items: seq<Item>)
    requires unit > 0 && Trusted(streams, items) && BookFinal(streams, items, K, book)
    ensures var index := AssembleIndex(native, main, secondary, book, unit);
            forall r, b | 0 <= r < 2 && 0 <= b < |index.borrowed[r].keys| ::
              var shared := if b == 0 then 0 else Lcp(index.borrowed[r].keys[b - 1], index.borrowed[r].keys[b]);
              b < |index.borrowed[r].retained| && index.borrowed[r].retained[b] == shared - shared % unit
  {
    var index := AssembleIndex(native, main, secondary, book, unit);
    RouteComplete(streams, items, 0, K, book.routes[0]);
    RouteComplete(streams, items, 1, K, book.routes[1]);
    hide Trusted, BookFinal, RouteAt, KnownExact, WellFormed;
    RouteKeeps(book.routes[0], streams, 0, unit);
    RouteKeeps(book.routes[1], streams, 1, unit);
    forall r, b | 0 <= r < 2 && 0 <= b < |index.borrowed[r].keys|
      ensures var shared := if b == 0 then 0 else Lcp(index.borrowed[r].keys[b - 1], index.borrowed[r].keys[b]);
              b < |index.borrowed[r].retained| && index.borrowed[r].retained[b] == shared - shared % unit
    {
      assert KeepsShared(index.borrowed[r], unit);
    }
  }

  lemma RouteComplete(streams: Streams, items: seq<Item>, r: nat, K: nat, route: Route)
    requires Trusted(streams, items) && r < 2 && K > 0
    requires RouteAt(streams, items, r, K, |items|, GroupCount(|items|, K), GroupCount(|items|, K),
                     Previous(items, |items|), route)
    ensures route.keys == streams[r + 1] && |route.known| == |route.keys| && KnownExact(streams[r + 1], route.known)
  {
    assert Count(items, r + 1, |items|) == |streams[r + 1]|;
  }

  lemma AssembledWellFormed(native: Run, main: Option<Index>, secondary: Option<Run>, K: nat, book: Book, unit: nat,
                            streams: Streams, items: seq<Item>)
    requires TrustedSources(native, main, secondary, K) && unit > 0
    requires streams == SourceStreams(native, main, secondary, K) && Trusted(streams, items)
    requires BookFinal(streams, items, K, book)
    ensures WellFormed(AssembleIndex(native, main, secondary, book, unit), K)
  {
    hide BookFinal, RouteAt, RouteExact, Framed, NativeRun, BorrowedRun, SortedStreams;
    FinalRoutes(streams, items, K, book, unit);
    var index := AssembleIndex(native, main, secondary, book, unit);
    assert StreamsOf(index) == streams;
    MergeUnique(streams, items, Augmented(index));
  }

  lemma FinalRoutes(streams: Streams, items: seq<Item>, K: nat, book: Book, unit: nat)
    requires Trusted(streams, items) && BookFinal(streams, items, K, book) && unit > 0
    ensures K > 0 && |streams| == 3 && |book.routes| == 2 && book.count == |items|
    ensures forall r | 0 <= r < 2 ::
              var route := book.routes[r];
              && RouteExact(streams, items, r, K, route.ranks, route.flags, route.cuts)
              && route.keys == streams[r + 1] == BorrowedRun(route, unit).keys && Framed(BorrowedRun(route, unit))
  {
    hide RouteAt, RouteExact, Framed, Trusted;
    FinalRoute(streams, items, 0, K, book.routes[0], unit);
    FinalRoute(streams, items, 1, K, book.routes[1], unit);
  }
}
