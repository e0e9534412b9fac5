/** The recovery scan of mapped nodes (mapped_cola_scan). */
module ColaScan {
  // scan_routes is an independent walk that compares whole keys and checks every recorded number. It accepts a node
  // exactly when its metadata and samples are the direct ones, so it accepts everything the builder finishes and
  // nothing else.

  import opened Options
  import opened Keys
  import opened StableMerge
  import opened Frontier
  import opened ColaSpec
  import opened SampleCursors
  import opened ColaSearch

  /** What the view's constructor and the payload scans of the parts establish, for a node and all below it. */
  ghost predicate Mapped(index: Index, K: nat)
    requires K > 0
    decreases index
  {
    && Shaped(index)
    && NativeRun(index.native) && Framed(index.borrowed[0]) && Framed(index.borrowed[1])
    && Nondecreasing(index.borrowed[0].keys) && Nondecreasing(index.borrowed[1].keys)
    && index.count == |index.native.keys| + |index.borrowed[0].keys| + |index.borrowed[1].keys|
    && RouteShape(index, 0, K) && RouteShape(index, 1, K)
    && (index.secondary.Some? ==> NativeRun(index.secondary.value))
    && (index.main.Some? ==> Mapped(index.main.value, K))
  }

  ghost predicate RouteShape(index: Index, r: nat, K: nat)
    requires K > 0 && Shaped(index) && r < 2
  {
    && |index.flags[r]| == |index.borrowed[r].keys|
    && |index.pops[r]| == |index.cuts[r]| == GroupCount(index.count, K)
  }

  // ----- the direct merge

  /** The least head by whole-key comparison; ties keep the earlier stream. */
  method Origin(streams: Streams, pos: seq<nat>, ghost items: seq<Item>, ghost t: nat) returns (o: nat)
    requires Trusted(streams, items) && Positioned(streams, items, pos, t) && t < |items|
    ensures o < 3 && pos[o] < |streams[o]| && items[t] == Item(o, streams[o][pos[o]])
  {
    o := 3;
    for x := 0 to 3
      invariant o == 3 || o < x
      invariant o == 3 ==> forall y | 0 <= y < x :: pos[y] == |streams[y]|
      invariant o < 3 ==> pos[o] < |streams[o]|
      invariant o < 3 ==> forall y | 0 <= y < x && pos[y] < |streams[y]| ::
                  Before(o, streams[o][pos[o]], y, streams[y][pos[y]])
    {
      if pos[x] < |streams[x]| {
        var key := streams[x][pos[x]];
        OrderZero(key, key);
        if o == 3 {
          o := x;
        } else {
          OrderTotal(streams[o][pos[o]], key);
          if Order(key, streams[o][pos[o]]) < 0 {
            LowerHead(streams, pos, o, x);
            o := x;
          }
        }
      }
    }
    LiveIffBefore(streams, items, t);
    assert TakesBest(streams, items, t);
    BestUnique(streams, items, t, o);
  }

  lemma LowerHead(streams: Streams, pos: seq<nat>, o: nat, x: nat)
    requires |streams| == |pos| == 3 && o < x < 3 && pos[o] < |streams[o]| && pos[x] < |streams[x]|
    requires forall y | 0 <= y < x && pos[y] < |streams[y]| :: Before(o, streams[o][pos[o]], y, streams[y][pos[y]])
    requires Lt(streams[x][pos[x]], streams[o][pos[o]])
    ensures forall y | 0 <= y < x && pos[y] < |streams[y]| :: Before(x, streams[x][pos[x]], y, streams[y][pos[y]])
  {
    forall y | 0 <= y < x && pos[y] < |streams[y]|
      ensures Before(x, streams[x][pos[x]], y, streams[y][pos[y]])
    {
      LcpOrderedMin(streams[x][pos[x]], streams[o][pos[o]], streams[y][pos[y]]);
    }
  }

  // ----- what has been checked after t occurrences, inside group g

  ghost predicate Checked(streams: Streams, items: seq<Item>, r: nat, K: nat, t: nat, started: nat, ended: nat,
                          pops: seq<nat>, flags: seq<bool>, cuts: seq<nat>)
    requires r + 1 < |streams| && t <= |items|
  {
    && ended <= |pops| && PopulationsExact(items, r, K, pops[..ended])
    && started <= |cuts| && CutsExact(streams, items, r, K, cuts[..started])
    && Count(items, r + 1, t) <= |flags| == |streams[r + 1]|
    && FlagsExact(streams, r, flags[..Count(items, r + 1, t)])
  }

  /** Cut and rank of one route at a group's first occurrence. */
  method CheckStart(streams: Streams, r: nat, K: nat, g: nat, key: Key, count: nat, pops: seq<nat>,
                    flags: seq<bool>, cuts: seq<nat>, ghost items: seq<Item>) returns (ok: bool)
    requires IsMerge(streams, items) && r + 1 < |streams| && K > 0
    requires Times(g, K) < |items| && items[Times(g, K)].key == key && count == Count(items, r + 1, Times(g, K))
    requires count <= |streams[r + 1]| && g < |cuts| == |pops|
    requires Checked(streams, items, r, K, Times(g, K), g, g, pops, flags, cuts)
    ensures ok ==> Checked(streams, items, r, K, Times(g, K), g + 1, g, pops, flags, cuts)
    ensures !ok ==> !CutsExact(streams, items, r, K, cuts)
  {
    var lcp := if count > 0 then Compare(streams[r + 1][count - 1], key).common else 0;
    RankExact(items, r, K, pops[..g], g);
    PrefixSumAgrees(pops[..g], pops, g);
    ok := !(cuts[g] != lcp || PrefixSum(pops, g) != count);
    assert lcp == CutAt(streams, items, r, g, K);
    if ok { assert cuts[..g + 1] == cuts[..g] + [cuts[g]]; }
  }

  lemma PrefixSumAgrees(a: seq<nat>, b: seq<nat>, g: nat)
    requires g <= |a| && g <= |b| && forall i | 0 <= i < g :: a[i] == b[i]
    ensures PrefixSum(a, g) == PrefixSum(b, g)
  {
  }

  /** The flag of the borrow about to be consumed. */
  method CheckBorrow(streams: Streams, r: nat, K: nat, t: nat, started: nat, ended: nat, nativeAt: nat, at: nat,
                     pops: seq<nat>, flags: seq<bool>, cuts: seq<nat>, ghost items: seq<Item>) returns (ok: bool)
    requires Trusted(streams, items) && r < 2 && t < |items| && items[t].origin == r + 1
    requires nativeAt == Count(items, 0, t) <= |streams[0]| && at == Count(items, r + 1, t) < |streams[r + 1]|
    requires items[t].key == streams[r + 1][at]
    requires Checked(streams, items, r, K, t, started, ended, pops, flags, cuts)
    ensures ok ==> Checked(streams, items, r, K, t + 1, started, ended, pops, flags, cuts)
    ensures !ok ==> !FlagsExact(streams, r, flags)
  {
    var key := streams[r + 1][at];
    var expected := nativeAt > 0 && Order(streams[0][nativeAt - 1], key) == 0;
    LastNativeDecides(streams, items, t, nativeAt);
    if nativeAt > 0 { OrderZero(streams[0][nativeAt - 1], key); }
    ok := flags[at] == expected;
    if ok { assert flags[..at + 1] == flags[..at] + [flags[at]]; }
  }

  /** A borrow has an equal native key exactly when the last consumed native key equals it. */
  lemma LastNativeDecides(streams: Streams, items: seq<Item>, t: nat, nativeAt: nat)
    requires Trusted(streams, items) && t < |items| && items[t].origin != 0
    requires nativeAt == Count(items, 0, t) <= |streams[0]|
    ensures items[t].key in streams[0] <==> nativeAt > 0 && streams[0][nativeAt - 1] == items[t].key
  {
    var key := items[t].key;
    if key in streams[0] {
      var x :| 0 <= x < |streams[0]| && streams[0][x] == key;
      if x >= nativeAt {
        AboveCut(streams, items, 0, x, t, t);
        assert false;
      }
      BelowCut(streams, items, 0, nativeAt - 1, t, t);
      if x < nativeAt - 1 {
        assert Lt(streams[0][x], streams[0][nativeAt - 1]);
        OrderTotal(streams[0][nativeAt - 1], key);
        OrderTotal(key, streams[0][nativeAt - 1]);
        assert false;
      }
    }
  }

  /** The population of a route when a group ends. */
  method CheckEnd(streams: Streams, r: nat, K: nat, t: nat, g: nat, population: nat, pops: seq<nat>,
                  flags: seq<bool>, cuts: seq<nat>, ghost items: seq<Item>) returns (ok: bool)
    requires r + 1 < |streams| && t <= |items| && t == Min(Times(g, K) + K, |items|) && Times(g, K) <= t
    requires population == Count(items, r + 1, t) - Count(items, r + 1, Times(g, K)) && g < |pops|
    requires Checked(streams, items, r, K, t, g + 1, g, pops, flags, cuts)
    ensures ok ==> Checked(streams, items, r, K, t, g + 1, g + 1, pops, flags, cuts)
    ensures !ok ==> !PopulationsExact(items, r, K, pops)
  {
    ok := pops[g] == population;
    assert population == PopulationAt(items, r, g, K);
    if ok { assert pops[..g + 1] == pops[..g] + [pops[g]]; }
  }

  // ----- the walk

  ghost predicate RouteChecked(index: Index, streams: Streams, items: seq<Item>, r: nat, K: nat, t: nat,
                               started: nat, ended: nat)
    requires Shaped(index) && r < 2 && |streams| == 3 && t <= |items|
  {
    Checked(streams, items, r, K, t, started, ended, index.pops[r], index.flags[r], index.cuts[r])
  }

  /** Before occurrence t: g groups are complete, w occurrences of the next one are consumed. */
  datatype Walk = Walk(pos: seq<nat>, t: nat, g: nat, w: nat, population: seq<nat>)

  ghost predicate Positioned(streams: Streams, items: seq<Item>, pos: seq<nat>, t: nat) {
    && |streams| == 3 && |pos| == 3 && t <= |items|
    && forall x | 0 <= x < 3 :: pos[x] == Count(items, x, t) <= |streams[x]|
  }

  /** Inside group g, possibly at its end: everything up to t is checked but the group's population. */
  ghost predicate Inside(index: Index, streams: Streams, items: seq<Item>, K: nat, s: Walk) {
    && Shaped(index) && Positioned(streams, items, s.pos, s.t) && |s.population| == 2
    && 0 < s.w <= K && s.t == Times(s.g, K) + s.w
    && s.population[0] == Count(items, 1, s.t) - Count(items, 1, Times(s.g, K))
    && s.population[1] == Count(items, 2, s.t) - Count(items, 2, Times(s.g, K))
    && RouteChecked(index, streams, items, 0, K, s.t, s.g + 1, s.g)
    && RouteChecked(index, streams, items, 1, K, s.t, s.g + 1, s.g)
  }

  /** Between groups: g groups are completely checked. */
  ghost predicate Between(index: Index, streams: Streams, items: seq<Item>, K: nat, s: Walk) {
    && Shaped(index) && Positioned(streams, items, s.pos, s.t) && s.w == 0
    && s.t == Min(Times(s.g, K), |items|) && (s.g > 0 ==> Times(s.g - 1, K) < |items|)
    && RouteChecked(index, streams, items, 0, K, s.t, s.g, s.g)
    && RouteChecked(index, streams, items, 1, K, s.t, s.g, s.g)
  }

  ghost predicate WalkAt(index: Index, streams: Streams, items: seq<Item>, K: nat, s: Walk) {
    if s.w == 0 then Between(index, streams, items, K, s)
    else Inside(index, streams, items, K, s) && s.w < K && s.t < |items|
  }

  ghost predicate RoutesExact(index: Index, streams: Streams, items: seq<Item>, K: nat)
    requires K > 0 && Shaped(index) && |streams| == 3
  {
    && RouteExact(streams, items, 0, K, index.pops[0], index.flags[0], index.cuts[0])
    && RouteExact(streams, items, 1, K, index.pops[1], index.flags[1], index.cuts[1])
  }

  ghost predicate Shapes(index: Index, streams: Streams, items: seq<Item>, K: nat)
    requires K > 0
  {
    && Shaped(index) && |streams| == 3
    && forall r | 0 <= r < 2 ::
         |index.flags[r]| == |streams[r + 1]| && |index.pops[r]| == |index.cuts[r]| == GroupCount(|items|, K)
  }

  /** Group start on both routes. */
  method StartGroup(index: Index, streams: Streams, K: nat, s: Walk, key: Key, ghost items: seq<Item>)
    returns (ok: bool)
    requires K > 0 && IsMerge(streams, items) && Shapes(index, streams, items, K)
    requires Between(index, streams, items, K, s) && s.t < |items| && items[s.t].key == key
    ensures ok ==> RouteChecked(index, streams, items, 0, K, s.t, s.g + 1, s.g)
                   && RouteChecked(index, streams, items, 1, K, s.t, s.g + 1, s.g)
    ensures !ok ==> !RoutesExact(index, streams, items, K)
  {
    GroupIndex(s.g, |items|, K);
    ok := CheckStart(streams, 0, K, s.g, key, s.pos[1], index.pops[0], index.flags[0], index.cuts[0], items);
    if ok {
      ok := CheckStart(streams, 1, K, s.g, key, s.pos[2], index.pops[1], index.flags[1], index.cuts[1], items);
    }
  }

  /** The occurrence itself: only a borrow on this route has anything to check. */
  method TakeOn(index: Index, streams: Streams, r: nat, K: nat, s: Walk, origin: nat, ghost items: seq<Item>)
    returns (ok: bool)
    requires K > 0 && Trusted(streams, items) && Shapes(index, streams, items, K) && r < 2
    requires Positioned(streams, items, s.pos, s.t) && s.t < |items| && items[s.t].origin == origin < 3
    requires RouteChecked(index, streams, items, r, K, s.t, s.g + 1, s.g)
    ensures ok ==> RouteChecked(index, streams, items, r, K, s.t + 1, s.g + 1, s.g)
    ensures !ok ==> !RoutesExact(index, streams, items, K)
  {
    ok := true;
    if origin == r + 1 {
      assert TakesBest(streams, items, s.t);
      ok := CheckBorrow(streams, r, K, s.t, s.g + 1, s.g, s.pos[0], s.pos[r + 1], index.pops[r], index.flags[r],
                        index.cuts[r], items);
    }
  }

  /** A group is complete: compare both populations. */
  method EndGroup(index: Index, streams: Streams, K: nat, s: Walk, ghost items: seq<Item>)
    returns (ok: bool, next: Walk)
    requires K > 0 && Shapes(index, streams, items, K)
    requires Inside(index, streams, items, K, s) && (s.w == K || s.t == |items|)
    ensures ok ==> Between(index, streams, items, K, next) && next.t == s.t
    ensures !ok ==> !RoutesExact(index, streams, items, K)
  {
    GroupIndex(s.g, |items|, K);
    next := s.(g := s.g + 1, w := 0);
    ok := CheckEnd(streams, 0, K, s.t, s.g, s.population[0], index.pops[0], index.flags[0], index.cuts[0], items);
    if ok {
      ok := CheckEnd(streams, 1, K, s.t, s.g, s.population[1], index.pops[1], index.flags[1], index.cuts[1], items);
    }
  }

  method CheckOccurrence(index: Index, streams: Streams, K: nat, s: Walk, origin: nat, ghost items: seq<Item>)
    returns (ok: bool)
    requires K > 0 && Trusted(streams, items) && Shapes(index, streams, items, K)
    requires WalkAt(index, streams, items, K, s) && s.t < |items| && origin < 3 && s.pos[origin] < |streams[origin]|
    requires items[s.t] == Item(origin, streams[origin][s.pos[origin]])
    ensures ok ==> RouteChecked(index, streams, items, 0, K, s.t + 1, s.g + 1, s.g)
                   && RouteChecked(index, streams, items, 1, K, s.t + 1, s.g + 1, s.g)
    ensures !ok ==> !RoutesExact(index, streams, items, K)
  {
    ok := true;
    if s.w == 0 { ok := StartGroup(index, streams, K, s, streams[origin][s.pos[origin]], items); }
    if ok { ok := TakeOn(index, streams, 0, K, s, origin, items); }
    if ok { ok := TakeOn(index, streams, 1, K, s, origin, items); }
  }

  function Counted(population: seq<nat>, origin: nat): (next: seq<nat>)
    requires |population| == 2 && origin < 3
    ensures |next| == 2
  {
    if origin == 0 then population else population[origin - 1 := population[origin - 1] + 1]
  }

  /** Consume one occurrence and check what it carries. */
  method TakeOccurrence(index: Index, streams: Streams, K: nat, s: Walk, ghost items: seq<Item>)
    returns (ok: bool, next: Walk)
    requires K > 0 && Trusted(streams, items) && Shapes(index, streams, items, K)
    requires WalkAt(index, streams, items, K, s) && s.t < |items|
    ensures ok ==> Inside(index, streams, items, K, next) && next.t == s.t + 1
    ensures !ok ==> !RoutesExact(index, streams, items, K)
  {
    var origin := Origin(streams, s.pos, items, s.t);
    ok := CheckOccurrence(index, streams, K, s, origin, items);
    var population := Counted(if s.w == 0 then [0, 0] else s.population, origin);
    next := Walk(s.pos[origin := s.pos[origin] + 1], s.t + 1, s.g, s.w + 1, population);
    assert Positioned(streams, items, next.pos, next.t);
  }

  method WalkStep(index: Index, streams: Streams, K: nat, s: Walk, ghost items: seq<Item>)
    returns (ok: bool, next: Walk)
    requires K > 0 && Trusted(streams, items) && Shapes(index, streams, items, K)
    requires WalkAt(index, streams, items, K, s) && s.t < |items| && index.count == |items|
    ensures ok ==> WalkAt(index, streams, items, K, next) && next.t == s.t + 1
    ensures !ok ==> !RoutesExact(index, streams, items, K)
  {
    ok, next := TakeOccurrence(index, streams, K, s, items);
    if ok && (next.w == K || next.t == index.count) {
      ok, next := EndGroup(index, streams, K, next, items);
    }
  }

  /** A finished walk has checked everything. */
  lemma WalkEnds(index: Index, streams: Streams, items: seq<Item>, K: nat, s: Walk)
    requires K > 0 && IsMerge(streams, items) && Shapes(index, streams, items, K)
    requires WalkAt(index, streams, items, K, s) && s.t == |items|
    ensures RoutesExact(index, streams, items, K)
  {
    GroupCountIs(|items|, K, s.g);
    forall r | 0 <= r < 2
      ensures RouteExact(streams, items, r, K, index.pops[r], index.flags[r], index.cuts[r])
    {
      assert RouteChecked(index, streams, items, r, K, s.t, s.g, s.g);
      assert Count(items, r + 1, |items|) == |streams[r + 1]|;
      assert index.pops[r][..s.g] == index.pops[r] && index.cuts[r][..s.g] == index.cuts[r];
      assert index.flags[r][..|streams[r + 1]|] == index.flags[r];
    }
  }

  lemma MappedTrusted(index: Index, K: nat)
    requires K > 0 && Mapped(index, K)
    ensures Trusted(StreamsOf(index), Augmented(index)) && index.count == |Augmented(index)|
    ensures Shapes(index, StreamsOf(index), Augmented(index), K)
  {
    IncreasingNondecreasing(index.native.keys);
    assert StreamsOf(index)[1] == index.borrowed[0].keys && StreamsOf(index)[2] == index.borrowed[1].keys;
    LengthIsTotal(StreamsOf(index), Augmented(index));
  }

  /** The metadata half of the scan. */
  method ScanMetadata(index: Index, K: nat) returns (ok: bool)
    requires K > 0 && Mapped(index, K)
    ensures ok <==> MetadataExact(index, K)
  {
    MappedTrusted(index, K);
    var streams := StreamsOf(index);
    ghost var items := Augmented(index);
    var s := Walk([0, 0, 0], 0, 0, 0, [0, 0]);
    ok := true;
    while s.t != index.count
      invariant WalkAt(index, streams, items, K, s) && ok
      decreases index.count - s.t
    {
      ok, s := WalkStep(index, streams, K, s, items);
      if !ok {
        assert !MetadataExact(index, K);
        return;
      }
    }
    WalkEnds(index, streams, items, K, s);
  }

  /** The main samples: one borrowed key for every sample of the target, and no more. */
  method ScanMainSamples(samples: seq<Key>, main: Option<Index>, K: nat) returns (ok: bool)
    requires K > 0 && (main.Some? ==> Mapped(main.value, K))
    ensures ok <==> samples == EveryKth(ItemKeys(TargetOrder(main)), K)
  {
    ghost var expected := EveryKth(ItemKeys(TargetOrder(main)), K);
    MappedWalkable(main, K);
    hide Mapped, Walkable;
    var cursor := new SampleCursor(main, K);
    hide EveryKth, ItemKeys, TargetOrder, SampleCursor.Valid, Order, FacesSample;
    var at := 0;
    var sample := FirstSample(cursor);
    while sample.Some?
      invariant cursor.Valid() && at <= |samples| && at <= |expected| && samples[..at] == expected[..at]
      invariant FacesSample(cursor, expected, at, sample)
      decreases |expected| - at
    {
      FacesHere(cursor, expected, at, sample);
      var same := SameKey(samples, at, sample.value.key);
      if !same { return false; }
      TakeSame(samples, expected, at);
      sample := NextSample(cursor, expected, at, sample);
      at := at + 1;
    }
    FacesHere(cursor, expected, at, sample);
    ok := at == |samples|;
    if ok { assert samples[..at] == samples && expected[..at] == expected; }
  }

  /** The cursor shows sample `at` of the target, or stands at the end behind the last one. */
  ghost predicate FacesSample(cursor: SampleCursor, expected: seq<Key>, at: nat, sample: Option<Sample>)
    reads cursor
  {
    && cursor.K > 0 && expected == EveryKth(ItemKeys(cursor.items), cursor.K)
    && cursor.state.ordinal == Min(Times(at, cursor.K), |cursor.items|)
    && (sample.Some? <==> at < |expected|)
    && (sample.Some? ==> expected[at] == sample.value.key && cursor.state.ordinal < |cursor.items|)
  }

  lemma FacesHere(cursor: SampleCursor, expected: seq<Key>, at: nat, sample: Option<Sample>)
    requires FacesSample(cursor, expected, at, sample)
    ensures sample.Some? <==> at < |expected|
    ensures sample.Some? ==> expected[at] == sample.value.key
  {
  }

  method FirstSample(cursor: SampleCursor) returns (sample: Option<Sample>)
    requires cursor.Valid() && cursor.state.ordinal == 0
    ensures FacesSample(cursor, EveryKth(ItemKeys(cursor.items), cursor.K), 0, sample)
  {
    SampleIs(cursor.items, cursor.K, 0, 0);
    sample := cursor.Peek();
  }

  method NextSample(cursor: SampleCursor, ghost expected: seq<Key>, ghost at: nat, ghost sample: Option<Sample>)
    returns (next: Option<Sample>)
    requires cursor.Valid() && FacesSample(cursor, expected, at, sample) && sample.Some?
    modifies cursor
    ensures cursor.Valid() && FacesSample(cursor, expected, at + 1, next)
  {
    SampleIs(cursor.items, cursor.K, at, cursor.state.ordinal);
    hide EveryKth, ItemKeys;
    var _ := cursor.Advance(false);
    SampleIs(cursor.items, cursor.K, at + 1, cursor.state.ordinal);
    next := cursor.Peek();
  }

  method SameKey(samples: seq<Key>, at: nat, key: Key) returns (same: bool)
    ensures same <==> at < |samples| && samples[at] == key
  {
    if at >= |samples| { return false; }
    OrderZero(samples[at], key);
    same := Order(samples[at], key) == 0;
  }

  lemma TakeSame(a: seq<Key>, b: seq<Key>, at: nat)
    requires at < |a| && at < |b| && a[..at] == b[..at] && a[at] == b[at]
    ensures a[..at + 1] == b[..at + 1]
  {
    assert a[..at + 1] == a[..at] + [a[at]] && b[..at + 1] == b[..at] + [b[at]];
  }

  /** The cursor at ordinal K * x faces sample x, if there is one. */
  lemma SampleIs(items: seq<Item>, K: nat, x: nat, ordinal: nat)
    requires K > 0 && ordinal == Min(Times(x, K), |items|)
    ensures ordinal < |items| <==> x < |EveryKth(ItemKeys(items), K)|
    ensures ordinal < |items| ==> EveryKth(ItemKeys(items), K)[x] == items[ordinal].key
    ensures Min(ordinal + K, |items|) == Min(Times(x + 1, K), |items|)
  {
    SampleFaces(ItemKeys(items), K, x);
  }

  lemma SampleFaces(keys: seq<Key>, K: nat, x: nat)
    requires K > 0
    ensures Times(x, K) < |keys| <==> x < |EveryKth(keys, K)|
    ensures x < |EveryKth(keys, K)| ==> EveryKth(keys, K)[x] == keys[Times(x, K)]
    ensures Times(x + 1, K) == Times(x, K) + K
  {
    GroupIndex(x, |keys|, K);
    if x < |EveryKth(keys, K)| { assert EveryKth(keys, K)[x] == SampleAt(keys, K, x); }
  }

  /** The secondary samples: every K-th native key of the leaf. */
  method ScanSideSamples(samples: seq<Key>, keys: seq<Key>, K: nat) returns (ok: bool)
    requires K > 0
    ensures ok <==> samples == EveryKth(keys, K)
  {
    ghost var expected := EveryKth(keys, K);
    var at, t, lane := 0, 0, 0;
    while t != |keys|
      invariant t <= |keys| && lane < K && at <= |samples| && at <= |expected|
      invariant lane == 0 ==> t == Min(Times(at, K), |keys|)
      invariant lane > 0 ==> at > 0 && t == Times(at - 1, K) + lane
      invariant samples[..at] == expected[..at]
    {
      if lane == 0 {
        SampleFaces(keys, K, at);
        if at == |samples| { return false; }
        OrderZero(samples[at], keys[t]);
        if Order(samples[at], keys[t]) != 0 { return false; }
        at := at + 1;
      }
      SampleFaces(keys, K, at - 1);
      t := t + 1;
      lane := if lane + 1 == K then 0 else lane + 1;
    }
    SampleFaces(keys, K, at);
    if at > 0 { SampleFaces(keys, K, at - 1); }
    ok := at == |samples|;
    assert |expected| == at;
    if ok { assert samples[..at] == samples && expected[..at] == expected; }
  }

  lemma MappedWalkable(main: Option<Index>, K: nat)
    requires K > 0 && (main.Some? ==> Mapped(main.value, K))
    ensures Walkable(main)
  {
    if main.Some? {
      MappedTrusted(main.value, K);
      LengthIsTotal(StreamsOf(main.value), Augmented(main.value));
    }
  }

  /** `scan_routes` accepts a node exactly when its own samples and metadata are the direct ones. Its target has not
      been scanned yet. */
  method ScanRoutes(index: Index, K: nat) returns (ok: bool)
    requires K > 0 && Mapped(index, K)
    ensures ok <==> SamplesExact(index, K) && MetadataExact(index, K)
  {
    ok := ScanMetadata(index, K);
    if ok { ok := ScanMainSamples(index.borrowed[0].keys, index.main, K); }
    if ok {
      ok := ScanSideSamples(index.borrowed[1].keys, if index.secondary.None? then [] else index.secondary.value.keys, K);
    }
  }

  /** The recovery walk over a chain, head first: every scan passes exactly when the whole chain is well formed. */
  method ScanChain(head: Index, K: nat) returns (ok: bool)
    requires K > 0 && Mapped(head, K)
    ensures ok <==> WellFormed(head, K)
  {
    var current := Some(head);
    while current.Some?
      invariant current.Some? ==> Mapped(current.value, K)
      invariant WellFormed(head, K) <==> (current.Some? ==> WellFormed(current.value, K))
      decreases Depth(current)
    {
      ok := ScanRoutes(current.value, K);
      if !ok { return; }
      current := current.value.main;
    }
    ok := true;
  }

  function Depth(current: Option<Index>): nat
    decreases current
  {
    if current.None? then 0 else 1 + Depth(current.value.main)
  }

  /** Everything well formed, in particular everything the builder finishes, can be scanned. */
  lemma {:induction false} WellFormedMapped(index: Index, K: nat)
    requires K > 0 && WellFormed(index, K)
    ensures Mapped(index, K)
    decreases index
  {
    if index.main.Some? { WellFormedMapped(index.main.value, K); }
    WellFormedSorted(index, K);
    assert StreamsOf(index)[1] == index.borrowed[0].keys && StreamsOf(index)[2] == index.borrowed[1].keys;
    LengthIsTotal(StreamsOf(index), Augmented(index));
    assert RouteExact(StreamsOf(index), Augmented(index), 0, K, index.pops[0], index.flags[0], index.cuts[0]);
    assert RouteExact(StreamsOf(index), Augmented(index), 1, K, index.pops[1], index.flags[1], index.cuts[1]);
  }

  /** So the recovery scan accepts every built chain. */
  method RescanBuilt(index: Index, K: nat) returns (ok: bool)
    requires K > 0 && WellFormed(index, K)
    ensures ok
  {
    WellFormedMapped(index, K);
    ok := ScanChain(index, K);
  }
}
