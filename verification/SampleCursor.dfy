/** The sample cursor of a fractional-index target (cola_sample_cursor). */
module SampleCursors {
  // It visits ordinals 0, K, 2K, ... of the target's three-way augmented order by consuming up to K occurrences
  // between samples.

  import opened Options
  import opened Keys
  import opened StableMerge
  import opened Frontier
  import opened ColaSpec

  /** A sampled occurrence: its key, its ordinal in the target, and the stream entry behind it. */
  datatype Sample = Sample(key: Key, targetOrdinal: nat, origin: nat, sourceOrdinal: nat)

  /** The mutable part of a cursor: positions in the three streams, carried prefixes, and the ordinal. */
  datatype CursorState = CursorState(pos: seq<nat>, prefixes: seq<nat>, ordinal: nat)

  ghost predicate At(streams: Streams, items: seq<Item>, s: CursorState) {
    FrontierAt(streams, items, s.ordinal, s.pos, s.prefixes)
  }

  /** `origin` heads the augmented order at the cursor, and `common` relates every live head to it. */
  ghost predicate Chosen(streams: Streams, items: seq<Item>, s: CursorState, origin: nat, common: seq<nat>) {
    && At(streams, items, s) && s.ordinal < |items| && |streams| == 3
    && Selected(HeadsAt(streams, s.pos), 3, origin, common)
    && items[s.ordinal] == Item(origin, streams[origin][s.pos[origin]])
    && common[origin] == |items[s.ordinal].key|
    && s.prefixes[origin] == Lcp(Previous(items, s.ordinal), items[s.ordinal].key)
  }

  function StartState(): CursorState {
    CursorState(seq(3, _ => 0), seq(3, _ => 0), 0)
  }

  method Choose(streams: Streams, s: CursorState, ghost items: seq<Item>) returns (origin: nat, common: seq<nat>)
    requires Trusted(streams, items) && At(streams, items, s) && s.ordinal < |items|
    ensures Chosen(streams, items, s, origin, common)
  {
    FrontierCarried(streams, items, s.ordinal, s.pos, s.prefixes);
    origin, common := ChooseFrontier(s.prefixes, HeadsAt(streams, s.pos), Previous(items, s.ordinal));
    LiveIffBefore(streams, items, s.ordinal);
    if origin == 3 {
      assert TakesBest(streams, items, s.ordinal);
      assert Live(HeadsAt(streams, s.pos), items[s.ordinal].origin);
      assert false;
    }
    SelectedIsNext(streams, items, s.ordinal, s.pos, s.prefixes, origin, common);
    OrderZero(items[s.ordinal].key, items[s.ordinal].key);
  }

  /** Consume the chosen occurrence. The error branches of the original on misordered sources cannot be
      taken here. */
  method Consume(streams: Streams, s: CursorState, origin: nat, common: seq<nat>, ghost items: seq<Item>)
    returns (next: CursorState)
    requires Trusted(streams, items) && Chosen(streams, items, s, origin, common)
    ensures At(streams, items, next) && next.ordinal == s.ordinal + 1
  {
    var step := NextComparison(streams[origin], s.pos[origin]);
    NextInOrder(streams, items, origin, s.pos[origin]);
    assert step.Some? ==> step.value.order <= 0 && (origin == 0 ==> step.value.order < 0);
    FrontierAdvance(streams, items, s.ordinal, s.pos, s.prefixes, origin, common, Edge(step));
    next := CursorState(s.pos[origin := s.pos[origin] + 1], common[origin := Edge(step)], s.ordinal + 1);
  }

  /** Consume, and choose again unless the caller has no use for the next head. */
  method Follow(streams: Streams, count: nat, s: CursorState, origin: nat, common: seq<nat>, again: bool,
                ghost items: seq<Item>)
    returns (next: CursorState, nextOrigin: nat, nextCommon: seq<nat>)
    requires Trusted(streams, items) && Chosen(streams, items, s, origin, common) && count == |items|
    ensures At(streams, items, next) && next.ordinal == s.ordinal + 1
    ensures again && next.ordinal < |items| ==>
              && Chosen(streams, items, next, nextOrigin, nextCommon)
              && next.prefixes[nextOrigin] == Lcp(items[s.ordinal].key, items[next.ordinal].key)
  {
    next := Consume(streams, s, origin, common, items);
    nextOrigin, nextCommon := origin, common;
    if next.ordinal != count && again {
      nextOrigin, nextCommon := Choose(streams, next, items);
    }
  }

  /** Along the augmented order the common prefix with a fixed anchor is a running minimum. */
  lemma CommonStep(streams: Streams, items: seq<Item>, start: nat, t: nat)
    requires Trusted(streams, items) && start <= t && t + 1 < |items|
    ensures Lcp(items[start].key, items[t + 1].key)
         == Min(Lcp(items[start].key, items[t].key), Lcp(items[t].key, items[t + 1].key))
  {
    Sorted(streams, items, start, t);
    Sorted(streams, items, t, t + 1);
    LcpOrderedMin(items[start].key, items[t].key, items[t + 1].key);
  }

  /** Two samples are in order; they are equal exactly when both have the length of their common prefix. */
  lemma SampleOrder(streams: Streams, items: seq<Item>, start: nat, t: nat)
    requires Trusted(streams, items) && start <= t < |items|
    ensures var a, b := items[start].key, items[t].key;
            Order(a, b) == (if Lcp(a, b) == |a| && |b| == |a| then 0 else -1)
  {
    Sorted(streams, items, start, t);
    OrderZero(items[start].key, items[t].key);
  }

  /** `advance_impl`: move to the next sample. With `compare`, also return the exact comparison of the old
      sampled key with the new one, accumulated from the common prefixes of at most K adjacent steps. */
  method AdvanceState(streams: Streams, K: nat, count: nat, s: CursorState, compare: bool, ghost items: seq<Item>)
    returns (next: CursorState, result: Option<Comparison>)
    requires Trusted(streams, items) && At(streams, items, s) && s.ordinal < count == |items|
    ensures At(streams, items, next) && next.ordinal == Min(s.ordinal + K, |items|)
    ensures result == if compare && next.ordinal < |items|
                      then Some(Compare(items[s.ordinal].key, items[next.ordinal].key)) else None
  {
    ghost var start := s.ordinal;
    next := s;
    var origin, selected := Choose(streams, next, items);
    var firstLength := selected[origin];
    var common := firstLength;
    OrderZero(items[start].key, items[start].key);
    var width := Min(K, count - s.ordinal);
    for i := 0 to width
      invariant At(streams, items, next) && next.ordinal == start + i
      invariant next.ordinal < |items| && (compare || i < width) ==> Chosen(streams, items, next, origin, selected)
      invariant compare && next.ordinal < |items| ==> common == Lcp(items[start].key, items[next.ordinal].key)
    {
      ghost var t := next.ordinal;
      next, origin, selected := Follow(streams, count, next, origin, selected, compare || i + 1 < width, items);
      if compare && next.ordinal != count {
        CommonStep(streams, items, start, t);
        common := Min(common, next.prefixes[origin]);
      }
    }
    if compare && next.ordinal != count {
      SampleOrder(streams, items, start, next.ordinal);
      result := Some(Comparison(common, if common == firstLength && selected[origin] == firstLength then 0 else -1));
    } else {
      result := None;
    }
  }

  /** The augmented order a cursor walks; empty without a target. */
  ghost function TargetOrder(target: Option<Index>): seq<Item>
  {
    if target.None? then [] else Augmented(target.value)
  }

  function TargetStreams(target: Option<Index>): Streams
  {
    if target.None? then [[], [], []] else StreamsOf(target.value)
  }

  function TargetCount(target: Option<Index>): nat {
    if target.None? then 0 else target.value.count
  }

  /** A target a cursor can walk: sorted streams and as many occurrences as it says. */
  ghost predicate Walkable(target: Option<Index>) {
    Trusted(TargetStreams(target), TargetOrder(target)) && TargetCount(target) == |TargetOrder(target)|
  }

  lemma TargetTrusted(target: Option<Index>, K: nat)
    requires K > 0 && (target.Some? ==> WellFormed(target.value, K))
    ensures Walkable(target)
    ensures At(TargetStreams(target), TargetOrder(target), StartState())
  {
    if target.Some? { WellFormedSorted(target.value, K); }
    FrontierStart(TargetStreams(target), TargetOrder(target));
  }

  /** A cursor with no target is at its end from the start. */
  class SampleCursor {
    const K: nat
    const streams: Streams
    const count: nat
    /** The augmented order of the target. */
    ghost const items: seq<Item>
    var state: CursorState

    ghost predicate Valid()
      reads this
    {
      K > 0 && Trusted(streams, items) && count == |items| && At(streams, items, state)
    }

    constructor (target: Option<Index>, stride: nat)
      requires stride > 0 && Walkable(target)
      ensures Valid() && K == stride && items == TargetOrder(target) && state.ordinal == 0
    {
      K, streams, count := stride, TargetStreams(target), TargetCount(target);
      items := TargetOrder(target);
      state := StartState();
      new;
      FrontierStart(TargetStreams(target), TargetOrder(target));
    }

    /** The current sample: the occurrence at the cursor, with its exact origin and source ordinal. */
    method Peek() returns (sample: Option<Sample>)
      requires Valid()
      ensures sample.None? <==> state.ordinal == |items|
      ensures sample.Some? ==>
                && sample.value.targetOrdinal == state.ordinal
                && items[state.ordinal] == Item(sample.value.origin, sample.value.key)
                && sample.value.sourceOrdinal == Count(items, sample.value.origin, state.ordinal)
    {
      if state.ordinal == count { return None; }
      var origin, _ := Choose(streams, state, items);
      sample := Some(Sample(streams[origin][state.pos[origin]], state.ordinal, origin, state.pos[origin]));
    }

    method Advance(compare: bool) returns (result: Option<Comparison>)
      requires Valid() && state.ordinal < count
      modifies this
      ensures Valid() && state.ordinal == Min(old(state.ordinal) + K, |items|)
      ensures result == if compare && state.ordinal < |items|
                        then Some(Compare(items[old(state.ordinal)].key, items[state.ordinal].key)) else None
    {
      state, result := AdvanceState(streams, K, count, state, compare, items);
    }
  }
}
