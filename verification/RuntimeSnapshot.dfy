/** Published snapshots: what they mean, and which ones a restart accepts. */
module RuntimeSnapshots {
  // A snapshot is a query head and a frontier of runs over contiguous admission intervals. Its meaning is the
  // chronological fold of the whole admission log, whatever the layout.

  import opened Options
  import opened Keys
  import opened ColaSpec
  import opened QueryContexts
  import opened ColaQuery
  import opened ColaRoot
  import opened NativeStreams
  import opened NativeMerges
  import opened NativeMeaning

  datatype Record = Record(key: Key, value: Value)

  // ----- meaning

  /** The simple form: compose every admission of a key, oldest first. */
  function Fold(policy: Policy, log: seq<Record>, k: Key): Option<Value> {
    if log == [] then None
    else
      var n := |log| - 1;
      Combine(policy, k, Fold(policy, log[..n], k), if log[n].key == k then Some(log[n].value) else None)
  }

  ghost predicate Associative(policy: Policy) {
    forall k, a, b, c {:trigger policy.compose(k, policy.compose(k, a, b), c)} ::
      policy.compose(k, policy.compose(k, a, b), c) == policy.compose(k, a, policy.compose(k, b, c))
  }

  lemma CombineAssociative(policy: Policy, k: Key, a: Option<Value>, b: Option<Value>, c: Option<Value>)
    requires Associative(policy)
    ensures Combine(policy, k, Combine(policy, k, a, b), c) == Combine(policy, k, a, Combine(policy, k, b, c))
  {
  }

  /** Adjacent stretches of the log compose. */
  lemma {:induction false} FoldConcat(policy: Policy, a: seq<Record>, b: seq<Record>, k: Key)
    requires Associative(policy)
    ensures Fold(policy, a + b, k) == Combine(policy, k, Fold(policy, a, k), Fold(policy, b, k))
  {
    if b == [] {
      assert a + b == a;
    } else {
      var n := |b| - 1;
      assert (a + b)[..|a + b| - 1] == a + b[..n];
      FoldConcat(policy, a, b[..n], k);
      CombineAssociative(policy, k, Fold(policy, a, k), Fold(policy, b[..n], k),
                         if b[n].key == k then Some(b[n].value) else None);
    }
  }

  /** A native run holds exactly the composition of the admissions in [first, last), in at most that many records. */
  ghost predicate Holds(run: Run, log: seq<Record>, first: nat, last: nat, policy: Policy) {
    && first < last <= |log| && NativeRun(run) && 0 < |run.keys| <= last - first
    && forall k {:trigger ValueOf(run, k)} :: ValueOf(run, k) == Fold(policy, log[first..last], k)
  }

  lemma HoldsMerged(older: Run, newer: Run, log: seq<Record>, first: nat, middle: nat, last: nat, policy: Policy)
    requires Associative(policy)
    requires Holds(older, log, first, middle, policy) && Holds(newer, log, middle, last, policy)
    ensures Holds(MergedRun(older, newer, policy), log, first, last, policy)
  {
    MergedNative(older, newer, policy);
    MergedBounds(older, newer, 0, 0, policy);
    forall k ensures ValueOf(MergedRun(older, newer, policy), k) == Fold(policy, log[first..last], k) {
      MergeIsKeywise(older, newer, policy, k);
      FoldConcat(policy, log[first..middle], log[middle..last], k);
      assert log[first..middle] + log[middle..last] == log[first..last];
    }
  }

  lemma HoldsLonger(run: Run, log: seq<Record>, r: Record, first: nat, last: nat, policy: Policy)
    requires Holds(run, log, first, last, policy)
    ensures Holds(run, log + [r], first, last, policy)
  {
    assert (log + [r])[first..last] == log[first..last];
  }

  function Single(r: Record): Run {
    Run([r.key], [0], [r.value])
  }

  lemma HoldsSingle(log: seq<Record>, r: Record, policy: Policy)
    ensures Holds(Single(r), log + [r], |log|, |log| + 1, policy)
  {
    assert (log + [r])[|log|..|log| + 1] == [r];
    forall k ensures ValueOf(Single(r), k) == Fold(policy, [r], k) {
      ValueOfIs(Single(r), k);
      assert [r][..0] == [];
    }
  }

  // ----- the graph behind a snapshot

  datatype Segment = Segment(first: nat, last: nat, node: Index)

  function Mass(s: Segment): int {
    s.last - s.first
  }

  datatype Snapshot = Snapshot(head: Index, runs: seq<Segment>, admissions: nat)

  predicate Settled(s: Snapshot) {
    |s.runs| < 2 || Mass(s.runs[|s.runs| - 2]) != Mass(s.runs[|s.runs| - 1])
  }

  /** The nodes of a chain that hold native records; empty routing nodes are skipped. */
  function Sources(current: Option<Index>): seq<Index>
    decreases current
  {
    if current.None? then []
    else (if current.value.native.keys == [] then [] else [current.value]) + Sources(current.value.main)
  }

  predicate MainOnly(current: Option<Index>)
    decreases current
  {
    current.Some? ==> current.value.secondary.None? && MainOnly(current.value.main)
  }

  /** The nodes of a frontier, newest first. */
  function Back(runs: seq<Segment>): (nodes: seq<Index>)
    ensures |nodes| == |runs|
  {
    if runs == [] then [] else [runs[|runs| - 1].node] + Back(runs[..|runs| - 1])
  }

  lemma {:induction false} BackAt(runs: seq<Segment>, x: nat)
    requires x < |runs|
    ensures Back(runs)[x] == runs[|runs| - 1 - x].node
  {
    if x > 0 { BackAt(runs[..|runs| - 1], x - 1); }
  }

  function End(runs: seq<Segment>): nat {
    if runs == [] then 0 else runs[|runs| - 1].last
  }

  // ----- the shape of a frontier

  /** m is reached from p by doubling. */
  predicate Reached(p: nat, m: int)
    requires p > 0
    decreases m - p
  {
    p == m || (p < m && Reached(2 * p, m))
  }

  predicate PowerOfTwo(m: int) {
    Reached(1, m)
  }

  lemma {:induction false} ReachedAbove(p: nat, m: int)
    requires p > 0 && Reached(p, m)
    ensures p <= m
    decreases m - p
  {
  }

  lemma {:induction false} ReachedGap(p: nat, a: int, b: int)
    requires p > 0 && Reached(p, a) && Reached(p, b) && a < b
    ensures 2 * a <= b
    decreases b - p
  {
    ReachedAbove(p, a);
    if p == a { ReachedAbove(2 * p, b); } else { ReachedGap(2 * p, a, b); }
  }

  /** Two different powers of two are at least a factor of two apart. */
  lemma PowersGap(a: int, b: int)
    requires PowerOfTwo(a) && PowerOfTwo(b) && a < b
    ensures 2 * a <= b
  {
    ReachedGap(1, a, b);
  }

  lemma {:induction false} ReachedDouble(p: nat, m: int)
    requires p > 0 && Reached(p, m)
    ensures Reached(p, 2 * m) && Reached(2 * p, 2 * m)
    decreases m - p
  {
    ReachedAbove(p, m);
    if p < m { ReachedDouble(2 * p, m); }
  }

  lemma {:induction false} ReachedHalf(p: nat, m: int) returns (half: int)
    requires p > 0 && Reached(p, m) && p < m
    ensures 2 * half == m && Reached(p, half)
    decreases m - p
  {
    if m == 2 * p { half := p; }
    else {
      ReachedAbove(2 * p, m);
      half := ReachedHalf(2 * p, m);
      ReachedAbove(2 * p, half);
    }
  }

  datatype Interval = Interval(first: nat, last: nat)

  /** One interval's admission test, given those before it: contiguous, a power of two, and below its predecessor
      except for a final pair of single admissions. */
  predicate IntervalFits(intervals: seq<Interval>, i: nat)
    requires i < |intervals|
  {
    var span := intervals[i];
    && span.first == (if i == 0 then 0 else intervals[i - 1].last) && span.first < span.last
    && PowerOfTwo(span.last - span.first)
    && (i > 0 ==>
          var previous := intervals[i - 1].last - intervals[i - 1].first;
          span.last - span.first < previous
          || (i + 1 == |intervals| && previous == 1 && span.last - span.first == 1))
  }

  function IntervalsOf(runs: seq<Segment>): (intervals: seq<Interval>)
    ensures |intervals| == |runs|
  {
    seq(|runs|, i requires 0 <= i < |runs| => Interval(runs[i].first, runs[i].last))
  }

  predicate Shape(intervals: seq<Interval>) {
    forall i {:trigger IntervalFits(intervals, i)} | 0 <= i < |intervals| :: IntervalFits(intervals, i)
  }

  /** A run: its content, a trusted main-only node, and below it exactly the older runs in order. */
  ghost predicate SegmentAt(runs: seq<Segment>, i: nat, log: seq<Record>, policy: Policy, K: nat)
    requires i < |runs| && K > 0
  {
    && Holds(runs[i].node.native, log, runs[i].first, runs[i].last, policy)
    && WellFormed(runs[i].node, K) && MainOnly(Some(runs[i].node))
    && Sources(runs[i].node.main) == Back(runs[..i])
  }

  ghost predicate Segments(runs: seq<Segment>, log: seq<Record>, policy: Policy, K: nat)
    requires K > 0
  {
    forall i {:trigger SegmentAt(runs, i, log, policy, K)} | 0 <= i < |runs| :: SegmentAt(runs, i, log, policy, K)
  }

  /** A head whose chain lists a frontier, newest run first. */
  ghost predicate HeadAt(head: Index, runs: seq<Segment>, K: nat)
    requires K > 0
  {
    WellFormed(head, K) && MainOnly(Some(head)) && Sources(Some(head)) == Back(runs)
  }

  /** Everything a published snapshot promises, for the log it was published over. */
  ghost predicate Published(s: Snapshot, log: seq<Record>, policy: Policy, K: nat) {
    && K >= 3 && s.admissions == |log| == End(s.runs)
    && Shape(IntervalsOf(s.runs)) && Segments(s.runs, log, policy, K)
    && HeadAt(s.head, s.runs, K) && s.head.count <= K
  }

  // ----- lookups

  /** Compose matches that come newest first. */
  function Composed(policy: Policy, k: Key, matches: seq<Match>): Option<Value> {
    if matches == [] then None
    else Combine(policy, k, Composed(policy, k, matches[1..]), Some(matches[0].value))
  }

  lemma TileEnd(runs: seq<Segment>, i: nat)
    requires Shape(IntervalsOf(runs)) && i < |runs|
    ensures runs[i].first == End(runs[..i]) && runs[i].last == End(runs[..i + 1])
  {
    assert IntervalFits(IntervalsOf(runs), i);
  }

  /** A chain over the m oldest runs means the log up to where they end. */
  lemma {:induction false} ChainMeaning(current: Option<Index>, runs: seq<Segment>, m: nat, log: seq<Record>,
                                        policy: Policy, K: nat, k: Key)
    requires K > 0 && Associative(policy) && Shape(IntervalsOf(runs)) && Segments(runs, log, policy, K)
    requires MainOnly(current) && m <= |runs| && Sources(current) == Back(runs[..m]) && End(runs[..m]) <= |log|
    ensures Composed(policy, k, MatchesFrom(current, k)) == Fold(policy, log[..End(runs[..m])], k)
    decreases current
  {
    if current.None? {
      assert log[..0] == [];
    } else {
      var node := current.value;
      if node.native.keys == [] {
        assert Matches(node, k) == MatchesFrom(node.main, k);
        ChainMeaning(node.main, runs, m, log, policy, K, k);
      } else {
        assert |Back(runs[..m])| > 0;
        assert runs[..m][..m - 1] == runs[..m - 1];
        assert Back(runs[..m]) == [runs[m - 1].node] + Back(runs[..m - 1]);
        assert Sources(current) == [node] + Sources(node.main);
        assert node == Sources(current)[0] == runs[m - 1].node;
        assert Sources(node.main) == Sources(current)[1..] == Back(runs[..m - 1]);
        TileEnd(runs, m - 1);
        assert SegmentAt(runs, m - 1, log, policy, K);
        ChainMeaning(node.main, runs, m - 1, log, policy, K, k);
        TopMeaning(node, k, policy, log, End(runs[..m - 1]), End(runs[..m]));
      }
    }
  }

  lemma TopMeaning(node: Index, k: Key, policy: Policy, log: seq<Record>, first: nat, last: nat)
    requires Associative(policy) && node.secondary.None? && Holds(node.native, log, first, last, policy)
    requires Composed(policy, k, MatchesFrom(node.main, k)) == Fold(policy, log[..first], k)
    ensures Composed(policy, k, Matches(node, k)) == Fold(policy, log[..last], k)
  {
    assert log[..first] + log[first..last] == log[..last];
    FoldConcat(policy, log[..first], log[first..last], k);
    var top := RunMatch(node, false, node.native, k);
    assert NodeMatches(node, k) == top;
    assert Matches(node, k) == top + MatchesFrom(node.main, k);
    assert ValueOf(node.native, k) == Fold(policy, log[first..last], k);
    if top == [] {
      assert Matches(node, k) == MatchesFrom(node.main, k);
    } else {
      assert Matches(node, k)[1..] == MatchesFrom(node.main, k);
    }
  }

  /** Composing a snapshot's matches, oldest first, is the fold of the whole admission log. */
  lemma SnapshotMeaning(s: Snapshot, log: seq<Record>, policy: Policy, K: nat, k: Key)
    requires Published(s, log, policy, K) && Associative(policy)
    ensures Composed(policy, k, Matches(s.head, k)) == Fold(policy, log, k)
  {
    assert s.runs[..|s.runs|] == s.runs && log[..|log|] == log;
    ChainMeaning(Some(s.head), s.runs, |s.runs|, log, policy, K, k);
  }

  /** Two snapshots of one log answer every lookup alike, whatever their layouts. */
  lemma LayoutsAgree(s: Snapshot, t: Snapshot, log: seq<Record>, policy: Policy, K: nat)
    requires Published(s, log, policy, K) && Published(t, log, policy, K) && Associative(policy)
    ensures forall k :: Composed(policy, k, Matches(s.head, k)) == Composed(policy, k, Matches(t.head, k))
  {
    forall k ensures Composed(policy, k, Matches(s.head, k)) == Composed(policy, k, Matches(t.head, k)) {
      SnapshotMeaning(s, log, policy, K, k);
      SnapshotMeaning(t, log, policy, K, k);
    }
  }

  // ----- restart

  function EndOf(intervals: seq<Interval>): nat {
    if intervals == [] then 0 else intervals[|intervals| - 1].last
  }

  function Assigned(sources: seq<Index>, intervals: seq<Interval>): (runs: seq<Segment>)
    requires |sources| == |intervals|
    ensures |runs| == |intervals|
  {
    seq(|intervals|, i requires 0 <= i < |intervals| =>
      Segment(intervals[i].first, intervals[i].last, sources[|sources| - 1 - i]))
  }

  predicate MassesCover(sources: seq<Index>, intervals: seq<Interval>)
    requires |sources| == |intervals|
  {
    forall i | 0 <= i < |intervals| ::
      |sources[|sources| - 1 - i].native.keys| <= intervals[i].last - intervals[i].first
  }

  predicate Restorable(head: Option<Index>, intervals: seq<Interval>, K: nat)
    requires K > 0
  {
    && head.Some? && head.value.count <= K && ChainAgrees(head, K)
    && |Sources(head)| == |intervals| && Shape(intervals) && MassesCover(Sources(head), intervals)
  }

  method CollectSources(head: Index) returns (sources: seq<Index>)
    ensures sources == Sources(Some(head))
  {
    sources := [];
    var current := Some(head);
    while current.Some?
      invariant sources + Sources(current) == Sources(Some(head))
      decreases Depth(current)
    {
      var node := current.value;
      if node.native.keys != [] { sources := sources + [node]; }
      current := node.main;
    }
  }

  /** `restore`: accept exactly the frontiers of the documented shape whose chain fits them. */
  method Restore(head: Option<Index>, intervals: seq<Interval>, K: nat) returns (s: Option<Snapshot>)
    requires K > 0
    ensures s.Some? <==> Restorable(head, intervals, K)
    ensures s.Some? ==>
              s.value == Snapshot(head.value, Assigned(Sources(head), intervals), EndOf(intervals))
  {
    var adopted := AdoptPrepared(head, K);
    if !adopted { return None; }
    var sources := CollectSources(head.value);
    if |sources| != |intervals| { return None; }
    var n := |intervals|;
    for i := 0 to n
      invariant forall x {:trigger IntervalFits(intervals, x)} | 0 <= x < i :: IntervalFits(intervals, x)
      invariant forall x | 0 <= x < i :: |sources[n - 1 - x].native.keys| <= intervals[x].last - intervals[x].first
    {
      var next, previous := 0, 0;
      if i > 0 { next, previous := intervals[i - 1].last, intervals[i - 1].last - intervals[i - 1].first; }
      var fits := CheckInterval(intervals, i, next, previous);
      if !fits || |sources[n - i - 1].native.keys| > intervals[i].last - intervals[i].first { return None; }
    }
    return Some(Snapshot(head.value, Assigned(sources, intervals), EndOf(intervals)));
  }

  /** The frontier test, in the order the original makes it. */
  method CheckInterval(intervals: seq<Interval>, i: nat, next: nat, previous: int) returns (fits: bool)
    requires i < |intervals|
    requires next == if i == 0 then 0 else intervals[i - 1].last
    requires i > 0 ==> previous == intervals[i - 1].last - intervals[i - 1].first
    ensures fits <==> IntervalFits(intervals, i)
  {
    var span := intervals[i];
    var mass := span.last - span.first;
    fits := !(span.first != next || span.last <= span.first || !PowerOfTwo(mass)
              || (i > 0 && mass >= previous && !(i + 1 == |intervals| && previous == 1 && mass == 1)));
  }

  /** Every published snapshot is accepted again, unchanged. */
  lemma RestoreAccepts(s: Snapshot, log: seq<Record>, policy: Policy, K: nat)
    requires Published(s, log, policy, K)
    ensures Restorable(Some(s.head), IntervalsOf(s.runs), K)
    ensures Snapshot(s.head, Assigned(Sources(Some(s.head)), IntervalsOf(s.runs)), EndOf(IntervalsOf(s.runs))) == s
  {
    hide Sources, WellFormed, Segments, Back, ChainAgrees, Shape, MainOnly;
    WellFormedAgrees(Some(s.head), K);
    var sources, n := Sources(Some(s.head)), |s.runs|;
    forall i | 0 <= i < n
      ensures sources[n - 1 - i] == s.runs[i].node && |sources[n - 1 - i].native.keys| <= Mass(s.runs[i])
    {
      SourceOfRun(s.runs, i, log, policy, K);
    }
    assert Assigned(sources, IntervalsOf(s.runs)) == s.runs;
  }

  lemma SourceOfRun(runs: seq<Segment>, i: nat, log: seq<Record>, policy: Policy, K: nat)
    requires K > 0 && Segments(runs, log, policy, K) && i < |runs|
    ensures Back(runs)[|runs| - 1 - i] == runs[i].node && |runs[i].node.native.keys| <= Mass(runs[i])
  {
    BackAt(runs, |runs| - 1 - i);
    SegmentMass(runs, i, log, policy, K);
  }

  // ----- what a restored frontier means

  /** A log for one run: each of its records once, the last one as often as the admission mass leaves over. */
  function Filled(run: Run, mass: nat): (log: seq<Record>)
    requires 0 < |run.keys| == |run.values|
    ensures |log| == mass
  {
    seq(mass, i requires 0 <= i < mass =>
      Record(run.keys[Min(i, |run.keys| - 1)], run.values[Min(i, |run.keys| - 1)]))
  }

  /** Replacement: the newer value wins, and no value is a tombstone. */
  function Replacement(): Policy {
    Policy((k: Key, a: Value, b: Value) => b, (k: Key, v: Value) => false)
  }

  lemma {:induction false} FilledFold(run: Run, mass: nat, k: Key)
    requires NativeRun(run) && 0 < |run.keys|
    ensures forall x | 0 <= x < |run.keys| && x < mass && run.keys[x] == k ::
              Fold(Replacement(), Filled(run, mass), k) == Some(run.values[x])
    ensures (forall x | 0 <= x < |run.keys| && x < mass :: run.keys[x] != k) ==>
              Fold(Replacement(), Filled(run, mass), k) == None
  {
    if mass > 0 {
      var log, i := Filled(run, mass), Min(mass - 1, |run.keys| - 1);
      assert log[..mass - 1] == Filled(run, mass - 1);
      FilledFold(run, mass - 1, k);
      forall x | 0 <= x < |run.keys| && x < mass && run.keys[x] == k
        ensures Fold(Replacement(), log, k) == Some(run.values[x])
      {
        if x < i { IncreasingDistinct(run.keys, x, i); }
      }
    }
  }

  lemma FilledHolds(run: Run, mass: nat, k: Key)
    requires NativeRun(run) && 0 < |run.keys| <= mass
    ensures Fold(Replacement(), Filled(run, mass), k) == ValueOf(run, k)
  {
    FilledFold(run, mass, k);
    var hit := Lookup(run.keys, k);
    if hit.None? {
      forall x | 0 <= x < |run.keys| ensures run.keys[x] != k {}
    }
  }

  predicate Fillable(runs: seq<Segment>) {
    forall i | 0 <= i < |runs| :: 0 < |runs[i].node.native.keys| == |runs[i].node.native.values| && Mass(runs[i]) >= 0
  }

  /** The m oldest runs, one after the other. */
  function LogOf(runs: seq<Segment>, m: nat): seq<Record>
    requires m <= |runs| && Fillable(runs)
  {
    if m == 0 then [] else LogOf(runs, m - 1) + Filled(runs[m - 1].node.native, Mass(runs[m - 1]))
  }

  lemma LastFits(runs: seq<Segment>, i: nat)
    requires i < |runs| && Shape(IntervalsOf(runs))
    ensures runs[i].first < runs[i].last
  {
    assert IntervalFits(IntervalsOf(runs), i);
  }

  lemma {:induction false} LogTiles(runs: seq<Segment>, m: nat, i: nat)
    requires m <= |runs| && Shape(IntervalsOf(runs)) && Fillable(runs)
    ensures |LogOf(runs, m)| == End(runs[..m])
    ensures i < m ==> runs[i].first <= runs[i].last <= |LogOf(runs, m)|
                      && LogOf(runs, m)[runs[i].first..runs[i].last] == Filled(runs[i].node.native, Mass(runs[i]))
  {
    if m > 0 {
      hide Filled, Shape;
      LogTiles(runs, m - 1, i);
      TileEnd(runs, m - 1);
      LastFits(runs, m - 1);
      var before := LogOf(runs, m - 1);
      if i < m - 1 {
        assert LogOf(runs, m)[runs[i].first..runs[i].last] == before[runs[i].first..runs[i].last];
      }
    }
  }

  /** A source stands on exactly the sources after it. */
  lemma {:induction false} SourceStands(current: Option<Index>, K: nat, x: nat)
    requires K > 0 && MainOnly(current) && (current.Some? ==> WellFormed(current.value, K)) && x < |Sources(current)|
    ensures var node := Sources(current)[x];
            && WellFormed(node, K) && MainOnly(Some(node)) && node.native.keys != []
            && Sources(node.main) == Sources(current)[x + 1..]
    decreases current
  {
    hide WellFormed;
    var node := current.value;
    SamplesOf(node, K);
    if node.native.keys == [] {
      SourceStands(node.main, K, x);
    } else if x > 0 {
      SourceStands(node.main, K, x - 1);
      assert Sources(current)[x + 1..] == Sources(node.main)[x..];
    } else {
      assert Sources(current)[1..] == Sources(node.main);
    }
  }

  lemma AssignedBack(sources: seq<Index>, intervals: seq<Interval>, i: nat)
    requires |sources| == |intervals| && i <= |sources|
    ensures Back(Assigned(sources, intervals)[..i]) == sources[|sources| - i..]
  {
    var runs := Assigned(sources, intervals);
    forall y | 0 <= y < i ensures Back(runs[..i])[y] == sources[|sources| - i..][y] {
      BackAt(runs[..i], y);
    }
  }

  /** Whatever a restart accepts of a trusted chain is a published snapshot: some log of that many admissions folds to
      exactly what the chain holds. With `RestoreAccepts`, the accepted frontiers are the published ones. */
  lemma RestoredIsPublished(head: Index, intervals: seq<Interval>, K: nat) returns (log: seq<Record>, policy: Policy)
    requires K >= 3 && WellFormed(head, K) && MainOnly(Some(head)) && Restorable(Some(head), intervals, K)
    ensures Associative(policy)
    ensures Published(Snapshot(head, Assigned(Sources(Some(head)), intervals), EndOf(intervals)), log, policy, K)
  {
    hide WellFormed, Sources, MainOnly, ChainAgrees, MassesCover, Back, AllRestored, Fillable, LogOf, Segments, Shape;
    var runs, n := Assigned(Sources(Some(head)), intervals), |intervals|;
    policy := Replacement();
    RestoredRuns(head, intervals, K);
    AssignedBack(Sources(Some(head)), intervals, n);
    RestoredFillable(runs, K);
    assert runs[..n] == runs && IntervalsOf(runs) == intervals;
    log := LogOf(runs, n);
    RestoredSegments(runs, K);
    LogTiles(runs, n, n);
  }

  lemma RestoredSegments(runs: seq<Segment>, K: nat)
    requires K > 0 && Shape(IntervalsOf(runs)) && Fillable(runs) && AllRestored(runs, K)
    ensures Segments(runs, LogOf(runs, |runs|), Replacement(), K)
  {
    hide WellFormed, Sources, MainOnly, Back, RestoredRun, Fillable, LogOf, SegmentAt, Shape;
    forall i | 0 <= i < |runs| ensures SegmentAt(runs, i, LogOf(runs, |runs|), Replacement(), K) {
      RestoredSegment(runs, i, K);
    }
  }

  lemma RestoredRuns(head: Index, intervals: seq<Interval>, K: nat)
    requires K > 0 && WellFormed(head, K) && MainOnly(Some(head)) && Restorable(Some(head), intervals, K)
    ensures AllRestored(Assigned(Sources(Some(head)), intervals), K)
  {
    hide WellFormed, Sources, MainOnly, ChainAgrees, Back, Shape, RestoredRun;
    var runs := Assigned(Sources(Some(head)), intervals);
    forall i | 0 <= i < |runs| ensures RestoredRun(runs, i, K) {
      RestoredAt(head, intervals, K, i);
    }
  }

  lemma RestoredAt(head: Index, intervals: seq<Interval>, K: nat, i: nat)
    requires K > 0 && WellFormed(head, K) && MainOnly(Some(head))
    requires |Sources(Some(head))| == |intervals| && MassesCover(Sources(Some(head)), intervals) && i < |intervals|
    ensures RestoredRun(Assigned(Sources(Some(head)), intervals), i, K)
  {
    hide WellFormed, Sources, MainOnly, Back, NativeRun;
    var sources, n := Sources(Some(head)), |intervals|;
    SourceStands(Some(head), K, n - 1 - i);
    AssignedBack(sources, intervals, i);
    SourceNative(sources[n - 1 - i], K);
  }

  lemma SourceNative(node: Index, K: nat)
    requires K > 0 && WellFormed(node, K)
    ensures NativeRun(node.native)
  {
  }

  lemma RestoredFillable(runs: seq<Segment>, K: nat)
    requires K > 0 && AllRestored(runs, K)
    ensures Fillable(runs)
  {
    hide WellFormed, MainOnly, Sources, Back;
    forall i | 0 <= i < |runs|
      ensures 0 < |runs[i].node.native.keys| == |runs[i].node.native.values| && Mass(runs[i]) >= 0
    {
      assert RestoredRun(runs, i, K);
    }
  }

  /** A restored run fits its mass and stands on the runs before it. */
  ghost predicate RestoredRun(runs: seq<Segment>, i: nat, K: nat)
    requires i < |runs| && K > 0
  {
    var node := runs[i].node;
    && WellFormed(node, K) && NativeRun(node.native) && MainOnly(Some(node)) && Sources(node.main) == Back(runs[..i])
    && 0 < |node.native.keys| <= Mass(runs[i])
  }

  ghost predicate AllRestored(runs: seq<Segment>, K: nat)
    requires K > 0
  {
    forall i {:trigger RestoredRun(runs, i, K)} | 0 <= i < |runs| :: RestoredRun(runs, i, K)
  }

  lemma RestoredSegment(runs: seq<Segment>, i: nat, K: nat)
    requires K > 0 && i < |runs| && Shape(IntervalsOf(runs)) && Fillable(runs) && RestoredRun(runs, i, K)
    ensures SegmentAt(runs, i, LogOf(runs, |runs|), Replacement(), K)
  {
    hide WellFormed, MainOnly, Sources, Back, LogOf, Filled, Fillable;
    var log, run := LogOf(runs, |runs|), runs[i].node.native;
    LogTiles(runs, |runs|, i);
    forall k ensures ValueOf(run, k) == Fold(Replacement(), log[runs[i].first..runs[i].last], k) {
      FilledHolds(run, Mass(runs[i]), k);
    }
  }

  lemma SegmentMass(runs: seq<Segment>, i: nat, log: seq<Record>, policy: Policy, K: nat)
    requires K > 0 && Segments(runs, log, policy, K) && i < |runs|
    ensures |runs[i].node.native.keys| <= Mass(runs[i])
  {
    assert SegmentAt(runs, i, log, policy, K);
  }

  // ----- a settled frontier is the binary expansion of the admission count

  function Twice(ms: seq<int>): (r: seq<int>)
    ensures |r| == |ms|
  {
    seq(|ms|, i requires 0 <= i < |ms| => 2 * ms[i])
  }

  /** The place values of the binary digits of n, largest first. */
  function Binary(n: nat): seq<int> {
    if n == 0 then [] else Twice(Binary(n / 2)) + (if n % 2 == 1 then [1] else [])
  }

  predicate Strict(ms: seq<int>) {
    && (forall i | 0 <= i < |ms| :: PowerOfTwo(ms[i]))
    && forall i, j | 0 <= i < j < |ms| :: ms[i] > ms[j]
  }

  function Sum(ms: seq<int>): int {
    if ms == [] then 0 else Sum(ms[..|ms| - 1]) + ms[|ms| - 1]
  }

  lemma {:induction false} SumTwice(ms: seq<int>)
    ensures Sum(Twice(ms)) == 2 * Sum(ms)
  {
    if ms != [] {
      assert Twice(ms)[..|ms| - 1] == Twice(ms[..|ms| - 1]);
      SumTwice(ms[..|ms| - 1]);
    }
  }

  lemma {:induction false} SumPositive(ms: seq<int>)
    requires Strict(ms)
    ensures Sum(ms) >= |ms|
  {
    if ms != [] {
      assert PowerOfTwo(ms[|ms| - 1]);
      ReachedAbove(1, ms[|ms| - 1]);
      SumPositive(ms[..|ms| - 1]);
    }
  }

  predicate Doubles(ms: seq<int>, half: seq<int>) {
    |half| == |ms| && forall i | 0 <= i < |ms| :: ms[i] == 2 * half[i]
  }

  /** Strictly decreasing powers of two above one are twice such a list. */
  lemma {:induction false} Halved(ms: seq<int>) returns (half: seq<int>)
    requires Strict(ms) && (ms == [] || ms[|ms| - 1] > 1)
    ensures Strict(half) && Doubles(ms, half)
  {
    if ms == [] { return []; }
    var n := |ms| - 1;
    assert Strict(ms[..n]);
    if n > 0 { assert ms[n - 1] > ms[n]; }
    half := Halved(ms[..n]);
    assert PowerOfTwo(ms[n]);
    var last := ReachedHalf(1, ms[n]);
    forall i | 0 <= i < n ensures half[i] > last { assert ms[..n][i] == ms[i] > ms[n]; }
    assert forall i | 0 <= i < n :: ms[i] == ms[..n][i];
    half := half + [last];
  }

  lemma SplitLast(ms: seq<int>) returns (high: seq<int>)
    requires Strict(ms) && ms != []
    ensures Strict(high) && (high == [] || high[|high| - 1] > 1)
    ensures ms == high + (if ms[|ms| - 1] == 1 then [1] else [])
    ensures Sum(ms) == Sum(high) + (if ms[|ms| - 1] == 1 then 1 else 0)
  {
    var n := |ms| - 1;
    assert PowerOfTwo(ms[n]);
    ReachedAbove(1, ms[n]);
    high := if ms[n] == 1 then ms[..n] else ms;
    if ms[n] == 1 && n > 0 { assert ms[n - 1] > ms[n]; }
  }

  lemma {:induction false} StrictIsBinary(ms: seq<int>)
    requires Strict(ms)
    ensures Sum(ms) >= 0 && ms == Binary(Sum(ms))
    decreases |ms|, Sum(ms)
  {
    SumPositive(ms);
    if ms != [] {
      var high := SplitLast(ms);
      var half := Halved(high);
      assert Twice(half) == high;
      SumTwice(half);
      SumPositive(half);
      StrictIsBinary(half);
    }
  }

  function Masses(runs: seq<Segment>): (ms: seq<int>)
    ensures |ms| == |runs|
  {
    seq(|runs|, i requires 0 <= i < |runs| => Mass(runs[i]))
  }

  lemma {:induction false} SumMasses(runs: seq<Segment>, m: nat)
    requires Shape(IntervalsOf(runs)) && m <= |runs|
    ensures Sum(Masses(runs[..m])) == End(runs[..m])
  {
    if m > 0 {
      assert Masses(runs[..m])[..m - 1] == Masses(runs[..m - 1]);
      SumMasses(runs, m - 1);
      TileEnd(runs, m - 1);
    }
  }

  lemma {:induction false} Falling(runs: seq<Segment>, i: nat, j: nat)
    requires Shape(IntervalsOf(runs)) && i < j < |runs|
    ensures Mass(runs[i]) > Mass(runs[j]) || (j == |runs| - 1 && Mass(runs[j]) == 1 && Mass(runs[j - 1]) == 1)
    decreases j
  {
    assert IntervalFits(IntervalsOf(runs), j);
    if i < j - 1 { Falling(runs, i, j - 1); }
  }

  lemma SettledStrict(runs: seq<Segment>)
    requires Shape(IntervalsOf(runs))
    requires |runs| < 2 || Mass(runs[|runs| - 2]) != Mass(runs[|runs| - 1])
    ensures Strict(Masses(runs))
  {
    var ms := Masses(runs);
    forall i | 0 <= i < |ms| ensures PowerOfTwo(ms[i]) {
      assert IntervalFits(IntervalsOf(runs), i);
      assert IntervalsOf(runs)[i] == Interval(runs[i].first, runs[i].last);
    }
    forall i, j | 0 <= i < j < |ms| ensures ms[i] > ms[j] { Falling(runs, i, j); }
  }

  /** The masses of a settled frontier are the binary digits of the admission count. */
  lemma SettledIsBinary(s: Snapshot, log: seq<Record>, policy: Policy, K: nat)
    requires Published(s, log, policy, K) && Settled(s)
    ensures Masses(s.runs) == Binary(|log|)
  {
    FallingIsBinary(s.runs);
  }

  lemma FallingIsBinary(runs: seq<Segment>)
    requires Shape(IntervalsOf(runs))
    requires |runs| < 2 || Mass(runs[|runs| - 2]) != Mass(runs[|runs| - 1])
    ensures Masses(runs) == Binary(End(runs))
  {
    assert runs[..|runs|] == runs;
    SettledStrict(runs);
    SumMasses(runs, |runs|);
    StrictIsBinary(Masses(runs));
  }

  /** Without its newest run a frontier is strictly falling. */
  lemma ShapePrefix(runs: seq<Segment>)
    requires Shape(IntervalsOf(runs)) && |runs| >= 1
    ensures var older := runs[..|runs| - 1];
            Shape(IntervalsOf(older)) && (|older| < 2 || Mass(older[|older| - 2]) != Mass(older[|older| - 1]))
  {
    var older := runs[..|runs| - 1];
    forall i | 0 <= i < |older| ensures IntervalFits(IntervalsOf(older), i) {
      assert IntervalFits(IntervalsOf(runs), i);
    }
    if |older| >= 2 { assert IntervalFits(IntervalsOf(runs), |older| - 1); }
  }

  /** Equal masses at the end are two single admissions. */
  lemma PairIsOne(runs: seq<Segment>)
    requires Shape(IntervalsOf(runs)) && |runs| >= 2
    requires Mass(runs[|runs| - 2]) == Mass(runs[|runs| - 1])
    ensures Mass(runs[|runs| - 1]) == 1 && End(runs) == End(runs[..|runs| - 1]) + 1
  {
    assert IntervalFits(IntervalsOf(runs), |runs| - 1);
    TileEnd(runs, |runs| - 1);
  }

  lemma PairIsBinary(runs: seq<Segment>)
    requires Shape(IntervalsOf(runs)) && |runs| >= 2
    requires Mass(runs[|runs| - 2]) == Mass(runs[|runs| - 1])
    ensures End(runs) > 0 && Masses(runs) == Binary(End(runs) - 1) + [1]
  {
    var older := runs[..|runs| - 1];
    PairIsOne(runs);
    ShapePrefix(runs);
    FallingIsBinary(older);
    hide Shape, Masses, Binary;
    MassesNext(runs);
  }

  /** A frontier with a pending carry is the one before the last admission, and that admission. */
  lemma UnsettledIsBinary(s: Snapshot, log: seq<Record>, policy: Policy, K: nat)
    requires Published(s, log, policy, K) && !Settled(s)
    ensures |log| > 0 && Masses(s.runs) == Binary(|log| - 1) + [1]
  {
    PairIsBinary(s.runs);
  }

  lemma MassesNext(runs: seq<Segment>)
    requires |runs| >= 1
    ensures Masses(runs) == Masses(runs[..|runs| - 1]) + [Mass(runs[|runs| - 1])]
  {
  }
}
