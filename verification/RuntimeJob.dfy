/** The private carry chain of the runtime as data, and what each of its transitions keeps. */
module RuntimeJobs {
  import opened Options
  import opened Keys
  import opened StableMerge
  import opened ColaSpec
  import ColaBuilder
  import opened ColaQuery
  import opened ColaRoot
  import opened NativeMerges
  import opened NativeMeaning
  import opened RuntimeSnapshots

  datatype Stage = MergeStart | MergeStep | MergeFinish | IndexStart | IndexStep | IndexFinish | Publish

  datatype Job = Job(prefix: seq<Segment>, older: Segment, carry: Run, first: nat, last: nat,
                     target: Option<Index>, head: Option<Index>, result: Option<Index>, carrier: bool, stage: Stage)

  predicate Merging(stage: Stage) {
    stage.MergeStart? || stage.MergeStep? || stage.MergeFinish?
  }

  ghost predicate Trust(current: Option<Index>, K: nat) {
    K > 0 && MainOnly(current) && (current.Some? ==> WellFormed(current.value, K))
  }

  /** While merging: the carry covers everything after `older`, at the same mass. */
  ghost predicate MergeAt(j: Job, runs: seq<Segment>, log: seq<Record>, policy: Policy) {
    var m := |j.prefix|;
    && m + 2 <= |runs| && j.prefix == runs[..m] && j.older == runs[m] && j.target == runs[m].node.main
    && j.first == runs[m].last && j.last == |log| && j.last - j.first == Mass(runs[m])
    && Holds(j.carry, log, j.first, j.last, policy) && !j.carrier
  }

  /** After the last merge: the carry covers everything after the prefix and is smaller than what it follows. */
  ghost predicate Carried(j: Job, runs: seq<Segment>, log: seq<Record>, policy: Policy) {
    var m := |j.prefix|;
    && m + 2 <= |runs| && j.prefix == runs[..m] && j.first == End(j.prefix) && j.last == |log|
    && PowerOfTwo(j.last - j.first) && (m > 0 ==> j.last - j.first < Mass(runs[m - 1]))
    && Holds(j.carry, log, j.first, j.last, policy)
  }

  function Outcome(j: Job): seq<Segment>
    requires j.result.Some?
  {
    j.prefix + [Segment(j.first, j.last, j.result.value)]
  }

  ghost predicate ResultAt(j: Job, K: nat) {
    && j.result.Some? && j.result.value.native == j.carry && Trust(j.result, K)
    && Sources(j.result.value.main) == Back(j.prefix)
  }

  /** The index under construction stands over exactly the older runs, or over the finished result. */
  ghost predicate IndexAt(j: Job, runs: seq<Segment>, log: seq<Record>, policy: Policy, K: nat) {
    && Carried(j, runs, log, policy) && Trust(j.target, K)
    && if j.carrier then ResultAt(j, K) && j.target.Some? && Sources(j.target) == Back(Outcome(j))
       else Sources(j.target) == Back(j.prefix)
  }

  ghost predicate PublishAt(j: Job, runs: seq<Segment>, log: seq<Record>, policy: Policy, K: nat) {
    && Carried(j, runs, log, policy) && K > 0 && ResultAt(j, K)
    && j.head.Some? && HeadAt(j.head.value, Outcome(j), K) && j.head.value.count <= K
  }

  ghost predicate JobAt(j: Job, runs: seq<Segment>, log: seq<Record>, policy: Policy, K: nat) {
    if Merging(j.stage) then MergeAt(j, runs, log, policy)
    else if j.stage.Publish? then PublishAt(j, runs, log, policy, K)
    else IndexAt(j, runs, log, policy, K)
  }

  /** Moving on within merging or within indexing keeps everything but the stage. */
  lemma StageMoves(j: Job, stage: Stage, runs: seq<Segment>, log: seq<Record>, policy: Policy, K: nat)
    requires JobAt(j, runs, log, policy, K)
    requires Merging(j.stage) <==> Merging(stage)
    requires !j.stage.Publish? && !stage.Publish?
    ensures JobAt(j.(stage := stage), runs, log, policy, K)
  {
  }

  /** What a merge takes: two native runs. */
  lemma MergeTakes(j: Job, s: Snapshot, log: seq<Record>, policy: Policy, K: nat)
    requires Published(s, log, policy, K) && JobAt(j, s.runs, log, policy, K) && Merging(j.stage)
    ensures NativeRun(j.older.node.native) && NativeRun(j.carry) && MergeAt(j, s.runs, log, policy)
  {
    assert SegmentAt(s.runs, |j.prefix|, log, policy, K);
  }

  /** What an index takes: a native run over a trusted target. */
  lemma IndexTakes(j: Job, runs: seq<Segment>, log: seq<Record>, policy: Policy, K: nat)
    requires JobAt(j, runs, log, policy, K) && !Merging(j.stage) && !j.stage.Publish?
    ensures ColaBuilder.TrustedSources(IndexNative(j), j.target, None, K)
    ensures IndexAt(j, runs, log, policy, K)
  {
  }

  // ----- starting

  function StartOf(s: Snapshot): Job
    requires |s.runs| >= 2
  {
    var n := |s.runs|;
    var newest, older := s.runs[n - 1], s.runs[n - 2];
    Job(s.runs[..n - 2], older, newest.node.native, newest.first, newest.last, older.node.main, None, None, false,
        MergeStart)
  }

  lemma StartAt(s: Snapshot, log: seq<Record>, policy: Policy, K: nat)
    requires Published(s, log, policy, K) && !Settled(s)
    ensures JobAt(StartOf(s), s.runs, log, policy, K)
  {
    var n := |s.runs|;
    assert SegmentAt(s.runs, n - 1, log, policy, K);
    assert IntervalFits(IntervalsOf(s.runs), n - 1);
  }

  // ----- merging

  function AfterMerge(j: Job, merged: Run): Job {
    j.(carry := merged, first := j.older.first)
  }

  predicate MergesOn(j: Job, first: nat) {
    j.prefix != [] && Mass(j.prefix[|j.prefix| - 1]) == j.last - first
  }

  function NextMerge(j: Job): Job
    requires j.prefix != []
  {
    var m := |j.prefix| - 1;
    j.(older := j.prefix[m], prefix := j.prefix[..m], target := j.prefix[m].node.main, stage := MergeStart)
  }

  lemma FallingStrict(runs: seq<Segment>, m: nat)
    requires Shape(IntervalsOf(runs)) && 0 < m && m + 1 < |runs|
    ensures Mass(runs[m]) < Mass(runs[m - 1])
    ensures runs[m].first == runs[m - 1].last && PowerOfTwo(Mass(runs[m])) && PowerOfTwo(Mass(runs[m - 1]))
  {
    assert IntervalFits(IntervalsOf(runs), m);
    assert IntervalFits(IntervalsOf(runs), m - 1);
  }

  /** A finished merge doubles the carry; the next merge, if any, is again between equal masses. */
  lemma MergeDone(j: Job, merged: Run, s: Snapshot, log: seq<Record>, policy: Policy, K: nat)
    requires Published(s, log, policy, K) && MergeAt(j, s.runs, log, policy) && Associative(policy)
    requires NativeRun(j.older.node.native) && merged == MergedRun(j.older.node.native, j.carry, policy)
    ensures var after := AfterMerge(j, merged);
            && after.first < after.last
            && (MergesOn(after, after.first) ==> JobAt(NextMerge(after), s.runs, log, policy, K))
            && (!MergesOn(after, after.first) ==> Carried(after, s.runs, log, policy))
    ensures Trust(j.target, K) && Sources(j.target) == Back(j.prefix)
  {
    DoubledCarry(j, merged, s, log, policy, K);
    MergedContent(j, merged, s, log, policy, K);
    var after := AfterMerge(j, merged);
    hide Published, MergeAt, MergedRun, NativeRun, Associative, Carried, JobAt, Trust, Sources, Doubled, MergesOn, AfterMerge;
    if MergesOn(after, after.first) { NextMergeAt(after, s.runs, log, policy, K); } else { CarryStays(after, s.runs, log, policy); }
  }

  /** After a merge: the carry tiles on from the prefix and is at most as large as the last run of it. */
  ghost predicate Doubled(j: Job, runs: seq<Segment>, log: seq<Record>, policy: Policy) {
    var m := |j.prefix|;
    && m + 2 <= |runs| && j.prefix == runs[..m] && j.last == |log| && !j.carrier
    && j.first == End(j.prefix) && j.first < j.last && PowerOfTwo(j.last - j.first)
    && (m > 0 ==> runs[m - 1].last == j.first && j.last - j.first <= Mass(runs[m - 1]))
    && Holds(j.carry, log, j.first, j.last, policy)
  }

  lemma DoubledCarry(j: Job, merged: Run, s: Snapshot, log: seq<Record>, policy: Policy, K: nat)
    requires Published(s, log, policy, K) && MergeAt(j, s.runs, log, policy) && Associative(policy)
    requires NativeRun(j.older.node.native) && merged == MergedRun(j.older.node.native, j.carry, policy)
    ensures var after := AfterMerge(j, merged);
            Doubled(after, s.runs, log, policy) && after.first < after.last && after.prefix == j.prefix
  {
    hide Holds, Segments, WellFormed, Reached, MergedRun, Associative, NativeRun, HeadAt, Trust, Shape;
    MergedContent(j, merged, s, log, policy, K);
    MergedMass(s.runs, |j.prefix|, j.first, j.last);
  }

  lemma NextMergeAt(j: Job, runs: seq<Segment>, log: seq<Record>, policy: Policy, K: nat)
    requires Doubled(j, runs, log, policy) && MergesOn(j, j.first)
    ensures j.prefix != [] && JobAt(NextMerge(j), runs, log, policy, K)
  {
    hide Holds, PowerOfTwo;
    var m := |j.prefix|;
    assert runs[..m][..m - 1] == runs[..m - 1];
  }

  lemma CarryStays(j: Job, runs: seq<Segment>, log: seq<Record>, policy: Policy)
    requires Doubled(j, runs, log, policy) && !MergesOn(j, j.first)
    ensures Carried(j, runs, log, policy)
  {
    hide Holds, PowerOfTwo;
  }

  /** The doubled carry still tiles the frontier and is at most as large as the run before it. */
  lemma MergedMass(runs: seq<Segment>, m: nat, first: nat, last: nat)
    requires Shape(IntervalsOf(runs)) && m + 2 <= |runs| && first == runs[m].last && last - first == Mass(runs[m])
    ensures runs[m].first == End(runs[..m]) && runs[m].first < last && PowerOfTwo(last - runs[m].first)
    ensures m > 0 ==> runs[m - 1].last == runs[m].first && last - runs[m].first <= Mass(runs[m - 1])
    ensures m > 0 ==> runs[m - 1].first == End(runs[..m - 1])
  {
    assert IntervalFits(IntervalsOf(runs), m);
    ReachedDouble(1, Mass(runs[m]));
    TileEnd(runs, m);
    if m > 0 {
      TileEnd(runs, m - 1);
      FallingStrict(runs, m);
      PowersGap(Mass(runs[m]), Mass(runs[m - 1]));
    }
  }

  /** The merged run holds everything from the older run's start on. */
  lemma MergedContent(j: Job, merged: Run, s: Snapshot, log: seq<Record>, policy: Policy, K: nat)
    requires Published(s, log, policy, K) && MergeAt(j, s.runs, log, policy) && Associative(policy)
    requires NativeRun(j.older.node.native) && merged == MergedRun(j.older.node.native, j.carry, policy)
    ensures Holds(merged, log, j.older.first, j.last, policy)
    ensures Trust(j.target, K) && Sources(j.target) == Back(j.prefix)
  {
    var m := |j.prefix|;
    assert SegmentAt(s.runs, m, log, policy, K);
    assert IntervalFits(IntervalsOf(s.runs), m);
    hide Reached, MergedRun, Associative;
    HoldsMerged(j.older.node.native, j.carry, log, j.older.first, j.first, j.last, policy);
  }

  /** An empty routing node that may be skipped: what it routes to is small enough for a run of this mass. */
  predicate Skippable(target: Option<Index>, mass: int, K: nat) {
    && target.Some? && target.value.native.keys == [] && target.value.main.Some?
    && target.value.main.value.count <= mass * K
  }

  /** The first node of a chain that may not be skipped. */
  function Nearest(target: Option<Index>, mass: int, K: nat): Option<Index>
    decreases target
  {
    if Skippable(target, mass, K) then Nearest(target.value.main, mass, K) else target
  }

  /** `near`: skip empty routing nodes whose target is small enough, never a native run, and no further. */
  method Near(target: Option<Index>, mass: nat, K: nat) returns (near: Option<Index>)
    requires Trust(target, K)
    ensures Trust(near, K) && Sources(near) == Sources(target) && (near.None? <==> target.None?)
    ensures near == Nearest(target, mass, K)
    ensures near.Some? ==> near.value.native.keys != [] || near.value.main.None? || near.value.main.value.count > mass * K
    ensures near == target || (target.value.native.keys == [] && target.value.main.Some?
                               && target.value.main.value.count <= mass * K)
  {
    near := target;
    while near.Some? && near.value.native.keys == [] && near.value.main.Some?
          && near.value.main.value.count <= mass * K
      invariant Trust(near, K) && Sources(near) == Sources(target) && (near.None? <==> target.None?)
      invariant Nearest(near, mass, K) == Nearest(target, mass, K)
      invariant near == target || Skippable(target, mass, K)
      decreases Depth(near)
    {
      near := near.value.main;
    }
  }

  lemma NearAt(j: Job, near: Option<Index>, runs: seq<Segment>, log: seq<Record>, policy: Policy, K: nat)
    requires Carried(j, runs, log, policy) && Trust(near, K) && Sources(near) == Back(j.prefix) && !j.carrier
    ensures JobAt(j.(target := near, stage := IndexStart), runs, log, policy, K)
  {
  }

  // ----- indexing

  function IndexNative(j: Job): Run {
    if j.carrier then EmptyRun else j.carry
  }

  ghost predicate BuiltFor(j: Job, built: Index, K: nat) {
    K > 0 && WellFormed(built, K) && built.native == IndexNative(j) && built.main == j.target && built.secondary.None?
  }

  function AfterIndex(j: Job, built: Index, K: nat): Job {
    var k := if j.carrier then j.(head := Some(built)) else j.(head := Some(built), result := Some(built));
    if built.count > K then k.(target := Some(built), carrier := true, stage := IndexStart) else k.(stage := Publish)
  }

  lemma BackAppend(runs: seq<Segment>, s: Segment)
    ensures Back(runs + [s]) == [s.node] + Back(runs)
  {
    assert (runs + [s])[..|runs|] == runs;
  }

  /** A finished index is the result or one more carrier over it; carriers go on until one window holds the head. */
  lemma IndexDone(j: Job, built: Index, s: Snapshot, log: seq<Record>, policy: Policy, K: nat)
    requires IndexAt(j, s.runs, log, policy, K) && BuiltFor(j, built, K) && j.stage.IndexFinish?
    ensures JobAt(AfterIndex(j, built, K), s.runs, log, policy, K)
  {
    hide WellFormed;
    var k := AfterIndex(j, built, K);
    if j.carrier {
      CarrierDone(j, built, K);
      assert Outcome(k) == Outcome(j) && ResultAt(k, K);
    } else {
      ResultDone(j, built, K);
      assert Outcome(k) == j.prefix + [Segment(j.first, j.last, built)] && ResultAt(k, K);
    }
    assert Carried(k, s.runs, log, policy);
    assert HeadAt(built, Outcome(k), K);
  }

  lemma CarrierDone(j: Job, built: Index, K: nat)
    requires BuiltFor(j, built, K) && j.carrier && j.result.Some? && Trust(j.target, K)
    requires Sources(j.target) == Back(Outcome(j))
    ensures Trust(Some(built), K) && Sources(Some(built)) == Back(Outcome(j))
  {
  }

  lemma ResultDone(j: Job, built: Index, K: nat)
    requires BuiltFor(j, built, K) && !j.carrier && |j.carry.keys| > 0 && Trust(j.target, K)
    requires Sources(j.target) == Back(j.prefix)
    ensures Trust(Some(built), K)
    ensures Sources(Some(built)) == Back(j.prefix + [Segment(j.first, j.last, built)])
  {
    BackAppend(j.prefix, Segment(j.first, j.last, built));
  }

  /** Every carrier is smaller than the node it samples. */
  lemma CarrierShrinks(j: Job, built: Index, K: nat)
    requires BuiltFor(j, built, K) && j.carrier && j.target.Some? && j.target.value.count > K >= 3
    ensures built.count < j.target.value.count
  {
    EmptyNodeCount(built, K);
    GroupCountShrinks(j.target.value.count, K);
  }

  // ----- publishing

  function Outgoing(j: Job): Snapshot
    requires j.head.Some? && j.result.Some?
  {
    Snapshot(j.head.value, Outcome(j), j.last)
  }

  lemma ShapeExtends(runs: seq<Segment>, m: nat, seg: Segment)
    requires Shape(IntervalsOf(runs)) && m <= |runs|
    requires m == |runs| > 1 ==> Mass(runs[m - 1]) != Mass(runs[m - 2])
    requires seg.first == End(runs[..m]) < seg.last && PowerOfTwo(Mass(seg))
    requires m > 0 ==> Mass(seg) < Mass(runs[m - 1]) || (Mass(seg) == 1 && Mass(runs[m - 1]) == 1)
    ensures Shape(IntervalsOf(runs[..m] + [seg]))
  {
    var next := runs[..m] + [seg];
    forall i | 0 <= i < |next| ensures IntervalFits(IntervalsOf(next), i) {
      if i < m { assert IntervalFits(IntervalsOf(runs), i); }
    }
  }

  lemma SegmentsExtend(runs: seq<Segment>, m: nat, seg: Segment, log: seq<Record>, policy: Policy, K: nat)
    requires K > 0 && Segments(runs, log, policy, K) && m <= |runs|
    requires Holds(seg.node.native, log, seg.first, seg.last, policy) && Trust(Some(seg.node), K)
    requires Sources(seg.node.main) == Back(runs[..m])
    ensures Segments(runs[..m] + [seg], log, policy, K)
  {
    var next := runs[..m] + [seg];
    forall i | 0 <= i < |next| ensures SegmentAt(next, i, log, policy, K) {
      assert next[..i] == runs[..i];
      if i < m { assert SegmentAt(runs, i, log, policy, K); }
    }
  }

  /** Publishing replaces the layout and nothing else: the snapshot is again exact for the same log, and settled. */
  lemma PublishDone(j: Job, s: Snapshot, log: seq<Record>, policy: Policy, K: nat)
    requires Published(s, log, policy, K) && PublishAt(j, s.runs, log, policy, K)
    ensures Published(Outgoing(j), log, policy, K) && Settled(Outgoing(j))
  {
    var m, seg := |j.prefix|, Segment(j.first, j.last, j.result.value);
    ShapeExtends(s.runs, m, seg);
    SegmentsExtend(s.runs, m, seg, log, policy, K);
  }

  /** What publishing takes: a bounded head whose chain is adopted as it stands. */
  lemma PublishTakes(j: Job, s: Snapshot, log: seq<Record>, policy: Policy, K: nat)
    requires Published(s, log, policy, K) && JobAt(j, s.runs, log, policy, K) && j.stage.Publish?
    ensures j.head.Some? && j.result.Some? && j.head.value.count <= K && ChainAgrees(j.head, K)
    ensures Published(Outgoing(j), log, policy, K) && Settled(Outgoing(j))
  {
    PublishDone(j, s, log, policy, K);
    WellFormedAgrees(j.head, K);
  }

  /** Admitting one record over a settled frontier. */
  lemma AdmitDone(s: Snapshot, node: Index, r: Record, log: seq<Record>, policy: Policy, K: nat)
    requires Published(s, log, policy, K) && Settled(s)
    requires WellFormed(node, K) && node.native == Single(r) && node.main == Some(s.head) && node.secondary.None?
    requires node.count <= K
    ensures Published(Snapshot(node, s.runs + [Segment(|log|, |log| + 1, node)], |log| + 1), log + [r], policy, K)
  {
    var n, seg := |s.runs|, Segment(|log|, |log| + 1, node);
    assert s.runs[..n] == s.runs;
    OldSegments(s.runs, log, r, policy, K);
    AdmitShape(s.runs, seg);
    AdmitHead(s, node, seg, K);
    HoldsSingle(log, r, policy);
    hide Shape, Segments, WellFormed, Holds, Sources, Back;
    SegmentsExtend(s.runs, n, seg, log + [r], policy, K);
  }

  /** The older runs hold what they held in the longer log. */
  lemma OldSegments(runs: seq<Segment>, log: seq<Record>, r: Record, policy: Policy, K: nat)
    requires K > 0 && Segments(runs, log, policy, K) && Shape(IntervalsOf(runs)) && End(runs) == |log|
    ensures Segments(runs, log + [r], policy, K)
  {
    forall i | 0 <= i < |runs| ensures SegmentAt(runs, i, log + [r], policy, K) {
      assert SegmentAt(runs, i, log, policy, K);
      HoldsLonger(runs[i].node.native, log, r, runs[i].first, runs[i].last, policy);
    }
  }

  lemma AdmitShape(runs: seq<Segment>, seg: Segment)
    requires Shape(IntervalsOf(runs)) && seg.first == End(runs) && seg.last == seg.first + 1
    requires |runs| > 1 ==> Mass(runs[|runs| - 1]) != Mass(runs[|runs| - 2])
    ensures Shape(IntervalsOf(runs + [seg]))
  {
    var n := |runs|;
    assert runs[..n] == runs;
    if n > 0 {
      assert IntervalFits(IntervalsOf(runs), n - 1);
      ReachedAbove(1, Mass(runs[n - 1]));
    }
    ShapeExtends(runs, n, seg);
  }

  lemma AdmitHead(s: Snapshot, node: Index, seg: Segment, K: nat)
    requires K > 0 && HeadAt(s.head, s.runs, K) && seg.node == node
    requires WellFormed(node, K) && |node.native.keys| == 1 && node.main == Some(s.head) && node.secondary.None?
    ensures HeadAt(node, s.runs + [seg], K) && Trust(Some(node), K) && Sources(node.main) == Back(s.runs)
  {
    BackAppend(s.runs, seg);
  }

  /** The node of a single admission fits one window: one native record and at most one sample. */
  lemma AdmittedCount(node: Index, K: nat)
    requires K >= 2 && WellFormed(node, K) && |node.native.keys| == 1 && node.secondary.None?
    requires node.main.Some? && node.main.value.count <= K
    ensures node.count == 1 + GroupCount(node.main.value.count, K) <= 2
  {
    SamplesOf(node, K);
    LengthIsTotal(StreamsOf(node), Augmented(node));
    GroupIndex(1, node.main.value.count, K);
    assert Times(1, K) == Times(0, K) + K == K;
  }
}
