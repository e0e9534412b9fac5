/** The resumable merge of two native runs (native_merge_builder). */
module NativeBuilders {
  // The builder emits one distinct key at a time. Its finished output is the whole-key merge of the inputs, front
  // coded as tightly as the owners allow: an ordinary record keeps everything it shares with the key before it, a
  // tombstone as much of that as every record it replaces.

  import opened Options
  import opened Keys
  import opened Frontier
  import opened ColaSpec
  import opened QueryContexts
  import opened ColaQuery
  import opened NativeStreams
  import opened NativeMerges
  import opened NativeMeaning

  /** The least retained length among the input records of a key. */
  ghost function LeastRetained(older: Run, newer: Run, k: Key): nat
    requires Aligned(older) && Aligned(newer)
  {
    var a, b := Lookup(older.keys, k), Lookup(newer.keys, k);
    if a.None? then (if b.None? then 0 else newer.retained[b.value])
    else if b.None? then older.retained[a.value]
    else Min(older.retained[a.value], newer.retained[b.value])
  }

  /** The limit of an entry is attained by an input record of its key. */
  lemma {:induction false} LimitAttained(older: Run, newer: Run, i: nat, j: nat, policy: Policy, t: nat)
    returns (fromOlder: bool, x: nat)
    requires NativeRun(older) && NativeRun(newer) && i <= |older.keys| && j <= |newer.keys|
    requires t < |Merged(older, newer, i, j, policy)|
    ensures var e := Merged(older, newer, i, j, policy)[t];
            if fromOlder then x < |older.keys| && older.keys[x] == e.key && older.retained[x] == e.limit
            else x < |newer.keys| && newer.keys[x] == e.key && newer.retained[x] == e.limit
    decreases |older.keys| - i + |newer.keys| - j
  {
    var di, dj := FromOlder(older, newer, i, j), FromNewer(older, newer, i, j);
    if t == 0 {
      fromOlder := Turn(older, newer, i, j) < 0
                   || (Turn(older, newer, i, j) == 0 && older.retained[i] <= newer.retained[j]);
      x := if fromOlder then i else j;
      if Turn(older, newer, i, j) == 0 { OrderZero(older.keys[i], newer.keys[j]); }
    } else {
      fromOlder, x := LimitAttained(older, newer, i + di, j + dj, policy, t - 1);
    }
  }

  lemma LimitIsLeast(older: Run, newer: Run, policy: Policy, t: nat)
    requires NativeRun(older) && NativeRun(newer) && t < |Merged(older, newer, 0, 0, policy)|
    ensures var e := Merged(older, newer, 0, 0, policy)[t]; e.limit == LeastRetained(older, newer, e.key)
  {
    var e := Merged(older, newer, 0, 0, policy)[t];
    var fromOlder, x := LimitAttained(older, newer, 0, 0, policy, t);
    var a, b := Lookup(older.keys, e.key), Lookup(newer.keys, e.key);
    if a.Some? { LimitCoversOlder(older, newer, 0, 0, policy, t, a.value); }
    if b.Some? { LimitCoversNewer(older, newer, 0, 0, policy, t, b.value); }
    if fromOlder { LookupUnique(older.keys, e.key, Some(x)); } else { LookupUnique(newer.keys, e.key, Some(x)); }
  }

  /** What every record of a merged run retains, read off its keys and the inputs alone. */
  lemma MergedRetains(older: Run, newer: Run, policy: Policy, t: nat)
    requires NativeRun(older) && NativeRun(newer) && t < |MergedRun(older, newer, policy).keys|
    ensures var run := MergedRun(older, newer, policy);
            var shared := if t == 0 then 0 else Lcp(run.keys[t - 1], run.keys[t]);
            run.retained[t] == if policy.tombstone(run.keys[t], run.values[t])
                               then Min(shared, LeastRetained(older, newer, run.keys[t])) else shared
  {
    var entries := Merged(older, newer, 0, 0, policy);
    RunOfAt(entries, policy, t);
    LimitIsLeast(older, newer, policy, t);
    if t > 0 { RunOfAt(entries, policy, t - 1); } else { EmptyIsLeast(entries[0].key); }
  }

  /** Frame t holds the value of record t and retains all it shares, or for a tombstone the least of that and what the
      records it replaces retained. */
  ghost predicate FinishedFrame(out: Stream, older: Run, newer: Run, policy: Policy, t: nat)
    requires Aligned(older) && Aligned(newer) && t < |out.frames| == |MergedRun(older, newer, policy).keys|
  {
    var run := MergedRun(older, newer, policy);
    var shared := if t == 0 then 0 else Lcp(run.keys[t - 1], run.keys[t]);
    && out.frames[t].value == run.values[t]
    && out.frames[t].retained == (if policy.tombstone(run.keys[t], run.values[t])
                                  then Min(shared, LeastRetained(older, newer, run.keys[t])) else shared)
  }

  lemma FinishedFrames(out: Stream, older: Run, newer: Run, policy: Policy)
    requires NativeRun(older) && NativeRun(newer) && Reads(out, MergedRun(older, newer, policy))
    ensures |out.frames| == |MergedRun(older, newer, policy).keys|
    ensures forall t | 0 <= t < |out.frames| :: FinishedFrame(out, older, newer, policy, t)
  {
    forall t | 0 <= t < |out.frames| ensures FinishedFrame(out, older, newer, policy, t) {
      MergedRetains(older, newer, policy, t);
      assert FrameReads(out, MergedRun(older, newer, policy), t);
    }
  }

  datatype Progress = Progress(keys: nat, records: nat)

  class NativeMergeBuilder {
    const inputs: Inputs
    const policy: Policy
    ghost const runs: Runs
    var state: State
    var progress: Progress
    ghost var emitted: seq<Entry>

    /** Emitted so far, plus what whole-key merging would still emit, is the whole merge. */
    ghost predicate Valid()
      reads this
    {
      && Opened(inputs, runs) && Ready(inputs, runs, state, emitted) && Written(state.writer, emitted, policy)
      && emitted + Merged(runs.older, runs.newer, state.older.ordinal, state.newer.ordinal, policy)
         == Merged(runs.older, runs.newer, 0, 0, policy)
      && progress == Progress(|emitted|, state.older.ordinal + state.newer.ordinal)
    }

    constructor (olderStream: Stream, newerStream: Stream, p: Policy, ghost olderRun: Run, ghost newerRun: Run)
      requires Opened(Inputs(olderStream, newerStream), Runs(olderRun, newerRun))
      ensures Valid() && progress == Progress(0, 0) && policy == p && runs == Runs(olderRun, newerRun)
    {
      inputs, runs, policy := Inputs(olderStream, newerStream), Runs(olderRun, newerRun), p;
      var older := OpenCursor(olderStream, olderRun);
      var newer := OpenCursor(newerStream, newerRun);
      state, progress, emitted := State(older, newer, 0, 0, Stream([], [])), Progress(0, 0), [];
      new;
      if 0 < |olderRun.keys| { EmptyIsLeast(olderRun.keys[0]); }
      if 0 < |newerRun.keys| { EmptyIsLeast(newerRun.keys[0]); }
    }

    predicate Done()
      reads this
    {
      state.older.ordinal == |inputs.older.frames| && state.newer.ordinal == |inputs.newer.frames|
    }

    method Advance() returns (consumed: nat)
      requires Valid() && !Done()
      modifies this
      ensures Valid() && consumed >= 1
      ensures progress == Progress(old(progress).keys + 1, old(progress).records + consumed)
    {
      hide Covers, HeadReady, FrameReads, RunOf;
      ghost var rest := Merged(runs.older, runs.newer, state.older.ordinal, state.newer.ordinal, policy);
      ghost var was := emitted;
      emitted := emitted + [NextEntry(runs.older, runs.newer, state.older.ordinal, state.newer.ordinal, policy)];
      state, consumed := StepOne(inputs, state, policy, runs, was);
      progress := Progress(progress.keys + 1, progress.records + consumed);
      assert was + rest == emitted + rest[1..];
    }

    /** The keys emitted tell how far the merge is. */
    lemma EmittedSoFar()
      requires Valid()
      ensures NativeRun(runs.older) && NativeRun(runs.newer)
      ensures progress.keys <= |MergedRun(runs.older, runs.newer, policy).keys|
      ensures Done() <==> progress.keys == |MergedRun(runs.older, runs.newer, policy).keys|
    {
      hide RunOf, Covers, HeadReady, FrameReads;
      var rest := Merged(runs.older, runs.newer, state.older.ordinal, state.newer.ordinal, policy);
      assert |emitted| + |rest| == |Merged(runs.older, runs.newer, 0, 0, policy)|;
      assert Done() <==> rest == [];
    }

    /** At most `budget` distinct keys; the counts reported are the counts made. */
    method Step(budget: nat) returns (work: Progress)
      requires Valid()
      modifies this
      ensures Valid() && work.keys <= budget && (work.keys < budget ==> Done())
      ensures budget > 0 && !old(Done()) ==> work.keys > 0 && work.records > 0
      ensures progress.records <= |runs.older.keys| + |runs.newer.keys|
      ensures progress == Progress(old(progress).keys + work.keys, old(progress).records + work.records)
    {
      var keys, records := 0, 0;
      while keys < budget && !Done()
        invariant Valid() && keys <= budget && records >= keys
        invariant progress.keys == old(progress.keys) + keys && progress.records == old(progress.records) + records
        decreases budget - keys
      {
        var consumed := Advance();
        keys, records := keys + 1, records + consumed;
      }
      work := Progress(keys, records);
    }

    /** The finished output spells exactly the front-coded run of the whole-key merge. */
    method Finish() returns (out: Stream)
      requires Valid() && Done()
      ensures Reads(out, MergedRun(runs.older, runs.newer, policy))
      ensures NativeRun(runs.older) && NativeRun(runs.newer)
      ensures |out.frames| == |MergedRun(runs.older, runs.newer, policy).keys|
      ensures forall t | 0 <= t < |out.frames| :: FinishedFrame(out, runs.older, runs.newer, policy, t)
      ensures progress == Progress(|Merged(runs.older, runs.newer, 0, 0, policy)|,
                                   |runs.older.keys| + |runs.newer.keys|)
    {
      out := state.writer;
      assert emitted + [] == emitted;
      FinishedFrames(out, runs.older, runs.newer, policy);
    }
  }
}
