/** What the encoded merge means: the key-wise union of its inputs, composing where both hold a key. */
module NativeMeaning {
  import opened Options
  import opened Keys
  import opened Frontier
  import opened ColaSpec
  import opened QueryContexts
  import opened ColaQuery
  import opened NativeStreams
  import opened NativeMerges

  /** The value a run holds for a key. */
  ghost function ValueOf(run: Run, k: Key): Option<Value> {
    var hit := Lookup(run.keys, k);
    if hit.None? || hit.value >= |run.values| then None else Some(run.values[hit.value])
  }

  /** An older and a newer contribution to one key. */
  function Combine(policy: Policy, k: Key, older: Option<Value>, newer: Option<Value>): Option<Value> {
    if older.None? then newer else if newer.None? then older
    else Some(policy.compose(k, older.value, newer.value))
  }

  // ----- lookups along a suffix

  function ValueFrom(run: Run, i: nat, k: Key): Option<Value>
    requires Aligned(run) && i <= |run.keys|
    decreases |run.keys| - i
  {
    if i == |run.keys| then None else if run.keys[i] == k then Some(run.values[i]) else ValueFrom(run, i + 1, k)
  }

  function EntryFrom(entries: seq<Entry>, k: Key): Option<Value> {
    if entries == [] then None else if entries[0].key == k then Some(entries[0].value) else EntryFrom(entries[1..], k)
  }

  lemma {:induction false} FromHit(run: Run, i: nat, k: Key, x: nat)
    requires NativeRun(run) && i <= x < |run.keys| && run.keys[x] == k
    ensures ValueFrom(run, i, k) == Some(run.values[x])
    decreases x - i
  {
    if i < x {
      IncreasingDistinct(run.keys, i, x);
      FromHit(run, i + 1, k, x);
    }
  }

  lemma {:induction false} FromMiss(run: Run, i: nat, k: Key)
    requires Aligned(run) && i <= |run.keys| && (forall x | i <= x < |run.keys| :: run.keys[x] != k)
    ensures ValueFrom(run, i, k) == None
    decreases |run.keys| - i
  {
    if i < |run.keys| { FromMiss(run, i + 1, k); }
  }

  /** Nothing from i on holds a key below keys[i]. */
  lemma Absent(run: Run, i: nat, k: Key)
    requires NativeRun(run) && i <= |run.keys| && (i < |run.keys| ==> Lt(k, run.keys[i]))
    ensures ValueFrom(run, i, k) == None
  {
    forall x | i <= x < |run.keys| ensures run.keys[x] != k {
      if i < x { assert Lt(run.keys[i], run.keys[x]); LcpOrderedMin(k, run.keys[i], run.keys[x]); }
      OrderZero(k, run.keys[x]);
    }
    FromMiss(run, i, k);
  }

  lemma ValueOfIs(run: Run, k: Key)
    requires NativeRun(run)
    ensures ValueOf(run, k) == ValueFrom(run, 0, k)
  {
    var hit := Lookup(run.keys, k);
    if hit.Some? { FromHit(run, 0, k, hit.value); } else { FromMiss(run, 0, k); }
  }

  // ----- the merge, key by key

  lemma {:induction false} MergedValue(older: Run, newer: Run, i: nat, j: nat, policy: Policy, k: Key)
    requires NativeRun(older) && NativeRun(newer) && i <= |older.keys| && j <= |newer.keys|
    ensures EntryFrom(Merged(older, newer, i, j, policy), k)
         == Combine(policy, k, ValueFrom(older, i, k), ValueFrom(newer, j, k))
    decreases |older.keys| - i + |newer.keys| - j
  {
    if i < |older.keys| || j < |newer.keys| {
      var e, rest := NextEntry(older, newer, i, j, policy),
                     Merged(older, newer, i + FromOlder(older, newer, i, j), j + FromNewer(older, newer, i, j), policy);
      assert ([e] + rest)[1..] == rest;
      MergedValue(older, newer, i + FromOlder(older, newer, i, j), j + FromNewer(older, newer, i, j), policy, k);
      if i < |older.keys| && j < |newer.keys| {
        OrderZero(older.keys[i], newer.keys[j]);
        LcpSymmetric(older.keys[i], newer.keys[j]);
      }
      var turn := Turn(older, newer, i, j);
      if turn < 0 && older.keys[i] == k { Absent(newer, j, k); }
      if turn > 0 && newer.keys[j] == k { Absent(older, i, k); }
    }
  }

  // ----- order

  lemma {:induction false} MergedAbove(older: Run, newer: Run, i: nat, j: nat, policy: Policy, b: Key)
    requires NativeRun(older) && NativeRun(newer) && i <= |older.keys| && j <= |newer.keys|
    requires (i < |older.keys| ==> Lt(b, older.keys[i])) && (j < |newer.keys| ==> Lt(b, newer.keys[j]))
    ensures forall t | 0 <= t < |Merged(older, newer, i, j, policy)| :: Lt(b, Merged(older, newer, i, j, policy)[t].key)
    decreases |older.keys| - i + |newer.keys| - j
  {
    if i < |older.keys| || j < |newer.keys| {
      var di, dj := FromOlder(older, newer, i, j), FromNewer(older, newer, i, j);
      if di == 1 && i + 1 < |older.keys| {
        assert Lt(older.keys[i], older.keys[i + 1]);
        LcpOrderedMin(b, older.keys[i], older.keys[i + 1]);
      }
      if dj == 1 && j + 1 < |newer.keys| {
        assert Lt(newer.keys[j], newer.keys[j + 1]);
        LcpOrderedMin(b, newer.keys[j], newer.keys[j + 1]);
      }
      MergedAbove(older, newer, i + di, j + dj, policy, b);
    }
  }

  /** What follows an entry lies strictly above it. */
  lemma RestAbove(older: Run, newer: Run, i: nat, j: nat, policy: Policy, t: nat)
    requires NativeRun(older) && NativeRun(newer) && i <= |older.keys| && j <= |newer.keys|
    requires i < |older.keys| || j < |newer.keys|
    ensures var e := NextEntry(older, newer, i, j, policy);
            var rest := Merged(older, newer, i + FromOlder(older, newer, i, j), j + FromNewer(older, newer, i, j), policy);
            t < |rest| ==> Lt(e.key, rest[t].key)
  {
    var e := NextEntry(older, newer, i, j, policy);
    var di, dj := FromOlder(older, newer, i, j), FromNewer(older, newer, i, j);
    if i < |older.keys| && j < |newer.keys| {
      OrderZero(older.keys[i], newer.keys[j]);
      LcpSymmetric(older.keys[i], newer.keys[j]);
    }
    if i + 1 < |older.keys| { assert Lt(older.keys[i], older.keys[i + 1]); }
    if j + 1 < |newer.keys| { assert Lt(newer.keys[j], newer.keys[j + 1]); }
    MergedAbove(older, newer, i + di, j + dj, policy, e.key);
  }

  lemma {:induction false} MergedSorted(older: Run, newer: Run, i: nat, j: nat, policy: Policy)
    requires NativeRun(older) && NativeRun(newer) && i <= |older.keys| && j <= |newer.keys|
    ensures forall s, t | 0 <= s < t < |Merged(older, newer, i, j, policy)| ::
              Lt(Merged(older, newer, i, j, policy)[s].key, Merged(older, newer, i, j, policy)[t].key)
    decreases |older.keys| - i + |newer.keys| - j
  {
    if i < |older.keys| || j < |newer.keys| {
      var di, dj := FromOlder(older, newer, i, j), FromNewer(older, newer, i, j);
      MergedSorted(older, newer, i + di, j + dj, policy);
      var all, rest := Merged(older, newer, i, j, policy), Merged(older, newer, i + di, j + dj, policy);
      var e := NextEntry(older, newer, i, j, policy);
      assert all == [e] + rest;
      forall s, t | 0 <= s < t < |all| ensures Lt(all[s].key, all[t].key) {
        assert all[t] == rest[t - 1];
        if s > 0 { assert all[s] == rest[s - 1]; } else { RestAbove(older, newer, i, j, policy, t - 1); }
      }
    }
  }

  // ----- the output run

  lemma {:induction false} RunOfAt(entries: seq<Entry>, policy: Policy, x: nat)
    requires x < |entries|
    ensures var run := RunOf(entries, policy);
            && run.keys[x] == entries[x].key && run.values[x] == entries[x].value
            && run.retained[x] == Retained(policy, Before(entries, x), entries[x])
  {
    var n := |entries| - 1;
    if x < n {
      RunOfAt(entries[..n], policy, x);
      assert Before(entries[..n], x) == Before(entries, x);
    }
  }

  lemma {:induction false} RunOfValue(entries: seq<Entry>, policy: Policy, x: nat, k: Key)
    requires x <= |entries|
    ensures ValueFrom(RunOf(entries, policy), x, k) == EntryFrom(entries[x..], k)
    decreases |entries| - x
  {
    if x < |entries| {
      RunOfAt(entries, policy, x);
      RunOfValue(entries, policy, x + 1, k);
      assert entries[x..][1..] == entries[x + 1..];
    }
  }

  ghost function MergedRun(older: Run, newer: Run, policy: Policy): Run
    requires Aligned(older) && Aligned(newer)
  {
    RunOf(Merged(older, newer, 0, 0, policy), policy)
  }

  lemma MergedNative(older: Run, newer: Run, policy: Policy)
    requires NativeRun(older) && NativeRun(newer)
    ensures NativeRun(MergedRun(older, newer, policy))
  {
    MergedSorted(older, newer, 0, 0, policy);
    EntriesNative(Merged(older, newer, 0, 0, policy), policy);
  }

  /** Strictly sorted entries with true limits make a native run. */
  lemma EntriesNative(entries: seq<Entry>, policy: Policy)
    requires forall x, y | 0 <= x < y < |entries| :: Lt(entries[x].key, entries[y].key)
    ensures NativeRun(RunOf(entries, policy))
  {
    var run := RunOf(entries, policy);
    forall x, y | 0 <= x < y < |run.keys| ensures Lt(run.keys[x], run.keys[y]) {
      RunOfAt(entries, policy, x);
      RunOfAt(entries, policy, y);
    }
    forall x | 0 <= x < |run.keys|
      ensures x > 0 ==> run.retained[x] <= Lcp(run.keys[x - 1], run.keys[x])
      ensures x == 0 ==> run.retained[x] == 0
    {
      RunOfAt(entries, policy, x);
      if x > 0 { RunOfAt(entries, policy, x - 1); }
    }
  }

  /** The merged run is the key-wise chronological composition of its inputs: for every key, and nothing else. */
  lemma MergeIsKeywise(older: Run, newer: Run, policy: Policy, k: Key)
    requires NativeRun(older) && NativeRun(newer)
    ensures ValueOf(MergedRun(older, newer, policy), k)
         == Combine(policy, k, ValueOf(older, k), ValueOf(newer, k))
  {
    var entries := Merged(older, newer, 0, 0, policy);
    MergedNative(older, newer, policy);
    ValueOfIs(MergedRun(older, newer, policy), k);
    ValueOfIs(older, k);
    ValueOfIs(newer, k);
    RunOfValue(entries, policy, 0, k);
    assert entries[0..] == entries;
    MergedValue(older, newer, 0, 0, policy, k);
  }

  // ----- counts

  function KeySet(keys: seq<Key>): set<Key> {
    set x | x in keys
  }

  lemma {:induction false} DistinctCount(keys: seq<Key>)
    requires Increasing(keys)
    ensures |KeySet(keys)| == |keys|
  {
    if keys != [] {
      var n := |keys| - 1;
      assert Increasing(keys[..n]) by {
        forall x, y | 0 <= x < y < n ensures Lt(keys[..n][x], keys[..n][y]) { assert Lt(keys[x], keys[y]); }
      }
      DistinctCount(keys[..n]);
      if keys[n] in keys[..n] {
        var x :| 0 <= x < n && keys[..n][x] == keys[n];
        IncreasingDistinct(keys, x, n);
        assert false;
      }
      assert keys == keys[..n] + [keys[n]];
      assert KeySet(keys) == KeySet(keys[..n]) + {keys[n]};
    }
  }

  lemma HoldsKey(run: Run, k: Key)
    requires NativeRun(run)
    ensures k in run.keys <==> ValueOf(run, k).Some?
  {
  }

  /** One output record per key of the union. */
  lemma UnionCount(older: Run, newer: Run, policy: Policy)
    requires NativeRun(older) && NativeRun(newer)
    ensures |Merged(older, newer, 0, 0, policy)| == |KeySet(older.keys) + KeySet(newer.keys)|
  {
    var run := MergedRun(older, newer, policy);
    MergedNative(older, newer, policy);
    DistinctCount(run.keys);
    forall k ensures k in run.keys <==> k in older.keys || k in newer.keys {
      MergeIsKeywise(older, newer, policy, k);
      HoldsKey(run, k);
      HoldsKey(older, k);
      HoldsKey(newer, k);
    }
    assert KeySet(run.keys) == KeySet(older.keys) + KeySet(newer.keys);
  }

  lemma {:induction false} MergedBounds(older: Run, newer: Run, i: nat, j: nat, policy: Policy)
    requires Aligned(older) && Aligned(newer) && i <= |older.keys| && j <= |newer.keys|
    ensures |Merged(older, newer, i, j, policy)| <= |older.keys| - i + |newer.keys| - j
    ensures |Merged(older, newer, i, j, policy)| >= |older.keys| - i
    ensures |Merged(older, newer, i, j, policy)| >= |newer.keys| - j
    decreases |older.keys| - i + |newer.keys| - j
  {
    if i < |older.keys| || j < |newer.keys| {
      MergedBounds(older, newer, i + FromOlder(older, newer, i, j), j + FromNewer(older, newer, i, j), policy);
    }
  }

  // ----- tombstones

  lemma {:induction false} LimitCoversOlder(older: Run, newer: Run, i: nat, j: nat, policy: Policy, t: nat, x: nat)
    requires NativeRun(older) && NativeRun(newer) && i <= |older.keys| && j <= |newer.keys|
    requires t < |Merged(older, newer, i, j, policy)| && i <= x < |older.keys|
    requires older.keys[x] == Merged(older, newer, i, j, policy)[t].key
    ensures Merged(older, newer, i, j, policy)[t].limit <= older.retained[x]
    decreases |older.keys| - i + |newer.keys| - j
  {
    var di, dj := FromOlder(older, newer, i, j), FromNewer(older, newer, i, j);
    if t == 0 {
      if i < x { assert Lt(older.keys[i], older.keys[x]); }
      if j < |newer.keys| {
        LcpSymmetric(older.keys[i], newer.keys[j]);
        OrderZero(older.keys[i], newer.keys[j]);
        LcpSymmetric(older.keys[i], older.keys[x]);
      }
      OrderZero(older.keys[x], older.keys[i]);
      OrderZero(older.keys[i], older.keys[x]);
    } else {
      var e := NextEntry(older, newer, i, j, policy);
      assert Merged(older, newer, i, j, policy)[t] == Merged(older, newer, i + di, j + dj, policy)[t - 1];
      RestAbove(older, newer, i, j, policy, t - 1);
      OrderZero(e.key, older.keys[x]);
      if di == 1 && j < |newer.keys| { OrderZero(older.keys[i], newer.keys[j]); }
      LimitCoversOlder(older, newer, i + di, j + dj, policy, t - 1, x);
    }
  }

  lemma BelowLater(run: Run, j: nat, y: nat, b: Key)
    requires NativeRun(run) && j <= y < |run.keys| && Lt(b, run.keys[j])
    ensures b != run.keys[y]
  {
    if j < y { assert Lt(run.keys[j], run.keys[y]); LcpOrderedMin(b, run.keys[j], run.keys[y]); }
    OrderZero(b, run.keys[y]);
  }

  lemma SameEntry(run: Run, j: nat, y: nat)
    requires NativeRun(run) && j <= y < |run.keys| && run.keys[j] == run.keys[y]
    ensures j == y
  {
    if j < y { IncreasingDistinct(run.keys, j, y); }
  }

  lemma NewerLeads(older: Run, newer: Run, i: nat, j: nat, policy: Policy)
    requires NativeRun(older) && NativeRun(newer) && i <= |older.keys| && j < |newer.keys|
    requires FromNewer(older, newer, i, j) == 1
    ensures NextEntry(older, newer, i, j, policy).key == newer.keys[j]
  {
    if i < |older.keys| { OrderZero(older.keys[i], newer.keys[j]); }
  }

  lemma HeadIsNewer(older: Run, newer: Run, i: nat, j: nat, policy: Policy)
    requires NativeRun(older) && NativeRun(newer) && i <= |older.keys| && j < |newer.keys|
    requires i < |older.keys| ==> !Lt(older.keys[i], newer.keys[j])
    ensures |Merged(older, newer, i, j, policy)| > 0 && Merged(older, newer, i, j, policy)[0].key == newer.keys[j]
    ensures Merged(older, newer, i, j, policy)[0].limit <= newer.retained[j]
  {
    if i < |older.keys| { OrderZero(older.keys[i], newer.keys[j]); }
  }

  lemma {:induction false} LimitCoversNewer(older: Run, newer: Run, i: nat, j: nat, policy: Policy, t: nat, y: nat)
    requires NativeRun(older) && NativeRun(newer) && i <= |older.keys| && j <= |newer.keys|
    requires t < |Merged(older, newer, i, j, policy)| && j <= y < |newer.keys|
    requires newer.keys[y] == Merged(older, newer, i, j, policy)[t].key
    ensures Merged(older, newer, i, j, policy)[t].limit <= newer.retained[y]
    decreases |older.keys| - i + |newer.keys| - j
  {
    var di, dj := FromOlder(older, newer, i, j), FromNewer(older, newer, i, j);
    if t == 0 {
      if i < |older.keys| && Lt(older.keys[i], newer.keys[j]) {
        BelowLater(newer, j, y, older.keys[i]);
      } else {
        HeadIsNewer(older, newer, i, j, policy);
        SameEntry(newer, j, y);
      }
    } else {
      var e := NextEntry(older, newer, i, j, policy);
      assert Merged(older, newer, i, j, policy)[t] == Merged(older, newer, i + di, j + dj, policy)[t - 1];
      RestAbove(older, newer, i, j, policy, t - 1);
      OrderZero(e.key, newer.keys[y]);
      if dj == 1 { NewerLeads(older, newer, i, j, policy); }
      LimitCoversNewer(older, newer, i + di, j + dj, policy, t - 1, y);
    }
  }

  /** An emitted tombstone retains no more than any record it replaces. */
  lemma TombstonesRetainLeast(older: Run, newer: Run, policy: Policy, t: nat)
    requires NativeRun(older) && NativeRun(newer) && t < |MergedRun(older, newer, policy).keys|
    requires var run := MergedRun(older, newer, policy); policy.tombstone(run.keys[t], run.values[t])
    ensures var run := MergedRun(older, newer, policy);
            && (forall x | 0 <= x < |older.keys| && older.keys[x] == run.keys[t] :: run.retained[t] <= older.retained[x])
            && (forall y | 0 <= y < |newer.keys| && newer.keys[y] == run.keys[t] :: run.retained[t] <= newer.retained[y])
  {
    var entries, run := Merged(older, newer, 0, 0, policy), MergedRun(older, newer, policy);
    RunOfAt(entries, policy, t);
    forall x | 0 <= x < |older.keys| && older.keys[x] == run.keys[t] ensures run.retained[t] <= older.retained[x] {
      LimitCoversOlder(older, newer, 0, 0, policy, t, x);
    }
    forall y | 0 <= y < |newer.keys| && newer.keys[y] == run.keys[t] ensures run.retained[t] <= newer.retained[y] {
      LimitCoversNewer(older, newer, 0, 0, policy, t, y);
    }
  }
}
