/** What the private carry chain still costs, to the last unit. */
module RuntimePrices {
  // Every stage of a chain has a price that is known before it is taken. The chain is deterministic, so the sum of
  // all prices up to publication is known as well: it is a function of the job and of how far its merge and its index
  // have come. Each action lowers that sum by exactly its own price.

  import opened Options
  import opened Keys
  import StableMerge
  import opened ColaSpec
  import opened ColaQuery
  import opened ColaRoot
  import opened NativeMerges
  import opened NativeMeaning
  import opened RuntimeSnapshots
  import opened RuntimeJobs

  // ----- the price list

  /** EF samples of n entries. */
  function Blocks(n: nat, W: nat): nat
    requires W > 0
  {
    GroupCount(n, W)
  }

  function TargetGroups(target: Option<Index>, K: nat): nat
    requires K > 0
  {
    if target.None? then 0 else GroupCount(target.value.count, K)
  }

  /** `price`: what the next action costs; `keys` is what the merge has emitted. */
  function Price(j: Job, keys: nat, K: nat, W: nat): (amount: nat)
    requires K > 0 && W > 0
    ensures amount >= 2
    ensures j.stage.IndexFinish? ==> amount >= 5
    ensures j.stage.IndexStep? ==> amount == K + 6
  {
    match j.stage
    case MergeStart => 3
    case MergeStep => 3
    case MergeFinish => Blocks(keys, W) + 2
    case IndexStart => 5
    case IndexStep => K + 6
    case IndexFinish => Blocks(TargetGroups(j.target, K), W) + 5
    case Publish => |j.prefix| + Depth(j.head) + 2
  }

  // ----- what is left of a chain

  /** One index over n native keys and g samples, from its start to its finish. */
  function IndexCost(n: nat, g: nat, K: nat, W: nat): nat
    requires W > 0
  {
    5 + Times(n + g, K + 6) + (Blocks(g, W) + 5)
  }

  /** From a finished head on: carriers until one window holds it, then publication. */
  function HeadRest(count: nat, depth: nat, prefix: nat, K: nat, W: nat): nat
    requires K >= 3 && W > 0
    decreases count
  {
    if count <= K then prefix + depth + 2
    else
      var g := GroupCount(count, K);
      GroupCountShrinks(count, K);
      IndexCost(0, g, K, W) + HeadRest(g, depth + 1, prefix, K, W)
  }

  /** From the start of an index over this target on. */
  function IndexRest(n: nat, target: Option<Index>, prefix: nat, K: nat, W: nat): nat
    requires K >= 3 && W > 0
  {
    var g := TargetGroups(target, K);
    IndexCost(n, g, K, W) + HeadRest(n + g, Depth(target) + 1, prefix, K, W)
  }

  /** From a finished merge on: the next merge of equal masses, or the index over the nearest target. */
  ghost function CarriedRest(j: Job, policy: Policy, K: nat, W: nat): nat
    requires K >= 3 && W > 0
    decreases |j.prefix|, 0
  {
    if MergesOn(j, j.first) then CarryRest(NextMerge(j), policy, K, W)
    else IndexRest(|j.carry.keys|, Nearest(j.target, j.last - j.first, K), |j.prefix|, K, W)
  }

  /** From a merge that has emitted some keys on: one step a key, and its finish. */
  ghost function MergeRest(j: Job, emitted: nat, policy: Policy, K: nat, W: nat): nat
    requires K >= 3 && W > 0
    decreases |j.prefix|, 1
  {
    if !Aligned(j.older.node.native) || !Aligned(j.carry) then 0
    else
      var merged := MergedRun(j.older.node.native, j.carry, policy);
      var m := |merged.keys|;
      (if emitted <= m then 3 * (m - emitted) else 0) + (Blocks(m, W) + 2)
      + CarriedRest(AfterMerge(j, merged), policy, K, W)
  }

  ghost function CarryRest(j: Job, policy: Policy, K: nat, W: nat): nat
    requires K >= 3 && W > 0
    decreases |j.prefix|, 2
  {
    3 + MergeRest(j, 0, policy, K, W)
  }

  /** All prices up to publication. `emitted` is how far the merge has come, `left` what the index has yet to consume. */
  ghost function ChainRest(j: Job, emitted: nat, left: nat, policy: Policy, K: nat, W: nat): nat
    requires K >= 3 && W > 0
  {
    var n, g := |IndexNative(j).keys|, TargetGroups(j.target, K);
    match j.stage
    case MergeStart => CarryRest(j, policy, K, W)
    case MergeStep => MergeRest(j, emitted, policy, K, W)
    case MergeFinish => MergeRest(j, emitted, policy, K, W)
    case IndexStart => IndexRest(n, j.target, |j.prefix|, K, W)
    case IndexStep => Times(left, K + 6) + (Blocks(g, W) + 5) + HeadRest(n + g, Depth(j.target) + 1, |j.prefix|, K, W)
    case IndexFinish => (Blocks(g, W) + 5) + HeadRest(n + g, Depth(j.target) + 1, |j.prefix|, K, W)
    case Publish => |j.prefix| + Depth(j.head) + 2
  }

  // ----- each action pays its own price

  lemma MergeStarts(j: Job, stage: Stage, e: nat, l: nat, l2: nat, policy: Policy, K: nat, W: nat)
    requires K >= 3 && W > 0 && j.stage.MergeStart? && (stage.MergeStep? || stage.MergeFinish?)
    ensures ChainRest(j, e, l, policy, K, W)
         == Price(j, e, K, W) + ChainRest(j.(stage := stage), 0, l2, policy, K, W)
  {
    MergeIgnoresStage(j, stage, 0, policy, K, W);
  }

  lemma MergeIgnoresStage(j: Job, stage: Stage, emitted: nat, policy: Policy, K: nat, W: nat)
    requires K >= 3 && W > 0
    ensures MergeRest(j.(stage := stage), emitted, policy, K, W) == MergeRest(j, emitted, policy, K, W)
  {
    if Aligned(j.older.node.native) && Aligned(j.carry) {
      var merged := MergedRun(j.older.node.native, j.carry, policy);
      var a, b := AfterMerge(j, merged), AfterMerge(j.(stage := stage), merged);
      assert b == a.(stage := stage);
      assert MergesOn(a, a.first) ==> NextMerge(a) == NextMerge(b);
    }
  }

  lemma MergeSteps(j: Job, stage: Stage, e: nat, l: nat, l2: nat, policy: Policy, K: nat, W: nat)
    requires K >= 3 && W > 0 && j.stage.MergeStep? && (stage.MergeStep? || stage.MergeFinish?)
    requires Aligned(j.older.node.native) && Aligned(j.carry)
    requires e < |MergedRun(j.older.node.native, j.carry, policy).keys|
    ensures ChainRest(j, e, l, policy, K, W)
         == Price(j, e, K, W) + ChainRest(j.(stage := stage), e + 1, l2, policy, K, W)
  {
    MergeIgnoresStage(j, stage, e + 1, policy, K, W);
  }

  /** The job after a finished merge. */
  function NextJob(j: Job, K: nat): Job {
    if MergesOn(j, j.first) then NextMerge(j) else j.(target := Nearest(j.target, j.last - j.first, K), stage := IndexStart)
  }

  lemma MergeFinishes(j: Job, merged: Run, l: nat, e2: nat, l2: nat, policy: Policy, K: nat, W: nat)
    requires K >= 3 && W > 0 && j.stage.MergeFinish? && !j.carrier
    requires Aligned(j.older.node.native) && Aligned(j.carry) && merged == MergedRun(j.older.node.native, j.carry, policy)
    ensures ChainRest(j, |merged.keys|, l, policy, K, W)
         == Price(j, |merged.keys|, K, W) + ChainRest(NextJob(AfterMerge(j, merged), K), e2, l2, policy, K, W)
  {
    CarriedOn(AfterMerge(j, merged), e2, l2, policy, K, W);
  }

  lemma CarriedOn(j: Job, e: nat, l: nat, policy: Policy, K: nat, W: nat)
    requires K >= 3 && W > 0 && !j.carrier
    ensures CarriedRest(j, policy, K, W) == ChainRest(NextJob(j, K), e, l, policy, K, W)
  {
    var k := NextJob(j, K);
    if MergesOn(j, j.first) {
      assert ChainRest(k, e, l, policy, K, W) == CarryRest(k, policy, K, W);
    } else {
      assert IndexNative(k) == j.carry;
    }
  }

  lemma IndexStarts(j: Job, stage: Stage, e: nat, l: nat, e2: nat, left: nat, policy: Policy, K: nat, W: nat)
    requires K >= 3 && W > 0 && j.stage.IndexStart?
    requires left == |IndexNative(j).keys| + TargetGroups(j.target, K)
    requires stage == if left == 0 then IndexFinish else IndexStep
    ensures ChainRest(j, e, l, policy, K, W)
         == Price(j, e, K, W) + ChainRest(j.(stage := stage), e2, left, policy, K, W)
  {
  }

  lemma IndexSteps(j: Job, stage: Stage, e: nat, left: nat, e2: nat, policy: Policy, K: nat, W: nat)
    requires K >= 3 && W > 0 && j.stage.IndexStep? && left > 0
    requires stage == if left == 1 then IndexFinish else IndexStep
    ensures ChainRest(j, e, left, policy, K, W)
         == Price(j, e, K, W) + ChainRest(j.(stage := stage), e2, left - 1, policy, K, W)
  {
    var k := j.(stage := stage);
    assert IndexNative(k) == IndexNative(j) && Times(left, K + 6) == Times(left - 1, K + 6) + (K + 6);
  }

  lemma IndexFinishes(j: Job, built: Index, e: nat, l: nat, e2: nat, l2: nat, policy: Policy, K: nat, W: nat)
    requires K >= 3 && W > 0 && j.stage.IndexFinish? && BuiltFor(j, built, K)
    ensures ChainRest(j, e, l, policy, K, W)
         == Price(j, e, K, W) + ChainRest(AfterIndex(j, built, K), e2, l2, policy, K, W)
  {
    NodeCount(built, K);
  }

  /** A main-only node counts its native keys and its samples. */
  lemma NodeCount(node: Index, K: nat)
    requires K > 0 && WellFormed(node, K) && node.secondary.None?
    ensures node.count == |node.native.keys| + TargetGroups(node.main, K)
  {
    StableMerge.LengthIsTotal(StreamsOf(node), Augmented(node));
  }

  /** A chain always costs at least its next action. */
  lemma RestCoversPrice(j: Job, emitted: nat, left: nat, policy: Policy, K: nat, W: nat)
    requires K >= 3 && W > 0
    requires j.stage.IndexStep? ==> left > 0
    requires j.stage.MergeStep? || j.stage.MergeFinish? ==>
               && Aligned(j.older.node.native) && Aligned(j.carry)
               && (var m := |MergedRun(j.older.node.native, j.carry, policy).keys|;
                   (j.stage.MergeStep? ==> emitted < m) && (j.stage.MergeFinish? ==> emitted == m))
    ensures ChainRest(j, emitted, left, policy, K, W) >= Price(j, emitted, K, W)
  {
  }
}
