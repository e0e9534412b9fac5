/** The charged executor (cola_runtime).

    Admissions are queryable at once and one private carry chain may remain; service turns its credit into merges,
    indexes, carriers and a published replacement of the same meaning. Every action has a price known before it is
    taken, every charge has a category, and neither charges nor credit exceed what was granted. The executor's
    invariant ties its published snapshot to the log of all admissions and its job to the snapshot. */
module ColaRuntime {
  import opened Options
  import opened Keys
  import opened StableMerge
  import opened ColaSpec
  import opened ColaBuilder
  import opened ColaQuery
  import opened ColaRoot
  import opened NativeStreams
  import opened NativeMerges
  import opened NativeMeaning
  import opened NativeBuilders
  import opened RuntimeSnapshots
  import opened RuntimeJobs
  import opened RuntimePrices

  // ----- accounting

  datatype Work = Work(
    charged: nat, granted: nat,
    setup: nat, native: nat, occurrences: nat, targetScan: nat, navigation: nat, directory: nat, publication: nat,
    inputs: nat, outputs: nat, merges: nat, indexes: nat, carriers: nat, admitted: nat)

  const NoWork := Work(0, 0, 0, 0, 0, 0, 0, 0, 0, 0, 0, 0, 0, 0, 0)

  /** Every charge has a category, and neither charges nor credit exceed what was granted. */
  predicate Balanced(w: Work, credit: nat) {
    && w.charged == w.setup + w.native + w.occurrences + w.targetScan + w.navigation + w.directory + w.publication
    && w.charged + credit <= w.granted
  }

  datatype Category = Setup | Native | Occurrences | TargetScan | Navigation | Directory | Publication

  /** `direct`: work that pays for itself. */
  function Direct(w: Work, n: nat, c: Category): (r: Work)
    ensures r.charged == w.charged + n && r.granted == w.granted + n && r.admitted == w.admitted
    ensures forall credit :: Balanced(w, credit) ==> Balanced(r, credit)
  {
    var v := w.(charged := w.charged + n, granted := w.granted + n);
    match c
    case Setup => v.(setup := w.setup + n)
    case Native => v.(native := w.native + n)
    case Occurrences => v.(occurrences := w.occurrences + n)
    case TargetScan => v.(targetScan := w.targetScan + n)
    case Navigation => v.(navigation := w.navigation + n)
    case Directory => v.(directory := w.directory + n)
    case Publication => v.(publication := w.publication + n)
  }

  /** The number of finished indexes is no charge. */
  function CountIndex(w: Work): (r: Work)
    ensures r.charged == w.charged && r.admitted == w.admitted
    ensures forall credit :: Balanced(w, credit) ==> Balanced(r, credit)
  {
    w.(indexes := w.indexes + 1)
  }

  /** One merged occurrence of an immediate index. */
  function OccurrenceWork(w: Work, K: nat): (r: Work)
    ensures r.charged == w.charged + K + 6 && r.admitted == w.admitted
    ensures forall credit :: Balanced(w, credit) ==> Balanced(r, credit)
  {
    Direct(Direct(Direct(w, 1, Occurrences), K, TargetScan), 5, Navigation)
  }

  /** `charge`: book an action's price to its categories. */
  function Charge(w: Work, stage: Stage, amount: nat, K: nat): (r: Work)
    requires amount >= 2 && (stage.IndexFinish? ==> amount >= 5) && (stage.IndexStep? ==> amount == K + 6)
    ensures r.charged == w.charged + amount && r.granted == w.granted
    ensures forall credit | credit >= amount && Balanced(w, credit) :: Balanced(r, credit - amount)
    ensures r.admitted == w.admitted
    ensures r.setup == w.setup + (if stage.MergeStart? || stage.IndexStart? then amount else if stage.MergeFinish? then 1 else 0)
    ensures r.native == w.native + (if stage.MergeStep? then amount else 0)
    ensures r.publication == w.publication + (if stage.Publish? then amount else 0)
    ensures stage.IndexStep? ==> r.occurrences == w.occurrences + 1 && r.targetScan == w.targetScan + K
    ensures !stage.IndexStep? ==> r.occurrences == w.occurrences && r.targetScan == w.targetScan
    ensures r.navigation == w.navigation + (if stage.IndexStep? then 5 else if stage.IndexFinish? then 3 else 0)
  {
    var v := w.(charged := w.charged + amount);
    match stage
    case MergeStart => v.(setup := w.setup + amount)
    case IndexStart => v.(setup := w.setup + amount)
    case MergeStep => v.(native := w.native + amount)
    case MergeFinish => v.(directory := w.directory + (amount - 1), setup := w.setup + 1)
    case IndexStep => v.(occurrences := w.occurrences + 1, targetScan := w.targetScan + K, navigation := w.navigation + 5)
    case IndexFinish => v.(directory := w.directory + (amount - 3), navigation := w.navigation + 3)
    case Publish => v.(publication := w.publication + amount)
  }

  /** How much of the private chain is left, most significant part first. */
  datatype Rank = Rank(phase: nat, target: nat, stage: nat, remaining: nat)

  predicate Below(x: Rank, y: Rank) {
    || x.phase < y.phase
    || (x.phase == y.phase && (x.target < y.target
        || (x.target == y.target && (x.stage < y.stage || (x.stage == y.stage && x.remaining < y.remaining)))))
  }

  function Phase(j: Job): nat {
    if Merging(j.stage) then 4 + |j.prefix| else if j.stage.Publish? then 1 else if j.carrier then 2 else 3
  }

  function StageRank(stage: Stage): nat {
    if stage.MergeStart? || stage.IndexStart? then 2 else if stage.MergeStep? || stage.IndexStep? then 1 else 0
  }

  function TargetRank(j: Job): nat {
    if !Merging(j.stage) && !j.stage.Publish? && j.carrier && j.target.Some? then j.target.value.count else 0
  }

  /** What the executor owes and holds: what is charged, granted and at hand, what the next action and what the whole
      chain still cost, and how much of the chain is left. */
  datatype Account = Account(pending: bool, charged: nat, granted: nat, credit: nat, due: nat, rest: nat, left: Rank,
                             admitted: nat)

  /** A chain costs at least its next action; without a chain nothing is owed and nothing is held. */
  predicate Sane(a: Account) {
    if a.pending then 2 <= a.due <= a.rest else a.rest == 0 && a.credit == 0
  }

  /** One action was paid for and taken. */
  predicate Acted(a: Account, b: Account) {
    && a.due <= a.credit && b.charged == a.charged + a.due && b.rest + a.due == a.rest && Below(b.left, a.left)
    && b.granted == a.granted && b.admitted == a.admitted && (b.pending ==> b.credit == a.credit - a.due)
  }

  /** Some actions were. */
  predicate ServedPart(a: Account, b: Account) {
    && b.granted == a.granted && b.admitted == a.admitted
    && b.charged + b.rest == a.charged + a.rest && a.charged <= b.charged <= a.charged + a.credit
    && (b.pending ==> b.charged + b.credit == a.charged + a.credit)
    && (b == a || Below(b.left, a.left))
  }

  /** All were that the credit funds: the price paid is exactly the price by which the chain got shorter, a chain left
      over lacks the price of its next action, and the chain is finished if and only if the credit covered it. */
  predicate ServedTo(a: Account, b: Account) {
    && ServedPart(a, b)
    && (b.pending ==> b.credit < b.due)
    && (a.pending ==> (!b.pending <==> a.credit >= a.rest) && (a.credit >= a.due ==> Below(b.left, a.left)))
    && (!a.pending ==> b == a)
  }

  lemma ServeMore(a: Account, b: Account, c: Account)
    requires ServedPart(a, b) && Acted(b, c) && b.pending && Sane(c)
    ensures ServedPart(a, c) && Below(c.left, b.left)
  {
  }

  lemma ServeEnds(a: Account, b: Account)
    requires Sane(a) && Sane(b) && a.pending && ServedPart(a, b) && (b.pending ==> b.credit < b.due)
    ensures ServedTo(a, b)
  {
  }

  lemma NothingServed(a: Account)
    requires Sane(a)
    ensures ServedPart(a, a)
  {
  }

  lemma NothingToServe(a: Account)
    requires Sane(a) && !a.pending
    ensures ServedTo(a, a)
  {
  }

  lemma NothingDrained(a: Account)
    ensures DrainedPart(a, a)
  {
  }

  lemma DrainedFully(a: Account, b: Account)
    requires Sane(a) && Sane(b) && !b.pending && DrainedPart(a, b)
    ensures b.charged == a.charged + a.rest && b.admitted == a.admitted
    ensures b.granted == a.granted + (if a.credit >= a.rest then 0 else a.rest - a.credit)
    ensures b.credit == 0
  {
  }

  /** The ranks of two states are compared part by part. */
  lemma Nearer(x: Rank, y: Rank)
    requires Below(x, y)
    ensures || x.phase < y.phase
            || (x.phase == y.phase && (x.target < y.target
                || (x.target == y.target && (x.stage < y.stage || (x.stage == y.stage && x.remaining < y.remaining)))))
  {
  }

  /** What a budget buys. */
  lemma FundedFacts(a: Account, b: Account, budget: nat)
    requires Sane(a) && Sane(b) && a.pending && ServedTo(Granted(a, budget), b)
    ensures b.granted == a.granted + budget && b.charged + b.rest == a.charged + a.rest
    ensures !b.pending <==> a.credit + budget >= a.rest
    ensures a.credit + budget >= a.due ==> Below(b.left, a.left)
    ensures b.pending ==> b.credit < b.due && b.charged + b.credit == a.charged + a.credit + budget
  {
  }

  /** A grant changes what is granted and at hand, and nothing else. */
  function Granted(a: Account, amount: nat): Account {
    a.(granted := a.granted + amount, credit := a.credit + amount)
  }

  /** What the credit lacks of a price. */
  function Lacking(a: Account, price: nat): nat {
    if a.credit >= price then 0 else price - a.credit
  }

  /** Draining has not begun; or a chain is left that the credit cannot serve; or all is paid: exactly what the chain
      cost is charged, exactly what the credit lacked of that is granted. */
  predicate DrainedPart(a: Account, b: Account) {
    && b.admitted == a.admitted && b.charged + b.rest == a.charged + a.rest
    && (|| b == a
        || (b.pending && b.credit < b.due && a.credit < a.rest
            && b.charged + b.credit == a.charged + a.credit + (b.granted - a.granted))
        || (!b.pending && b.granted == a.granted + Lacking(a, a.rest)))
  }

  lemma LackingIs(a: Account, price: nat)
    ensures Lacking(a, price) == if a.credit < price then price - a.credit else 0
    ensures Granted(a, 0) == a
  {
  }

  lemma DrainMore(a: Account, b: Account, c: Account)
    requires Sane(a) && Sane(b) && Sane(c) && b.pending && DrainedPart(a, b)
    requires ServedTo(Granted(b, Lacking(b, b.due)), c)
    ensures DrainedPart(a, c) && Below(c.left, b.left)
  {
  }

  lemma CarrierRank(j: Job, built: Index, K: nat)
    requires j.stage.IndexFinish? && BuiltFor(j, built, K) && K >= 3
    requires j.carrier ==> j.target.Some? && j.target.value.count > K
    ensures var k := AfterIndex(j, built, K);
            Phase(k) < Phase(j) || (Phase(k) == Phase(j) && TargetRank(k) < TargetRank(j))
  {
    if j.carrier { CarrierShrinks(j, built, K); }
  }

  /** The job behind a finished merge. */
  method TakeMerged(j: Job, out: Stream, s: Snapshot, ghost policy: Policy, K: nat, ghost log: seq<Record>) returns (next: Job)
    requires Published(s, log, policy, K) && Associative(policy) && JobAt(j, s.runs, log, policy, K) && j.stage.MergeFinish?
    requires NativeRun(j.older.node.native) && NativeRun(j.carry)
    requires Reads(out, MergedRun(j.older.node.native, j.carry, policy))
    ensures JobAt(next, s.runs, log, policy, K) && !j.carrier && !next.carrier && (next.stage.MergeStart? || next.stage.IndexStart?)
    ensures next == NextJob(AfterMerge(j, MergedRun(j.older.node.native, j.carry, policy)), K) && Phase(next) < Phase(j)
  {
    hide WellFormed, Published, JobAt, MergeAt, Carried, Trust, Reads, RunOf, MergedRun, Nearest, Associative;
    MergeTakes(j, s, log, policy, K);
    NotCarrier(j, s.runs, log, policy, K);
    ghost var merged := MergedRun(j.older.node.native, j.carry, policy);
    DecodesTo(out, merged);
    MergeDone(j, merged, s, log, policy, K);
    var after := AfterMerge(j, ReadRun(out));
    if MergesOn(after, after.first) {
      next := NextMerge(after);
    } else {
      var near := Near(after.target, after.last - after.first, K);
      NearAt(after, near, s.runs, log, policy, K);
      next := after.(target := near, stage := IndexStart);
    }
  }

  class Execution {
    const K: nat
    const W: nat
    const valueWidth: Option<nat>
    const policy: Policy
    var published: Snapshot
    var job: Option<Job>
    var merge: NativeMergeBuilder?
    var index: ColaIndexBuilder?
    var work: Work
    var credit: nat
    /** Every admission so far. */
    ghost var log: seq<Record>

    ghost predicate Sound()
      reads `published, `job, `log
    {
      && K >= 3 && W > 0 && Associative(policy)
      && Published(published, log, policy, K) && (job.Some? <==> !Settled(published))
      && (job.Some? ==> JobAt(job.value, published.runs, log, policy, K))
      && (job.Some? && job.value.carrier && !job.value.stage.Publish? ==>
            job.value.target.Some? && job.value.target.value.count > K)
    }

    /** The merge in progress is the one the job names. */
    ghost predicate MergeBound()
      reads `job, `merge, merge
    {
      job.Some? && (job.value.stage.MergeStep? || job.value.stage.MergeFinish?) ==>
        && merge != null && merge.Valid() && merge.policy == policy
        && merge.runs == Runs(job.value.older.node.native, job.value.carry)
        && (job.value.stage.MergeFinish? <==> merge.Done())
    }

    /** The index in progress is the one the job names. */
    ghost predicate IndexBound()
      reads `job, `index, index
    {
      job.Some? && (job.value.stage.IndexStep? || job.value.stage.IndexFinish?) ==>
        && index != null && index.Valid() && index.Admitted() && !index.finished && index.K == K
        && index.native == IndexNative(job.value) && index.main == job.value.target && index.secondary.None?
        && (job.value.stage.IndexFinish? <==> index.book.count == |index.items|)
        && index.book.count <= |index.items|
    }

    ghost predicate Valid()
      reads this, merge, index
    {
      Sound() && MergeBound() && IndexBound() && Balanced(work, credit) && (job.None? ==> credit == 0)
    }

    ghost function Remaining(): nat
      reads `job, `merge, merge, `index, index
    {
      if job.None? then 0
      else if job.value.stage.MergeStep? && merge != null
              && merge.progress.records <= |merge.runs.older.keys| + |merge.runs.newer.keys|
        then |merge.runs.older.keys| + |merge.runs.newer.keys| - merge.progress.records
      else if job.value.stage.IndexStep? && index != null && index.book.count <= |index.items|
        then |index.items| - index.book.count
      else 0
    }

    ghost function Left(): Rank
      reads `job, `merge, merge, `index, index
    {
      if job.None? then Rank(0, 0, 0, 0)
      else Rank(Phase(job.value), TargetRank(job.value), StageRank(job.value.stage), Remaining())
    }

    function Emitted(): nat
      reads `merge, merge
    {
      if merge == null then 0 else merge.progress.keys
    }

    /** What the next action costs: nothing without a job. */
    function Due(): nat
      reads `job, `merge, merge
    {
      if job.None? || K == 0 || W == 0 then 0 else Price(job.value, Emitted(), K, W)
    }

    /** What the whole chain still costs. */
    ghost function Rest(): nat
      reads `job, `merge, merge, `index, index
    {
      if job.None? || K < 3 || W == 0 then 0 else ChainRest(job.value, Emitted(), Remaining(), policy, K, W)
    }

    // ----- the stages

    method PerformMergeStart()
      requires Sound() && job.Some? && job.value.stage.MergeStart?
      modifies `merge, `job
      ensures Sound() && MergeBound() && IndexBound() && fresh(merge)
      ensures Below(Left(), old(Left())) && job.Some? && Rest() + old(Due()) == old(Rest())
    {
      hide WellFormed, Published, JobAt, ChainRest, Price;
      var j := job.value;
      ghost var e, l := Emitted(), Remaining();
      MergeTakes(j, published, log, policy, K);
      LayoutReads(j.older.node.native, |j.older.node.native.keys|);
      LayoutReads(j.carry, |j.carry.keys|);
      merge := new NativeMergeBuilder(Layout(j.older.node.native, |j.older.node.native.keys|),
                                      Layout(j.carry, |j.carry.keys|), policy, j.older.node.native, j.carry);
      var stage := if merge.Done() then MergeFinish else MergeStep;
      StageMoves(j, stage, published.runs, log, policy, K);
      job := Some(j.(stage := stage));
      MergeStarts(j, stage, e, l, Remaining(), policy, K, W);
    }

    method PerformMergeStep()
      requires Sound() && MergeBound() && job.Some? && job.value.stage.MergeStep?
      modifies merge, `job, `work
      ensures Sound() && MergeBound() && IndexBound() && (Balanced(old(work), credit) ==> Balanced(work, credit))
      ensures Below(Left(), old(Left())) && job.Some? && work.charged == old(work.charged)
      ensures work.granted == old(work.granted) && work.admitted == old(work.admitted)
      ensures Rest() + old(Due()) == old(Rest())
      ensures merge == old(merge) && merge != null && work.outputs == old(work.outputs) + 1
      ensures work.inputs + old(merge.progress.records) == old(work.inputs) + merge.progress.records
    {
      hide WellFormed, Published, JobAt, Ready, Written, Opened, Merged, ChainRest, Price, MergedRun;
      ghost var j, e, l := job.value, Emitted(), Remaining();
      merge.EmittedSoFar();
      var done := merge.Step(1);
      merge.EmittedSoFar();
      work := work.(inputs := work.inputs + done.records, outputs := work.outputs + done.keys);
      StageMoves(job.value, MergeFinish, published.runs, log, policy, K);
      if merge.Done() { job := Some(job.value.(stage := MergeFinish)); }
      MergeSteps(j, job.value.stage, e, l, Remaining(), policy, K, W);
    }

    method PerformMergeFinish()
      requires Sound() && MergeBound() && job.Some? && job.value.stage.MergeFinish?
      modifies `merge, `job, `work
      ensures Sound() && MergeBound() && IndexBound() && (Balanced(old(work), credit) ==> Balanced(work, credit))
      ensures Below(Left(), old(Left())) && job.Some? && work.charged == old(work.charged)
      ensures work.granted == old(work.granted) && work.admitted == old(work.admitted)
      ensures merge == null && Rest() + old(Due()) == old(Rest())
      ensures work == old(work).(merges := old(work.merges) + 1)
    {
      hide WellFormed, Published, JobAt, MergeAt, Carried, Trust, Reads, Ready, Written, RunOf, ChainRest, Price, MergedRun,
        Nearest, NextJob, AfterMerge, Phase, Associative, FinishedFrame;
      var j := job.value;
      ghost var l := Remaining();
      merge.EmittedSoFar();
      var out := merge.Finish();
      merge := null;
      var next := TakeMerged(j, out, published, policy, K, log);
      work := work.(merges := work.merges + 1);
      job := Some(next);
      MergeFinishes(j, MergedRun(j.older.node.native, j.carry, policy), l, Emitted(), Remaining(), policy, K, W);
    }

    method PerformIndexStart()
      requires Sound() && job.Some? && job.value.stage.IndexStart?
      modifies `index, `job
      ensures Sound() && MergeBound() && IndexBound() && fresh(index)
      ensures Below(Left(), old(Left())) && job.Some? && Rest() + old(Due()) == old(Rest())
    {
      hide WellFormed, Published, JobAt, BookAt, BoundTo, Following, ChainRest, Price;
      var j := job.value;
      ghost var e, l := Emitted(), Remaining();
      IndexTakes(j, published.runs, log, policy, K);
      index := new ColaIndexBuilder(K, IndexNative(j), j.target, None);
      var done := index.Done();
      var stage := if done then IndexFinish else IndexStep;
      StageMoves(j, stage, published.runs, log, policy, K);
      job := Some(j.(stage := stage));
      BuilderLength(index);
      IndexStarts(j, stage, e, l, Emitted(), Remaining(), policy, K, W);
    }

    method PerformIndexStep()
      requires Sound() && IndexBound() && job.Some? && job.value.stage.IndexStep?
      modifies index, `job
      ensures Sound() && MergeBound() && IndexBound()
      ensures Below(Left(), old(Left())) && job.Some? && Rest() + old(Due()) == old(Rest())
    {
      hide WellFormed, Published, JobAt, BookAt, BoundTo, Following, ChainRest, Price;
      ghost var j, e, l := job.value, Emitted(), Remaining();
      var _ := index.Step(1);
      var done := index.Done();
      StageMoves(job.value, IndexFinish, published.runs, log, policy, K);
      if done { job := Some(job.value.(stage := IndexFinish)); }
      IndexSteps(j, job.value.stage, e, l, Emitted(), policy, K, W);
    }

    method PerformIndexFinish()
      requires Sound() && IndexBound() && job.Some? && job.value.stage.IndexFinish?
      modifies index, `index, `job, `work
      ensures Sound() && MergeBound() && IndexBound() && (Balanced(old(work), credit) ==> Balanced(work, credit))
      ensures Below(Left(), old(Left())) && job.Some? && work.charged == old(work.charged)
      ensures work.granted == old(work.granted) && work.admitted == old(work.admitted)
      ensures index == null && Rest() + old(Due()) == old(Rest())
      ensures work == old(work).(indexes := old(work.indexes) + 1,
                                 carriers := old(work.carriers) + (if old(job.value.carrier) then 1 else 0))
    {
      hide WellFormed, Published, JobAt, BookAt, BoundTo, Following, ChainRest, Price;
      var j := job.value;
      ghost var e, l := Emitted(), Remaining();
      var built := index.Finish(1);
      index := null;
      work := work.(indexes := work.indexes + 1, carriers := work.carriers + (if j.carrier then 1 else 0));
      IndexTakes(j, published.runs, log, policy, K);
      IndexDone(j, built, published, log, policy, K);
      CarrierRank(j, built, K);
      job := Some(AfterIndex(j, built, K));
      IndexFinishes(j, built, e, l, Emitted(), Remaining(), policy, K, W);
    }

    /** The replacement is adopted as it stands; the excess credit of the finished chain is dropped. */
    method PerformPublish()
      requires Sound() && job.Some? && job.value.stage.Publish?
      modifies `published, `job, `credit
      ensures Sound() && job.None? && credit == 0 && Below(Left(), old(Left())) && old(Due()) == old(Rest())
    {
      hide WellFormed, Published, JobAt, ChainAgrees;
      var j := job.value;
      PublishTakes(j, published, log, policy, K);
      var adopted := AdoptPrepared(j.head, K);
      assert adopted;
      published := Outgoing(j);
      job, credit := None, 0;
    }

    /** `perform`: one action, strictly nearer to publication, over an unchanged log. */
    method Perform()
      requires Valid() && job.Some?
      modifies this, merge, index
      ensures Valid() && log == old(log) && Below(Left(), old(Left()))
      ensures merge == old(merge) || merge == null || fresh(merge)
      ensures index == old(index) || index == null || fresh(index)
      ensures work.charged == old(work.charged) && work.granted == old(work.granted)
      ensures work.admitted == old(work.admitted) && credit <= old(credit)
      ensures job.Some? ==> credit == old(credit) && published == old(published)
      ensures Rest() + old(Due()) == old(Rest())
    {
      hide Published, JobAt, WellFormed, BookAt, BoundTo, Following, Ready, Written, Opened, Merged, ChainRest, Price;
      match job.value.stage
      case MergeStart => PerformMergeStart();
      case MergeStep => PerformMergeStep();
      case MergeFinish => PerformMergeFinish();
      case IndexStart => PerformIndexStart();
      case IndexStep => PerformIndexStep();
      case IndexFinish => PerformIndexFinish();
      case Publish => PerformPublish();
    }

    /** `price`. */
    method NextPrice() returns (amount: nat)
      requires Valid() && job.Some?
      ensures amount == Due() == Books().due >= 2
      ensures job.value.stage.MergeStart? || job.value.stage.MergeStep? ==> amount == 3
      ensures job.value.stage.MergeFinish? ==> amount == GroupCount(Emitted(), W) + 2
      ensures job.value.stage.IndexStart? ==> amount == 5
      ensures job.value.stage.IndexStep? ==> amount == K + 6
      ensures job.value.stage.IndexFinish? ==>
                amount == 5 + if job.value.target.None? then 0 else GroupCount(GroupCount(job.value.target.value.count, K), W)
      ensures job.value.stage.Publish? ==> amount == |job.value.prefix| + Depth(job.value.head) + 2
    {
      amount := Price(job.value, Emitted(), K, W);
    }

    // ----- service

    ghost function Books(): (a: Account)
      reads this, merge, index
      ensures a.pending == job.Some? && a.charged == work.charged && a.granted == work.granted && a.credit == credit
      ensures a.admitted == work.admitted
    {
      Account(job.Some?, work.charged, work.granted, credit, Due(), Rest(), Left(), work.admitted)
    }

    lemma BooksAre()
      ensures Books().due == Due() && Books().rest == Rest() && Books().left == Left()
    {
    }

    lemma BooksSane()
      requires Valid()
      ensures K >= 3 && W > 0 && Sane(Books()) && (job.None? ==> Settled(published) && credit == 0)
    {
      if job.Some? {
        if job.value.stage.MergeStep? || job.value.stage.MergeFinish? { merge.EmittedSoFar(); }
        RestCoversPrice(job.value, Emitted(), Remaining(), policy, K, W);
      }
    }

    method Grant(amount: nat)
      requires Valid() && job.Some?
      modifies `work, `credit
      ensures Valid() && credit == old(credit) + amount
      ensures work == old(work).(granted := old(work.granted) + amount)
      ensures Books() == Granted(old(Books()), amount)
    {
      hide Published, JobAt, WellFormed, BookAt, BoundTo, Following, Ready, Written, Opened, Merged, ChainRest, Price;
      credit := credit + amount;
      work := work.(granted := work.granted + amount);
    }

    /** Pay for the next action and take it. */
    method Act(amount: nat)
      requires Valid() && job.Some? && amount <= credit
      requires amount == Books().due
      modifies this, merge, index
      ensures Valid() && log == old(log) && Acted(old(Books()), Books())
      ensures merge == old(merge) || merge == null || fresh(merge)
      ensures index == old(index) || index == null || fresh(index)
      ensures job.Some? ==> published == old(published)
    {
      hide Published, JobAt, WellFormed, BookAt, BoundTo, Following, Ready, Written, Opened, Merged, ChainRest, Price;
      work := Charge(work, job.value.stage, amount, K);
      credit := credit - amount;
      Perform();
    }

    /** `serve`: take every action the credit funds, and stop exactly at the first it does not. The chain is published
        if and only if the credit covers all it still costs. */
    method Serve()
      requires Valid()
      modifies this, merge, index
      ensures Valid() && log == old(log) && ServedTo(old(Books()), Books())
      ensures merge == old(merge) || merge == null || fresh(merge)
      ensures index == old(index) || index == null || fresh(index)
      ensures job.Some? ==> published == old(published)
      ensures old(job.None?) ==> published == old(published) && work == old(work)
    {
      hide *;
      BooksSane();
      if job.None? {
        NothingToServe(Books());
        return;
      }
      ghost var a := Books();
      NothingServed(a);
      ghost var b := a;
      var more := true;
      while more && job.Some?
        invariant Valid() && log == old(log) && b == Books() && ServedPart(a, b) && Sane(b)
        invariant !more && b.pending ==> b.credit < b.due
        invariant merge == old(merge) || merge == null || fresh(merge)
        invariant index == old(index) || index == null || fresh(index)
        invariant job.Some? ==> published == old(published)
        decreases more, b.left.phase, b.left.target, b.left.stage, b.left.remaining
      {
        more := ServeNext(a);
        if more { Nearer(Books().left, b.left); }
        b := Books();
      }
      ServeEnds(a, b);
    }

    /** The next action, if the credit funds it. */
    method ServeNext(ghost a: Account) returns (taken: bool)
      requires Valid() && job.Some? && ServedPart(a, Books())
      modifies this, merge, index
      ensures Valid() && log == old(log) && ServedPart(a, Books()) && Sane(Books())
      ensures merge == old(merge) || merge == null || fresh(merge)
      ensures index == old(index) || index == null || fresh(index)
      ensures job.Some? ==> published == old(published)
      ensures taken ==> Below(Books().left, old(Books()).left)
      ensures !taken ==> Books() == old(Books()) && Books().credit < Books().due
    {
      hide *;
      BooksSane();
      ghost var b := Books();
      var amount := NextPrice();
      taken := amount <= credit;
      if taken {
        Act(amount);
        BooksSane();
        ServeMore(a, b, Books());
      }
    }

    /** `drain`: fund and finish the private chain, however long it is. It charges exactly what the chain still cost
        and grants exactly what the credit lacked of that. */
    method Drain()
      requires Valid()
      modifies this, merge, index
      ensures Valid() && log == old(log) && job.None? && Settled(published)
      ensures merge == old(merge) || merge == null || fresh(merge)
      ensures index == old(index) || index == null || fresh(index)
      ensures old(job.None?) ==> published == old(published) && work == old(work) && credit == old(credit)
      ensures work.charged == old(work.charged) + old(Rest()) && credit == 0 && work.admitted == old(work.admitted)
      ensures work.granted == old(work.granted) + (if old(credit) >= old(Rest()) then 0 else old(Rest() - credit))
    {
      hide *;
      BooksSane();
      BooksAre();
      ghost var a := Books();
      DrainAll();
      BooksSane();
      DrainedFully(a, Books());
    }

    method DrainAll()
      requires Valid()
      modifies this, merge, index
      ensures Valid() && log == old(log) && job.None? && DrainedPart(old(Books()), Books())
      ensures merge == old(merge) || merge == null || fresh(merge)
      ensures index == old(index) || index == null || fresh(index)
      ensures old(job.None?) ==> published == old(published) && work == old(work) && credit == old(credit)
    {
      hide *;
      BooksSane();
      ghost var a := Books();
      NothingDrained(a);
      if job.None? { return; }
      ghost var b := a;
      while job.Some?
        invariant Valid() && log == old(log) && b == Books() && DrainedPart(a, b) && Sane(b)
        invariant merge == old(merge) || merge == null || fresh(merge)
        invariant index == old(index) || index == null || fresh(index)
        decreases b.left.phase, b.left.target, b.left.stage, b.left.remaining
      {
        FundNext();
        BooksSane();
        DrainMore(a, b, Books());
        Nearer(Books().left, b.left);
        b := Books();
      }
    }

    /** Grant what the next action still lacks, then serve. */
    method FundNext()
      requires Valid() && job.Some?
      modifies this, merge, index
      ensures Valid() && log == old(log)
      ensures ServedTo(Granted(old(Books()), Lacking(old(Books()), old(Books()).due)), Books())
      ensures merge == old(merge) || merge == null || fresh(merge)
      ensures index == old(index) || index == null || fresh(index)
    {
      hide *;
      ghost var a := Books();
      var amount := NextPrice();
      LackingIs(a, amount);
      if credit < amount {
        Grant(amount - credit);
      }
      Serve();
    }

    // ----- admission

    /** `start_job`, when the frontier ends in two single admissions. */
    method StartJob()
      requires K >= 3 && W > 0 && Associative(policy) && Published(published, log, policy, K) && job.None?
      requires Balanced(work, credit) && credit == 0
      modifies `job, `work
      ensures Valid()
      ensures work == if Settled(published) then old(work) else Direct(old(work), |published.runs| + 1, Setup)
    {
      if !Settled(published) {
        StartAt(published, log, policy, K);
        work := Direct(work, |published.runs| + 1, Setup);
        job := Some(StartOf(published));
      }
    }

    /** `immediate_index`: build one index at once, charging every occurrence as it is consumed. */
    method ImmediateIndex(native: Run, target: Index) returns (node: Index)
      requires K > 0 && W > 0 && NativeRun(native) && WellFormed(target, K) && Balanced(work, credit)
      modifies `work
      ensures WellFormed(node, K) && node.native == native && node.main == Some(target) && node.secondary.None?
      ensures Balanced(work, credit) && work.admitted == old(work.admitted)
      ensures work.charged == old(work.charged) + ImmediateCost(|native.keys|, GroupCount(target.count, K), K, W)
    {
      hide WellFormed, BookAt, BoundTo, Following, Direct, OccurrenceWork, CountIndex, Balanced, NativeRun, ColaIndexBuilder.Valid, ColaIndexBuilder.Admitted;
      work := Direct(work, 5, Setup);
      var builder := new ColaIndexBuilder(K, native, Some(target), None);
      var done := builder.Done();
      while !done
        invariant builder.Valid() && builder.Admitted() && !builder.finished && builder.K == K
        invariant builder.native == native && builder.main == Some(target) && builder.secondary.None?
        invariant done <==> builder.book.count == |builder.items|
        invariant Balanced(work, credit) && work.admitted == old(work.admitted)
        invariant work.charged == old(work.charged) + 5 + Times(builder.book.count, K + 6)
        decreases |builder.items| - builder.book.count
      {
        work := OccurrenceWork(work, K);
        var _ := builder.Step(1);
        done := builder.Done();
      }
      BuilderLength(builder);
      work := Direct(work, Blocks(GroupCount(target.count, K), W) + 2, Directory);
      work := Direct(work, 3, Navigation);
      node := builder.Finish(1);
      work := CountIndex(work);
    }

    /** `admission_cost`: what a ready single admission will be charged. */
    function AdmissionCost(): nat
      requires K > 0 && W > 0
      reads `published
    {
      var borrowed := GroupCount(published.head.count, K);
      var n := |published.runs|;
      9 + Times(borrowed + 1, K + 6) + (Blocks(borrowed, W) + 5) + (n + Depth(Some(published.head)) + 3)
      + (if n > 0 && Mass(published.runs[n - 1]) == 1 then n + 2 else 0)
    }

    /** The last steps of `admit`: publish the node of the new record, and start a carry if it made a pair. */
    method PublishAdmission(head: Index, r: Record)
      requires Valid() && job.None? && WellFormed(head, K) && head.count <= K
      requires head.native == Single(r) && head.main == Some(published.head) && head.secondary.None?
      modifies `published, `job, `work, `log
      ensures Valid() && log == old(log) + [r] && work.admitted == old(work.admitted) + 1
      ensures published.admissions == old(published.admissions) + 1
      ensures var n := |old(published).runs|;
              work.charged == old(work.charged) + (n + Depth(Some(head)) + 2)
                + (if n > 0 && Mass(old(published).runs[n - 1]) == 1 then n + 2 else 0)
    {
      hide WellFormed, Published, JobAt;
      SettledHead(published, log, policy, K);
      var s := published;
      AdmitDone(s, head, r, log, policy, K);
      var runs := s.runs + [Segment(s.admissions, s.admissions + 1, head)];
      work := Direct(work, |runs| + Depth(Some(head)) + 1, Publication);
      AdoptHead(head, K);
      published := Snapshot(head, runs, s.admissions + 1);
      log := log + [r];
      work := work.(admitted := work.admitted + 1);
      StartJob();
    }

    /** `admit`: the record becomes the newest run at once, and the charge is exactly the predicted one. */
    method Admit(r: Record)
      requires Valid() && job.None?
      modifies `published, `job, `work, `log
      ensures Valid() && log == old(log) + [r] && work.admitted == old(work.admitted) + 1
      ensures published.admissions == old(published.admissions) + 1
      ensures work.charged == old(work.charged) + old(AdmissionCost())
    {
      hide WellFormed, Published, JobAt;
      SettledHead(published, log, policy, K);
      work := Direct(work, 1, Setup);
      work := Direct(work, 1, Native);
      var native := WriteSingle(r);
      work := Direct(work, 2, Directory);
      work := work.(outputs := work.outputs + 1);
      var head := ImmediateIndex(native, published.head);
      AdmittedCount(head, K);
      PublishAdmission(head, r);
    }

    // ----- the public operations

    constructor (stride: nat, block: nat, width: Option<nat>, p: Policy)
      requires stride >= 3 && block > 0 && Associative(p)
      ensures Valid() && log == [] && job.None? && published.runs == [] && credit == 0
      ensures work.charged == work.granted == 7 && work.admitted == 0
      ensures K == stride && W == block && valueWidth == width && policy == p
    {
      hide WellFormed, Published, Associative, Balanced, Direct, JobAt;
      K, W, valueWidth, policy := stride, block, width, p;
      var first := FirstHead(stride, p);
      published, log := first, [];
      job, merge, index, credit := None, null, null, 0;
      var none := NoWork;
      NothingSpent();
      FirstWork(none);
      work := Direct(Direct(Direct(none, 2, Setup), 3, Directory), 2, Publication);
    }

    /** `from_snapshot`: an independent executor over a snapshot; an unsettled one starts its carry again. */
    constructor FromSnapshot(source: Snapshot, stride: nat, block: nat, width: Option<nat>, p: Policy,
                             ghost admitted: seq<Record>)
      requires block > 0 && Associative(p) && Published(source, admitted, p, stride)
      ensures Valid() && log == admitted && published == source && (job.Some? <==> !Settled(source))
      ensures work.charged == work.granted == 2 + (if Settled(source) then 0 else |source.runs| + 1) && work.admitted == 0
      ensures K == stride && W == block && valueWidth == width && policy == p && credit == 0
    {
      hide WellFormed, Published, Associative, Balanced, Direct, JobAt, Settled;
      K, W, valueWidth, policy := stride, block, width, p;
      published, log := source, admitted;
      job, merge, index, credit := None, null, null, 0;
      SettledHead(source, admitted, p, stride);
      var none := NoWork;
      NothingSpent();
      FirstBooks(none);
      work := Direct(Direct(none, 1, Setup), 1, Directory);
      new;
      StartJob();
    }

    /** `advance`: the budget is granted and served. It publishes the settled replacement if and only if it covers,
        with the credit at hand, all the chain still costs; short of that everything is spent that an action can use.
        Service only changes the layout: every lookup keeps its answer. */
    method Advance(budget: nat)
      requires Valid()
      modifies this, merge, index
      ensures Valid() && log == old(log)
      ensures merge == old(merge) || merge == null || fresh(merge)
      ensures index == old(index) || index == null || fresh(index)
      ensures forall k :: Composed(policy, k, Matches(published.head, k)) == Composed(policy, k, Matches(old(published).head, k))
      ensures budget == 0 || old(job.None?) ==> published == old(published) && job == old(job) && work == old(work) && credit == old(credit)
      ensures budget > 0 && old(job.Some?) ==>
                && work.granted == old(work.granted) + budget
                && (job.None? <==> old(credit) + budget >= old(Rest()))
                && (old(credit) + budget >= old(Due()) ==> Below(Left(), old(Left())))
                && work.charged + Rest() == old(work.charged + Rest())
      ensures budget > 0 && job.Some? ==>
                && credit < Due() && published == old(published)
                && work.charged + credit == old(work.charged + credit) + budget
      ensures job.None? ==> Settled(published)
    {
      hide *;
      ghost var before := published;
      BooksSane();
      BooksAre();
      AnswersKept();
      ghost var a := Books();
      Fund(budget);
      BooksSane();
      BooksAre();
      AnswersKept();
      if budget > 0 && a.pending { FundedFacts(a, Books(), budget); }
      LayoutsAgree(before, published, log, policy, K);
    }

    /** Grant a budget to a pending chain and serve it. */
    method Fund(budget: nat)
      requires Valid()
      modifies this, merge, index
      ensures Valid() && log == old(log)
      ensures merge == old(merge) || merge == null || fresh(merge)
      ensures index == old(index) || index == null || fresh(index)
      ensures budget == 0 || old(job.None?) ==>
                published == old(published) && job == old(job) && work == old(work) && credit == old(credit) && Books() == old(Books())
      ensures budget > 0 && old(job.Some?) ==> ServedTo(Granted(old(Books()), budget), Books())
      ensures job.Some? ==> published == old(published)
    {
      hide *;
      BooksSane();
      if budget > 0 && job.Some? {
        Grant(budget);
        Serve();
      }
    }

    lemma AnswersKept()
      requires Valid()
      ensures Published(published, log, policy, K) && Associative(policy)
    {
    }

    /** One record of a batch: finish the old chain, admit, and serve the new chain within the budget. */
    method ContributeOne(r: Record, budget: nat)
      requires Valid()
      modifies this, merge, index
      ensures Valid() && log == old(log) + [r] && work.admitted == old(work.admitted) + 1
      ensures merge == old(merge) || merge == null || fresh(merge)
      ensures index == old(index) || index == null || fresh(index)
      ensures old(job.None?) ==> Charged(old(work.charged) + old(AdmissionCost()), budget)
      ensures Served(budget)
    {
      hide *;
      Drain();
      Admit(r);
      BooksSane();
      ghost var a := Books();
      Fund(budget);
      Settle(a.charged, budget, a);
    }

    lemma Settle(base: nat, budget: nat, a: Account)
      requires Valid() && Sane(a) && a.charged == base && a.credit == 0 && K >= 3 && W > 0
      requires if budget > 0 && a.pending then ServedTo(Granted(a, budget), Books()) else Books() == a
      ensures Charged(base, budget) && Served(budget) && Books().admitted == a.admitted
    {
      BooksSane();
      BooksAre();
    }

    /** Service has used its budget: a chain left over lacks the price of its next action, and none left over means a
        settled snapshot. */
    ghost predicate Served(budget: nat)
      reads `published, `job, `merge, merge, `credit
    {
      && (job.Some? ==> (if budget == 0 then credit == 0 else credit < Due()))
      && (job.None? ==> credit == 0 && Settled(published))
    }

    /** Beyond `base`, nothing but service was charged: all of the budget but the credit, or what the chain cost. */
    ghost predicate Charged(base: nat, budget: nat)
      reads `job, `work, `credit
    {
      base <= work.charged <= base + budget && (job.Some? ==> work.charged + credit == base + budget)
    }

    /** Record i has the fixed width, if there is one, and does not fall below the record before it. */
    predicate Fits(records: seq<Record>, i: nat)
      requires i < |records|
    {
      && (valueWidth.Some? ==> |records[i].value| == valueWidth.value)
      && (i > 0 ==> Le(records[i - 1].key, records[i].key))
    }

    /** The preflight of a batch: neighbours are compared, and that orders the whole batch. */
    method Preflight(records: seq<Record>) returns (ok: bool)
      ensures ok <==> && (valueWidth.Some? ==> forall i | 0 <= i < |records| :: |records[i].value| == valueWidth.value)
                      && Nondecreasing(KeysOf(records))
    {
      var previous: Key := [];
      for i := 0 to |records|
        invariant i > 0 ==> previous == records[i - 1].key
        invariant forall x {:trigger Fits(records, x)} | 0 <= x < i :: Fits(records, x)
      {
        if (valueWidth.Some? && |records[i].value| != valueWidth.value)
           || (i > 0 && Order(previous, records[i].key) > 0) {
          assert !Fits(records, i);
          NeighboursFit(records);
          return false;
        }
        previous := records[i].key;
      }
      NeighboursFit(records);
      return true;
    }

    lemma NeighboursFit(records: seq<Record>)
      ensures (forall i {:trigger Fits(records, i)} | 0 <= i < |records| :: Fits(records, i))
              <==> && (valueWidth.Some? ==> forall i | 0 <= i < |records| :: |records[i].value| == valueWidth.value)
                   && Nondecreasing(KeysOf(records))
    {
      var keys := KeysOf(records);
      if Nondecreasing(keys) {
        forall i | 0 < i < |records| ensures Le(records[i - 1].key, records[i].key) { assert Le(keys[i - 1], keys[i]); }
      }
      if forall i {:trigger Fits(records, i)} | 0 <= i < |records| :: Fits(records, i) {
        forall i | 0 < i < |keys| ensures Le(keys[i - 1], keys[i]) { assert Fits(records, i); }
        NeighboursOrder(keys);
        forall i | 0 <= i < |records| && valueWidth.Some? ensures |records[i].value| == valueWidth.value {
          assert Fits(records, i);
        }
      }
    }

    /** `contribute`: an ordered batch is admitted whole; a rejected one leaves everything as it was. */
    method Contribute(records: seq<Record>, budget: nat) returns (ok: bool)
      requires Valid()
      modifies this, merge, index
      ensures Valid()
      ensures merge == old(merge) || merge == null || fresh(merge)
      ensures index == old(index) || index == null || fresh(index)
      ensures ok <==> && (valueWidth.Some? ==> forall i | 0 <= i < |records| :: |records[i].value| == valueWidth.value)
                      && Nondecreasing(KeysOf(records))
      ensures ok ==> log == old(log) + records && work.admitted == old(work.admitted) + |records|
      ensures ok && records != [] ==> Served(budget)
      ensures ok && |records| == 1 && old(job.None?) ==> Charged(old(work.charged) + old(AdmissionCost()), budget)
      ensures !ok ==> log == old(log) && published == old(published) && job == old(job) && work == old(work)
                      && credit == old(credit) && merge == old(merge) && index == old(index)
    {
      ok := Preflight(records);
      hide Valid, AdmissionCost, Nondecreasing;
      if ok { ContributeAll(records, budget); }
    }

    /** The records one by one, each behind the finished chain of the one before. */
    method ContributeAll(records: seq<Record>, budget: nat)
      requires Valid()
      modifies this, merge, index
      ensures Valid() && log == old(log) + records && work.admitted == old(work.admitted) + |records|
      ensures merge == old(merge) || merge == null || fresh(merge)
      ensures index == old(index) || index == null || fresh(index)
      ensures records != [] ==> Served(budget)
      ensures |records| == 1 && old(job.None?) ==> Charged(old(work.charged) + old(AdmissionCost()), budget)
    {
      ghost var ready, base := job.None?, work.charged + AdmissionCost();
      assert AtCost(0, budget, ready, base);
      LogWhole(log, records);
      hide Valid, AdmissionCost, AtCost, Rest, Served, Charged;
      for i := 0 to |records|
        invariant Valid() && log == old(log) + records[..i] && work.admitted == old(work.admitted) + i
        invariant AtCost(i, budget, ready, base)
        invariant merge == old(merge) || merge == null || fresh(merge)
        invariant index == old(index) || index == null || fresh(index)
      {
        ContributeNext(records[i], budget, i, ready, base);
        LogNext(old(log), records, i);
      }
      LogWhole(old(log), records);
      CostIs(|records|, budget, ready, base);
    }

    /** What the first record of a batch has been charged, and that the last one was served. */
    ghost predicate AtCost(i: nat, budget: nat, ready: bool, base: nat)
      reads `published, `job, `work, `merge, merge, `credit
    {
      && (i == 0 ==> K > 0 && W > 0 && job.None? == ready && work.charged + AdmissionCost() == base)
      && (i == 1 && ready ==> Charged(base, budget))
      && (i > 0 ==> Served(budget))
    }

    lemma CostIs(i: nat, budget: nat, ready: bool, base: nat)
      requires AtCost(i, budget, ready, base)
      ensures i == 1 && ready ==> Charged(base, budget)
      ensures i > 0 ==> Served(budget)
    {
    }

    method ContributeNext(r: Record, budget: nat, ghost i: nat, ghost ready: bool, ghost base: nat)
      requires Valid() && AtCost(i, budget, ready, base)
      modifies this, merge, index
      ensures Valid() && log == old(log) + [r] && AtCost(i + 1, budget, ready, base)
      ensures work.admitted == old(work.admitted) + 1
      ensures merge == old(merge) || merge == null || fresh(merge)
      ensures index == old(index) || index == null || fresh(index)
    {
      hide Valid, AdmissionCost, Rest, Served, Charged;
      ContributeOne(r, budget);
    }

    /** `try_contribute`: refuse without effect while a chain is pending. */
    method TryContribute(r: Record, budget: nat) returns (ok: bool)
      requires Valid()
      modifies this, merge, index
      ensures Valid() && (old(job.Some?) ==> !ok)
      ensures old(job.None?) ==> (ok <==> (valueWidth.Some? ==> |r.value| == valueWidth.value))
      ensures log == if ok then old(log) + [r] else old(log)
      ensures ok ==> Charged(old(work.charged) + old(AdmissionCost()), budget) && Served(budget)
      ensures !ok ==> published == old(published) && job == old(job) && work == old(work) && credit == old(credit)
    {
      hide Valid, AdmissionCost;
      if job.Some? { return false; }
      OrderZero(r.key, r.key);
      assert Nondecreasing(KeysOf([r]));
      ok := Contribute([r], budget);
      assert valueWidth.Some? ==> ((forall i | 0 <= i < 1 :: |[r][i].value| == valueWidth.value) <==> |[r][0].value| == valueWidth.value);
    }
  }

  // ----- batches

  function KeysOf(records: seq<Record>): (keys: seq<Key>)
    ensures |keys| == |records| && forall i | 0 <= i < |records| :: keys[i] == records[i].key
  {
    seq(|records|, i requires 0 <= i < |records| => records[i].key)
  }

  /** Neighbours in order put everything in order. */
  lemma NeighboursOrder(keys: seq<Key>)
    requires forall i | 0 < i < |keys| :: Le(keys[i - 1], keys[i])
    ensures Nondecreasing(keys)
  {
    forall i, j | 0 <= i <= j < |keys| ensures Le(keys[i], keys[j]) { NeighboursBelow(keys, i, j); }
  }

  lemma {:induction false} NeighboursBelow(keys: seq<Key>, i: nat, j: nat)
    requires i <= j < |keys| && forall x | 0 < x < |keys| :: Le(keys[x - 1], keys[x])
    ensures Le(keys[i], keys[j])
    decreases j
  {
    if i == j {
      OrderZero(keys[i], keys[j]);
    } else {
      NeighboursBelow(keys, i, j - 1);
      LcpOrderedMin(keys[i], keys[j - 1], keys[j]);
    }
  }

  /** Compose values one after another. */
  function ComposeAll(policy: Policy, k: Key, first: Option<Value>, records: seq<Record>): Option<Value>
    decreases |records|
  {
    if records == [] then first
    else ComposeAll(policy, k, Combine(policy, k, first, Some(records[0].value)), records[1..])
  }

  /** A batch may repeat one key: it is in order, and its records are separate admissions that compose one after
      another, in batch order, onto what the log held. */
  lemma {:induction false} RepeatedKey(policy: Policy, log: seq<Record>, records: seq<Record>, k: Key)
    requires forall i | 0 <= i < |records| :: records[i].key == k
    ensures Nondecreasing(KeysOf(records))
    ensures Fold(policy, log + records, k) == ComposeAll(policy, k, Fold(policy, log, k), records)
    decreases |records|
  {
    OrderZero(k, k);
    if records == [] {
      assert log + records == log;
    } else {
      var more := log + [records[0]];
      assert log + records == more + records[1..] && more[..|log|] == log;
      RepeatedKey(policy, more, records[1..], k);
    }
  }

  lemma LogNext(log: seq<Record>, records: seq<Record>, i: nat)
    requires i < |records|
    ensures log + records[..i] + [records[i]] == log + records[..i + 1]
  {
    assert records[..i + 1] == records[..i] + [records[i]];
  }

  lemma LogWhole(log: seq<Record>, records: seq<Record>)
    ensures log + records[..|records|] == log + records && log + records[..0] == log
  {
    assert records[..|records|] == records;
  }

  /** The empty node publishes the empty log. */
  lemma FirstSnapshot(node: Index, policy: Policy, K: nat)
    requires K >= 3 && WellFormed(node, K) && node.native == EmptyRun && node.main.None? && node.secondary.None?
    ensures Published(Snapshot(node, [], 0), [], policy, K)
  {
    EmptyNodeCount(node, K);
  }

  method FirstHead(K: nat, ghost policy: Policy) returns (first: Snapshot)
    requires K >= 3
    ensures Published(first, [], policy, K) && Settled(first) && first.runs == []
  {
    hide WellFormed, Published;
    var node := AdoptNative(EmptyRun, None, None, K, 1);
    FirstSnapshot(node, policy, K);
    first := Snapshot(node, [], 0);
  }

  lemma NothingSpent()
    ensures Balanced(NoWork, 0)
  {
  }

  lemma FirstBooks(w: Work)
    requires Balanced(w, 0)
    ensures Balanced(Direct(Direct(w, 1, Setup), 1, Directory), 0)
  {
  }

  lemma FirstWork(w: Work)
    requires Balanced(w, 0)
    ensures Balanced(Direct(Direct(Direct(w, 2, Setup), 3, Directory), 2, Publication), 0)
  {
    hide Direct, Balanced;
  }

  lemma SettledHead(s: Snapshot, log: seq<Record>, policy: Policy, K: nat)
    requires Published(s, log, policy, K)
    ensures K >= 3 && WellFormed(s.head, K) && s.head.count <= K && s.admissions == |log|
    ensures |s.runs| > 0 ==> Mass(s.runs[|s.runs| - 1]) >= 1
  {
    if |s.runs| > 0 { assert IntervalFits(IntervalsOf(s.runs), |s.runs| - 1); }
  }

  /** A trusted bounded head is always adopted. */
  method AdoptHead(head: Index, K: nat)
    requires K > 0 && WellFormed(head, K) && head.count <= K
  {
    WellFormedAgrees(Some(head), K);
    var adopted := AdoptPrepared(Some(head), K);
    assert adopted;
  }

  /** A composition read of a snapshot: run the cascade, then fold its matches oldest first. Whatever the layout,
      the answer is the fold of every admission of the key. */
  method Read(s: Snapshot, policy: Policy, K: nat, k: Key, ghost log: seq<Record>) returns (value: Option<Value>)
    requires Published(s, log, policy, K) && Associative(policy)
    ensures value == Fold(policy, log, k)
  {
    SettledHead(s, log, policy, K);
    var matches := Cascade(s.head, K, k);
    SnapshotMeaning(s, log, policy, K, k);
    value := FoldMatches(policy, k, matches);
  }

  method FoldMatches(policy: Policy, k: Key, matches: seq<Match>) returns (value: Option<Value>)
    ensures value == Composed(policy, k, matches)
  {
    value := None;
    for i := |matches| downto 0
      invariant value == Composed(policy, k, matches[i..])
    {
      value := Combine(policy, k, value, Some(matches[i].value));
    }
    assert matches[0..] == matches;
  }

  /** A replacement read takes the first match and nothing else. */
  method ReadNewest(s: Snapshot, policy: Policy, K: nat, k: Key, ghost log: seq<Record>) returns (value: Option<Value>)
    requires Published(s, log, policy, K) && Associative(policy)
    requires forall a, b :: policy.compose(k, a, b) == b
    ensures value == Fold(policy, log, k)
  {
    hide *;
    SettledHead(s, log, policy, K);
    value := FirstValue(s.head, K, k);
    SnapshotMeaning(s, log, policy, K, k);
    NewestWins(policy, k, Matches(s.head, k));
  }

  lemma NewestWins(policy: Policy, k: Key, matches: seq<Match>)
    requires forall a, b :: policy.compose(k, a, b) == b
    ensures Composed(policy, k, matches) == if matches == [] then None else Some(matches[0].value)
  {
  }

  function ImmediateCost(n: nat, borrowed: nat, K: nat, W: nat): nat
    requires W > 0
  {
    5 + Times(n + borrowed, K + 6) + (Blocks(borrowed, W) + 2) + 3
  }

  /** A main-only index merges its native records and the samples of its target, if it has one. */
  lemma BuilderLength(builder: ColaIndexBuilder)
    requires builder.Valid() && builder.Admitted() && builder.secondary.None?
    ensures |builder.items| == |builder.native.keys| + TargetGroups(builder.main, builder.K)
  {
    LengthIsTotal(builder.streams, builder.items);
  }

  lemma NotCarrier(j: Job, runs: seq<Segment>, log: seq<Record>, policy: Policy, K: nat)
    requires JobAt(j, runs, log, policy, K) && Merging(j.stage)
    ensures !j.carrier
  {
  }

  method WriteSingle(r: Record) returns (native: Run)
    ensures native == Single(r)
  {
    var ok, out := Write(Stream([], []), 0, r.key, r.value);
    assert r.key[0..] == r.key;
    ExtendReads(Stream([], []), Run([], [], []), r.key, 0, r.value);
    DecodesTo(out, Single(r));
    native := ReadRun(out);
  }
}
