/** The publication protocol of one merge (merge_publication): every event checks the stage and its evidence, then
    moves. Refused events change nothing. Safety is stated over whole runs of events. */
module Durability {
  import opened Options

  datatype PersistenceResult = DurableVerified | Failure
  datatype RecoveryEvidence = Unverified | DurableStateVerified
  datatype SelectorRecovery = Unresolved | OldRootSelected
  datatype Stage = Building | OutputDurable | ManifestPending | Uncertain | Published

  /** Input order is significant. */
  datatype Identity = Identity(recipe: string, inputVersions: seq<string>)

  datatype InputCursor = InputCursor(inputVersion: string, ordinal: nat, byteOffset: nat, predecessorKey: string)

  datatype SealedExtent = SealedExtent(exactId: string, bytes: nat, checksum: string)

  datatype Checkpoint = Checkpoint(exactId: string, identity: Identity, outputGeneration: string,
                                   inputs: seq<InputCursor>, sealedOutput: seq<SealedExtent>,
                                   previousOutputKey: string, metadataState: string,
                                   outputRecords: nat, completedWork: nat)

  datatype Publication = Publication(identity: Identity, durable: string, generation: string, pending: string,
                                     generations: seq<string>, manifests: seq<string>, checkpoint: Option<Checkpoint>,
                                     stage: Stage, pins: bool)

  datatype Event =
    | CompleteCheckpoint(candidate: Checkpoint, result: PersistenceResult)
    | CompleteOutput(result: PersistenceResult)
    | PrepareManifest(exactId: string)
    | CompleteManifest(result: PersistenceResult)
    | ReportIoFailure
    | Resume(freshGeneration: string, evidence: RecoveryEvidence, retained: Option<Checkpoint>, selector: SelectorRecovery)
    | AcceptRecovered(evidence: RecoveryEvidence)
    | ReleaseOldPins

  // ----- what each event demands

  predicate Distinct(names: seq<string>) {
    forall i, j | 0 <= i < j < |names| :: names[i] != names[j]
  }

  predicate ValidIdentity(identity: Identity) {
    identity.recipe != "" && identity.inputVersions != []
    && (forall i | 0 <= i < |identity.inputVersions| :: identity.inputVersions[i] != "")
    && Distinct(identity.inputVersions)
  }

  function SealedBytes(extents: seq<SealedExtent>): nat {
    if extents == [] then 0 else SealedBytes(extents[..|extents| - 1]) + extents[|extents| - 1].bytes
  }

  const MAX_BYTES := 0xFFFF_FFFF_FFFF_FFFF

  predicate ExtentsFit(extents: seq<SealedExtent>) {
    && (forall i | 0 <= i < |extents| :: extents[i].exactId != "" && extents[i].checksum != "")
    && (forall i, j | 0 <= i < j < |extents| :: extents[i].exactId != extents[j].exactId)
    && SealedBytes(extents) <= MAX_BYTES
  }

  predicate CheckpointFits(identity: Identity, c: Checkpoint) {
    && c.exactId != "" && c.identity == identity && |c.inputs| == |identity.inputVersions|
    && (forall i | 0 <= i < |c.inputs| :: c.inputs[i].inputVersion == identity.inputVersions[i])
    && ExtentsFit(c.sealedOutput)
  }

  /** No cursor and no counter moves backwards. */
  predicate Forward(before: Checkpoint, after: Checkpoint) {
    && |before.inputs| == |after.inputs|
    && before.outputRecords <= after.outputRecords && before.completedWork <= after.completedWork
    && forall i | 0 <= i < |before.inputs| ::
         before.inputs[i].ordinal <= after.inputs[i].ordinal && before.inputs[i].byteOffset <= after.inputs[i].byteOffset
  }

  predicate CheckpointAllowed(p: Publication, c: Checkpoint) {
    && p.stage == Building && CheckpointFits(p.identity, c) && c.outputGeneration == p.generation
    && (p.checkpoint.Some? ==> c.exactId != p.checkpoint.value.exactId && Forward(p.checkpoint.value, c))
  }

  predicate ResumeAllowed(p: Publication, newGeneration: string, evidence: RecoveryEvidence, retained: Option<Checkpoint>,
                          selector: SelectorRecovery)
  {
    && p.stage == Uncertain && evidence == DurableStateVerified
    && (p.pending != "" ==> selector == OldRootSelected)
    && newGeneration != "" && newGeneration !in p.generations
    && (retained.Some? ==> retained == p.checkpoint)
  }

  /** Whether an event is accepted. */
  predicate Allowed(p: Publication, e: Event) {
    match e
    case CompleteCheckpoint(c, _) => CheckpointAllowed(p, c)
    case CompleteOutput(_) => p.stage == Building
    case PrepareManifest(id) => p.stage == OutputDurable && id != "" && id != p.durable && id !in p.manifests
    case CompleteManifest(_) => p.stage == ManifestPending
    case ReportIoFailure => p.stage != Published
    case Resume(newGeneration, evidence, retained, selector) => ResumeAllowed(p, newGeneration, evidence, retained, selector)
    case AcceptRecovered(evidence) => p.stage == Uncertain && evidence == DurableStateVerified && p.pending != ""
    case ReleaseOldPins => p.stage == Published
  }

  /** The state after an accepted event. */
  function Moved(p: Publication, e: Event): Publication {
    match e
    case CompleteCheckpoint(c, result) => if result.Failure? then p.(stage := Uncertain) else p.(checkpoint := Some(c))
    case CompleteOutput(result) => p.(stage := if result.Failure? then Uncertain else OutputDurable)
    case PrepareManifest(id) => p.(manifests := p.manifests + [id], pending := id, stage := ManifestPending)
    case CompleteManifest(result) =>
      if result.Failure? then p.(stage := Uncertain) else p.(durable := p.pending, stage := Published)
    case ReportIoFailure => p.(stage := Uncertain)
    case Resume(newGeneration, _, retained, _) =>
      p.(generations := p.generations + [newGeneration], generation := newGeneration, checkpoint := retained, pending := "", stage := Building)
    case AcceptRecovered(_) => p.(durable := p.pending, stage := Published)
    case ReleaseOldPins => p.(pins := false)
  }

  function Apply(p: Publication, e: Event): Publication {
    if Allowed(p, e) then Moved(p, e) else p
  }

  // ----- the state machine object

  class MergePublication {
    const identity: Identity
    var durable: string
    var generation: string
    var pending: string
    var generations: seq<string>
    var manifests: seq<string>
    var checkpoint: Option<Checkpoint>
    var stage: Stage
    var pins: bool

    function View(): Publication
      reads this
    {
      Publication(identity, durable, generation, pending, generations, manifests, checkpoint, stage, pins)
    }

    /** A recorded checkpoint was validated when it was recorded. */
    predicate Valid()
      reads this
    {
      checkpoint.Some? ==> CheckpointFits(identity, checkpoint.value)
    }

    constructor (id: Identity, oldManifest: string, outputGeneration: string)
      requires ValidIdentity(id) && oldManifest != "" && outputGeneration != ""
      ensures Valid() && View() == Start(id, oldManifest, outputGeneration)
    {
      identity, durable, generation, pending := id, oldManifest, outputGeneration, "";
      generations, manifests, checkpoint, stage, pins := [outputGeneration], [], None, Building, true;
    }

    /** The construction checks: a complete identity with pairwise different inputs, or nothing is built. */
    static method Open(id: Identity, oldManifest: string, outputGeneration: string)
      returns (publication: MergePublication?)
      ensures publication != null <==> ValidIdentity(id) && oldManifest != "" && outputGeneration != ""
      ensures publication != null ==> fresh(publication) && publication.Valid()
                                      && publication.View() == Start(id, oldManifest, outputGeneration)
    {
      if id.recipe == "" || id.inputVersions == [] || oldManifest == "" || outputGeneration == "" { return null; }
      for i := 0 to |id.inputVersions|
        invariant forall k | 0 <= k < i :: id.inputVersions[k] != ""
        invariant Distinct(id.inputVersions[..i])
      {
        if id.inputVersions[i] == "" { return null; }
        for j := 0 to i
          invariant forall k | 0 <= k < j :: id.inputVersions[k] != id.inputVersions[i]
        {
          if id.inputVersions[j] == id.inputVersions[i] { return null; }
        }
        assert id.inputVersions[..i + 1] == id.inputVersions[..i] + [id.inputVersions[i]];
      }
      assert id.inputVersions[..|id.inputVersions|] == id.inputVersions;
      publication := new MergePublication(id, oldManifest, outputGeneration);
    }

    method OnCheckpoint(candidate: Checkpoint, result: PersistenceResult) returns (ok: bool)
      requires Valid()
      modifies this
      ensures Valid()
      ensures var e := CompleteCheckpoint(candidate, result);
              ok == Allowed(old(View()), e) && View() == Apply(old(View()), e)
      ensures ok <==> && old(stage) == Building && CheckpointFits(identity, candidate)
                      && candidate.outputGeneration == old(generation)
                      && (old(checkpoint).Some? ==> candidate.exactId != old(checkpoint).value.exactId
                                                    && Forward(old(checkpoint).value, candidate))
      ensures View() == if !ok then old(View())
                        else if result == DurableVerified then old(View()).(checkpoint := Some(candidate))
                        else old(View()).(stage := Uncertain)
    {
      if stage != Building { return false; }
      var fits := ValidateCheckpoint(identity, candidate);
      if !fits || candidate.outputGeneration != generation { return false; }
      if checkpoint.Some? {
        if candidate.exactId == checkpoint.value.exactId { return false; }
        var forward := CheckForward(checkpoint.value, candidate);
        if !forward { return false; }
      }
      if result.Failure? { stage := Uncertain; } else { checkpoint := Some(candidate); }
      return true;
    }

    method OnOutput(result: PersistenceResult) returns (ok: bool)
      requires Valid()
      modifies this
      ensures Valid()
      ensures ok == Allowed(old(View()), CompleteOutput(result)) && View() == Apply(old(View()), CompleteOutput(result))
      ensures ok <==> old(stage) == Building
      ensures View() == old(View()).(stage := if !ok then old(stage) else if result == DurableVerified then OutputDurable else Uncertain)
    {
      if stage != Building { return false; }
      stage := if result.DurableVerified? then OutputDurable else Uncertain;
      return true;
    }

    method OnPrepare(exactId: string) returns (ok: bool)
      requires Valid()
      modifies this
      ensures Valid()
      ensures ok == Allowed(old(View()), PrepareManifest(exactId)) && View() == Apply(old(View()), PrepareManifest(exactId))
      ensures ok <==> old(stage) == OutputDurable && exactId != "" && exactId != old(durable) && exactId !in old(manifests)
      ensures View() == if !ok then old(View())
                        else old(View()).(stage := ManifestPending, pending := exactId, manifests := old(manifests) + [exactId])
    {
      if stage != OutputDurable || exactId == "" || exactId == durable || exactId in manifests { return false; }
      manifests, pending, stage := manifests + [exactId], exactId, ManifestPending;
      return true;
    }

    method OnManifest(result: PersistenceResult) returns (ok: bool)
      requires Valid()
      modifies this
      ensures Valid()
      ensures ok == Allowed(old(View()), CompleteManifest(result)) && View() == Apply(old(View()), CompleteManifest(result))
      ensures ok <==> old(stage) == ManifestPending
      ensures View() == if !ok then old(View())
                        else if result == DurableVerified then old(View()).(stage := Published, durable := old(pending))
                        else old(View()).(stage := Uncertain)
    {
      if stage != ManifestPending { return false; }
      if result.Failure? { stage := Uncertain; return true; }
      durable, stage := pending, Published;
      return true;
    }

    method OnFailure() returns (ok: bool)
      requires Valid()
      modifies this
      ensures Valid()
      ensures ok == Allowed(old(View()), ReportIoFailure) && View() == Apply(old(View()), ReportIoFailure)
      ensures ok <==> old(stage) != Published
      ensures View() == old(View()).(stage := if ok then Uncertain else Published)
    {
      if stage == Published { return false; }
      stage := Uncertain;
      return true;
    }

    method OnResume(newGeneration: string, evidence: RecoveryEvidence, retained: Option<Checkpoint>, selector: SelectorRecovery)
      returns (ok: bool)
      requires Valid()
      modifies this
      ensures Valid()
      ensures var e := Resume(newGeneration, evidence, retained, selector);
              ok == Allowed(old(View()), e) && View() == Apply(old(View()), e)
      ensures ok <==> && old(stage) == Uncertain && evidence == DurableStateVerified
                      && (old(pending) != "" ==> selector == OldRootSelected)
                      && newGeneration != "" && newGeneration !in old(generations)
                      && (retained.Some? ==> retained == old(checkpoint))
      ensures View() == if !ok then old(View())
                        else old(View()).(generations := old(generations) + [newGeneration], generation := newGeneration,
                                          checkpoint := retained, pending := "", stage := Building)
    {
      if stage != Uncertain || evidence != DurableStateVerified { return false; }
      if pending != "" && selector != OldRootSelected { return false; }
      if newGeneration == "" || newGeneration in generations { return false; }
      if retained.Some? && retained != checkpoint { return false; }
      generations, generation, checkpoint, pending := generations + [newGeneration], newGeneration, retained, "";
      stage := Building;
      return true;
    }

    method OnRecovered(evidence: RecoveryEvidence) returns (ok: bool)
      requires Valid()
      modifies this
      ensures Valid()
      ensures ok == Allowed(old(View()), AcceptRecovered(evidence)) && View() == Apply(old(View()), AcceptRecovered(evidence))
      ensures ok <==> old(stage) == Uncertain && evidence == DurableStateVerified && old(pending) != ""
      ensures View() == if ok then old(View()).(stage := Published, durable := old(pending)) else old(View())
    {
      if stage != Uncertain || evidence != DurableStateVerified || pending == "" { return false; }
      durable, stage := pending, Published;
      return true;
    }

    /** The first accepted release reports true, later ones false. */
    method OnRelease() returns (ok: bool, released: bool)
      requires Valid()
      modifies this
      ensures Valid()
      ensures ok == Allowed(old(View()), ReleaseOldPins) && View() == Apply(old(View()), ReleaseOldPins)
      ensures ok <==> old(stage) == Published
      ensures released == (ok && old(pins)) && View() == old(View()).(pins := old(pins) && !ok)
    {
      if stage != Published { return false, false; }
      released := pins;
      pins := false;
      ok := true;
    }
  }

  method ValidateCheckpoint(identity: Identity, c: Checkpoint) returns (ok: bool)
    ensures ok <==> CheckpointFits(identity, c)
    ensures ok <==> && c.exactId != "" && c.identity == identity && |c.inputs| == |identity.inputVersions|
                    && (forall i | 0 <= i < |c.inputs| :: c.inputs[i].inputVersion == identity.inputVersions[i])
                    && ExtentsFit(c.sealedOutput)
  {
    if c.exactId == "" || c.identity != identity || |c.inputs| != |identity.inputVersions| { return false; }
    for i := 0 to |c.inputs|
      invariant forall x | 0 <= x < i :: c.inputs[x].inputVersion == identity.inputVersions[x]
    {
      if c.inputs[i].inputVersion != identity.inputVersions[i] { return false; }
    }
    ok := ValidateExtents(c.sealedOutput);
  }

  method ValidateExtents(extents: seq<SealedExtent>) returns (ok: bool)
    ensures ok <==> ExtentsFit(extents)
    ensures ok <==> && (forall i | 0 <= i < |extents| :: extents[i].exactId != "" && extents[i].checksum != "")
                    && (forall i, j | 0 <= i < |extents| && 0 <= j < |extents| && i != j :: extents[i].exactId != extents[j].exactId)
                    && SealedBytes(extents) < 0x1_0000_0000_0000_0000
  {
    for i := 0 to |extents|
      invariant forall x | 0 <= x < i :: extents[x].exactId != "" && extents[x].checksum != ""
      invariant forall x, y | 0 <= x < y < i :: extents[x].exactId != extents[y].exactId
    {
      if extents[i].exactId == "" || extents[i].checksum == "" { return false; }
      for j := 0 to i
        invariant forall x | 0 <= x < j :: extents[x].exactId != extents[i].exactId
      {
        if extents[j].exactId == extents[i].exactId { return false; }
      }
    }
    var sum := 0;
    for i := 0 to |extents|
      invariant sum == SealedBytes(extents[..i]) <= MAX_BYTES
    {
      assert extents[..i + 1][..i] == extents[..i];
      if extents[i].bytes > MAX_BYTES - sum {
        SealedMonotone(extents, i + 1);
        return false;
      }
      sum := sum + extents[i].bytes;
    }
    assert extents[..|extents|] == extents;
    return true;
  }

  lemma {:induction false} SealedMonotone(extents: seq<SealedExtent>, n: nat)
    requires n <= |extents|
    ensures SealedBytes(extents[..n]) <= SealedBytes(extents)
    decreases |extents| - n
  {
    if n < |extents| {
      assert extents[..n + 1][..n] == extents[..n];
      SealedMonotone(extents, n + 1);
    } else {
      assert extents[..n] == extents;
    }
  }

  /** The sealed sizes add up. */
  lemma {:induction false} SealedSum(a: seq<SealedExtent>, b: seq<SealedExtent>)
    ensures SealedBytes(a + b) == SealedBytes(a) + SealedBytes(b)
    ensures |a| == 1 ==> SealedBytes(a) == a[0].bytes
  {
    if |a| == 1 { assert SealedBytes(a[..0]) == 0; }
    if b == [] {
      assert a + b == a;
    } else {
      assert (a + b)[..|a + b| - 1] == a + b[..|b| - 1];
      SealedSum(a, b[..|b| - 1]);
    }
  }

  method CheckForward(before: Checkpoint, after: Checkpoint) returns (ok: bool)
    requires |before.inputs| == |after.inputs|
    ensures ok <==> Forward(before, after)
    ensures ok <==> && before.outputRecords <= after.outputRecords && before.completedWork <= after.completedWork
                    && (forall i | 0 <= i < |before.inputs| :: before.inputs[i].ordinal <= after.inputs[i].ordinal)
                    && (forall i | 0 <= i < |before.inputs| :: before.inputs[i].byteOffset <= after.inputs[i].byteOffset)
  {
    if after.outputRecords < before.outputRecords || after.completedWork < before.completedWork { return false; }
    for i := 0 to |after.inputs|
      invariant forall x | 0 <= x < i ::
                  before.inputs[x].ordinal <= after.inputs[x].ordinal && before.inputs[x].byteOffset <= after.inputs[x].byteOffset
    {
      if after.inputs[i].ordinal < before.inputs[i].ordinal || after.inputs[i].byteOffset < before.inputs[i].byteOffset {
        return false;
      }
    }
    return true;
  }

  // ----- runs

  function Start(id: Identity, oldManifest: string, outputGeneration: string): Publication {
    Publication(id, oldManifest, outputGeneration, "", [outputGeneration], [], None, Building, true)
  }

  /** The state after the first n events. */
  function After(start: Publication, events: seq<Event>, n: nat): Publication
    requires n <= |events|
  {
    if n == 0 then start else Apply(After(start, events, n - 1), events[n - 1])
  }

  ghost predicate Accepted(start: Publication, events: seq<Event>, i: nat)
    requires i < |events|
  {
    Allowed(After(start, events, i), events[i])
  }

  ghost predicate Good(p: Publication, root: string) {
    && root != "" && p.generation != "" && p.generations != [] && p.generations[|p.generations| - 1] == p.generation
    && Distinct(p.generations) && Distinct(p.manifests) && root !in p.manifests
    && (p.stage != Published ==> p.durable == root && p.pins)
    && (p.stage == Published ==> p.durable == p.pending)
    && (p.stage == Building || p.stage == OutputDurable ==> p.pending == "")
    && (p.stage == ManifestPending || p.stage == Published ==> p.pending != "")
    && (p.pending != "" ==> p.manifests != [] && p.pending == p.manifests[|p.manifests| - 1])
    && (p.checkpoint.Some? ==> CheckpointFits(p.identity, p.checkpoint.value))
  }

  lemma DistinctAppend(names: seq<string>, name: string)
    requires Distinct(names) && name !in names
    ensures Distinct(names + [name])
  {
  }

  lemma GoodStep(p: Publication, e: Event, root: string)
    requires Good(p, root)
    ensures Good(Apply(p, e), root)
  {
    if Allowed(p, e) {
      match e
      case PrepareManifest(id) => DistinctAppend(p.manifests, id);
      case Resume(newGeneration, _, _, _) => DistinctAppend(p.generations, newGeneration);
      case _ =>
    }
  }

  /** Every reachable state: unpublished means the old manifest with its pins; generations and manifests never
      repeat; a pending manifest is the last one prepared. */
  lemma {:induction false} ReachableGood(id: Identity, root: string, first: string, events: seq<Event>, n: nat)
    requires ValidIdentity(id) && root != "" && first != "" && n <= |events|
    ensures Good(After(Start(id, root, first), events, n), root)
  {
    if n > 0 {
      ReachableGood(id, root, first, events, n - 1);
      GoodStep(After(Start(id, root, first), events, n - 1), events[n - 1], root);
    }
  }

  /** Once published, the stage and the manifest stay. */
  lemma {:induction false} PublishedStays(start: Publication, events: seq<Event>, i: nat, j: nat)
    requires i <= j <= |events| && After(start, events, i).stage == Published
    ensures After(start, events, j).stage == Published && After(start, events, j).durable == After(start, events, i).durable
    decreases j
  {
    if i < j { PublishedStays(start, events, i, j - 1); }
  }

  /** The durable manifest changes at most once, and only on entering the published stage. */
  lemma ChangesOnce(id: Identity, root: string, first: string, events: seq<Event>, i: nat, j: nat)
    requires ValidIdentity(id) && root != "" && first != "" && i <= j <= |events|
    ensures var s := Start(id, root, first);
            var a, b := After(s, events, i), After(s, events, j);
            a.durable != b.durable ==> a.durable == root && a.stage != Published && b.stage == Published && b.durable != root
  {
    var s := Start(id, root, first);
    ReachableGood(id, root, first, events, i);
    ReachableGood(id, root, first, events, j);
    if After(s, events, i).stage == Published { PublishedStays(s, events, i, j); }
    var b := After(s, events, j);
    if b.stage == Published { assert b.manifests[|b.manifests| - 1] in b.manifests; }
  }

  /** Event `at` verified the output of the generation still current at n. */
  ghost predicate OutputVerified(start: Publication, events: seq<Event>, at: nat, n: nat)
    requires n <= |events|
  {
    && at < n && events[at] == CompleteOutput(DurableVerified) && Accepted(start, events, at)
    && After(start, events, at).generation == After(start, events, n).generation
  }

  /** Event `at` prepared the pending manifest, which was fresh, after that verification. */
  ghost predicate PreparedFresh(start: Publication, events: seq<Event>, out: nat, at: nat, n: nat)
    requires n <= |events|
  {
    var p := After(start, events, n);
    && out < at < n && OutputVerified(start, events, out, n)
    && events[at] == PrepareManifest(p.pending) && Accepted(start, events, at)
    && p.pending !in After(start, events, at).manifests && p.pending != After(start, events, at).durable
  }

  /** Where the current stage comes from. */
  lemma {:induction false} Provenance(start: Publication, events: seq<Event>, n: nat) returns (out: nat, at: nat)
    requires n <= |events| && start.stage == Building && start.pending == ""
    ensures After(start, events, n).stage == OutputDurable ==> OutputVerified(start, events, out, n)
    ensures After(start, events, n).pending != "" ==> PreparedFresh(start, events, out, at, n)
    ensures After(start, events, n).stage == Building ==> After(start, events, n).pending == ""
  {
    out, at := 0, 0;
    if n > 0 {
      out, at := Provenance(start, events, n - 1);
      var p, e := After(start, events, n - 1), events[n - 1];
      if Allowed(p, e) {
        if e.CompleteOutput? { out := n - 1; }
        if e.PrepareManifest? { at := n - 1; }
      }
    }
  }

  // ----- what failures and evidence can do

  /** An event that reports a failed write, or a failure as such. */
  predicate ReportsFailure(e: Event) {
    || (e.CompleteCheckpoint? && e.result == Failure)
    || (e.CompleteOutput? && e.result == Failure)
    || (e.CompleteManifest? && e.result == Failure)
    || e.ReportIoFailure?
  }

  /** A failure makes the outcome uncertain and changes nothing else: the durable manifest, the last checkpoint and
      the old pins are as they were, and the attempted manifest stays on record. */
  lemma FailureIsUncertain(p: Publication, e: Event)
    requires Allowed(p, e) && ReportsFailure(e)
    ensures Apply(p, e).stage == Uncertain && Apply(p, e) == p.(stage := Uncertain)
    ensures Apply(p, e).durable == p.durable && Apply(p, e).checkpoint == p.checkpoint && Apply(p, e).pins == p.pins
  {
  }

  /** The uncertain stage is left only on verified durable evidence: back to building under a generation never used,
      with the exact last checkpoint or none and, after an attempted manifest, the old root selected; or forward to
      the manifest that was attempted. */
  lemma LeavesUncertain(p: Publication, e: Event)
    requires p.stage == Uncertain && Apply(p, e).stage != Uncertain
    ensures e.Resume? || e.AcceptRecovered?
    ensures e.Resume? ==>
              && e.evidence == DurableStateVerified && Apply(p, e).stage == Building && Apply(p, e).durable == p.durable
              && e.freshGeneration !in p.generations && e.freshGeneration != "" && Apply(p, e).generation == e.freshGeneration
              && (p.pending != "" ==> e.selector == OldRootSelected) && Apply(p, e).pending == ""
              && Apply(p, e).checkpoint == e.retained && (e.retained == None || e.retained == p.checkpoint)
    ensures e.AcceptRecovered? ==>
              && e.evidence == DurableStateVerified && Apply(p, e).stage == Published
              && p.pending != "" && Apply(p, e).durable == p.pending
  {
  }

  /** Verified events do advance, each from the stage it belongs to and from no other. */
  lemma VerifiedAdvances(p: Publication, id: string)
    ensures p.stage == Building <==> Allowed(p, CompleteOutput(DurableVerified))
    ensures p.stage == Building ==> Apply(p, CompleteOutput(DurableVerified)) == p.(stage := OutputDurable)
    ensures p.stage == OutputDurable && id != "" && id != p.durable && id !in p.manifests <==> Allowed(p, PrepareManifest(id))
    ensures Allowed(p, PrepareManifest(id)) ==>
              Apply(p, PrepareManifest(id)).stage == ManifestPending && Apply(p, PrepareManifest(id)).pending == id
    ensures p.stage == ManifestPending <==> Allowed(p, CompleteManifest(DurableVerified))
    ensures p.stage == ManifestPending ==>
              Apply(p, CompleteManifest(DurableVerified)) == p.(stage := Published, durable := p.pending)
    ensures p.stage == Published <==> Allowed(p, ReleaseOldPins)
    ensures p.stage == Published ==> Apply(p, ReleaseOldPins) == p.(pins := false)
  {
  }

  /** Verified evidence that a durable state was found. */
  predicate CarriesEvidence(e: Event) {
    || (e.Resume? && e.evidence == DurableStateVerified)
    || (e.AcceptRecovered? && e.evidence == DurableStateVerified)
  }

  /** Over any run: between an uncertain state and a later one that is not, some accepted event carried evidence. */
  lemma {:induction false} EvidenceBetween(start: Publication, events: seq<Event>, i: nat, j: nat) returns (x: nat)
    requires i <= j <= |events|
    requires After(start, events, i).stage == Uncertain && After(start, events, j).stage != Uncertain
    ensures i <= x < j && Accepted(start, events, x) && CarriesEvidence(events[x])
    decreases j
  {
    if After(start, events, j - 1).stage == Uncertain {
      x := j - 1;
      LeavesUncertain(After(start, events, x), events[x]);
    } else {
      x := EvidenceBetween(start, events, i, j - 1);
    }
  }

  /** An event that completes a publication: the verified completion of the pending manifest, or its recovery. */
  predicate Completes(e: Event) {
    e == CompleteManifest(DurableVerified) || e == AcceptRecovered(DurableStateVerified)
  }

  /** Event `done` published: it was accepted, it completes a manifest, and the run is published from then on. */
  ghost predicate PublishedBy(start: Publication, events: seq<Event>, done: nat, n: nat)
    requires n <= |events|
  {
    && done < n && Accepted(start, events, done) && Completes(events[done])
    && After(start, events, done).stage != Published && After(start, events, done + 1).stage == Published
    && After(start, events, done).pending == After(start, events, n).durable
  }

  /** The event that published a run. */
  lemma {:induction false} Completion(start: Publication, events: seq<Event>, n: nat) returns (done: nat)
    requires n <= |events| && start.stage == Building && After(start, events, n).stage == Published
    ensures PublishedBy(start, events, done, n)
  {
    if After(start, events, n - 1).stage == Published {
      done := Completion(start, events, n - 1);
      PublishedStays(start, events, n - 1, n);
    } else {
      done := n - 1;
    }
  }

  /** A manifest becomes durable only if it was freshly prepared after the current generation's output was verified,
      and then completed with verification or recovered on evidence. A failed completion never publishes. */
  lemma PublishedProvenance(id: Identity, root: string, first: string, events: seq<Event>, n: nat)
    returns (out: nat, at: nat, done: nat)
    requires ValidIdentity(id) && root != "" && first != "" && n <= |events|
    requires After(Start(id, root, first), events, n).stage == Published
    ensures PreparedFresh(Start(id, root, first), events, out, at, n)
    ensures events[at] == PrepareManifest(After(Start(id, root, first), events, n).durable)
    ensures at < done && PublishedBy(Start(id, root, first), events, done, n)
  {
    var s := Start(id, root, first);
    ReachableGood(id, root, first, events, n);
    done := Completion(s, events, n);
    out, at := Provenance(s, events, n);
    var o, a := Provenance(s, events, done);
    PreparedOnce(s, events, a, at);
  }

  /** No manifest is prepared twice. */
  lemma PreparedOnce(start: Publication, events: seq<Event>, a: nat, b: nat)
    requires a < |events| && b < |events| && Accepted(start, events, a) && Accepted(start, events, b)
    requires events[a].PrepareManifest? && events[a] == events[b]
    ensures a == b
  {
    if a < b { PreparedBefore(start, events, a, b); }
    if b < a { PreparedBefore(start, events, b, a); }
  }

  lemma PreparedBefore(start: Publication, events: seq<Event>, a: nat, b: nat)
    requires a < b < |events| && Accepted(start, events, a) && events[a].PrepareManifest?
    ensures events[a].exactId in After(start, events, b).manifests
  {
    ManifestsStay(start, events, a + 1, b);
    var was := After(start, events, a).manifests;
    assert After(start, events, a + 1).manifests[|was|] == events[a].exactId;
  }

  lemma {:induction false} ManifestsStay(start: Publication, events: seq<Event>, i: nat, j: nat)
    requires i <= j <= |events|
    ensures After(start, events, i).manifests <= After(start, events, j).manifests
    decreases j
  {
    if i < j { ManifestsStay(start, events, i, j - 1); }
  }

  ghost predicate Resumed(start: Publication, events: seq<Event>, i: nat, j: nat)
    requires i <= j <= |events|
  {
    exists x | i <= x < j :: events[x].Resume? && Accepted(start, events, x)
  }

  lemma ForwardTransitive(a: Checkpoint, b: Checkpoint, c: Checkpoint)
    requires Forward(a, b) && Forward(b, c)
    ensures Forward(a, c)
  {
  }

  /** Between resumptions a checkpoint is never lost and its cursors never move backwards. */
  lemma {:induction false} CheckpointsForward(start: Publication, events: seq<Event>, i: nat, j: nat)
    requires i <= j <= |events| && !Resumed(start, events, i, j)
    requires After(start, events, i).checkpoint.Some?
    ensures After(start, events, j).checkpoint.Some?
    ensures Forward(After(start, events, i).checkpoint.value, After(start, events, j).checkpoint.value)
    decreases j
  {
    if i < j {
      assert !Resumed(start, events, i, j - 1);
      CheckpointsForward(start, events, i, j - 1);
      var p, q := After(start, events, j - 1), After(start, events, j);
      assert !(events[j - 1].Resume? && Accepted(start, events, j - 1));
      if p.checkpoint != q.checkpoint {
        ForwardTransitive(After(start, events, i).checkpoint.value, p.checkpoint.value, q.checkpoint.value);
      }
    }
  }
}
