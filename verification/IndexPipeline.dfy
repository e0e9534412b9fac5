/** The index pipeline: stages joined by one-sample queues (pipeline_driver). */
module IndexPipelines {
  // Stages are ordered nearest the source first. Whatever order backpressure imposes, a quantum is always available
  // until the last stage is done, every stage sees exactly every K-th occurrence of the merge before it, and the
  // number of quanta is fixed in advance.

  import opened Options
  import opened Keys
  import opened StableMerge
  import opened Frontier
  import ColaBuilder
  import opened ColaSpec
  import opened IndexStages

  // ----- the source sampler

  /** `sample_cursor`: every K-th occurrence of the target's own merge of native and borrowed keys. */
  class SourceSampler {
    const K: nat
    const native: seq<Key>
    const borrowed: seq<Key>
    ghost const streams: Streams
    ghost const items: seq<Item>
    var nativePos: nat
    var borrowedPos: nat
    var ordinal: nat
    var nextBorrowed: bool

    ghost predicate Valid()
      reads this
    {
      && K > 0 && TwoWay(streams, items) && streams == [native, borrowed, []]
      && ordinal <= |items| == |native| + |borrowed|
      && nativePos == Count(items, 0, ordinal) <= |native| && borrowedPos == Count(items, 1, ordinal) <= |borrowed|
      && nativePos + borrowedPos == ordinal
      && (ordinal < |items| ==> nextBorrowed == (items[ordinal].origin == 1))
    }

    constructor (stride: nat, nativeKeys: seq<Key>, borrowedKeys: seq<Key>)
      requires stride > 0 && Increasing(nativeKeys) && Nondecreasing(borrowedKeys)
      ensures Valid() && K == stride && native == nativeKeys && borrowed == borrowedKeys && ordinal == 0
      ensures items == Merge([nativeKeys, borrowedKeys, []])
    {
      K, native, borrowed, streams, items := stride, nativeKeys, borrowedKeys, [nativeKeys, borrowedKeys, []],
        Merge([nativeKeys, borrowedKeys, []]);
      nativePos, borrowedPos, ordinal := 0, 0, 0;
      nextBorrowed := |nativeKeys| == 0 || (|borrowedKeys| > 0 && Order(borrowedKeys[0], nativeKeys[0]) < 0);
      new;
      IncreasingNondecreasing(nativeKeys);
      assert Nondecreasing(streams[0]) && Nondecreasing(streams[1]) && Nondecreasing(streams[2]);
      LengthIsTotal(streams, items);
      HeadChoice(streams, items, 0, nextBorrowed);
    }

    predicate Done()
      reads this
    {
      nativePos == |native| && borrowedPos == |borrowed|
    }

    function Peek(): (key: Key)
      requires Valid() && !Done()
      reads this
      ensures ordinal < |items| && key == items[ordinal].key
    {
      assert TakesBest(streams, items, ordinal);
      if nextBorrowed then borrowed[borrowedPos] else native[nativePos]
    }

    /** `choose_next`. */
    method ChooseNext()
      requires K > 0 && TwoWay(streams, items) && streams == [native, borrowed, []]
      requires ordinal <= |items| == |native| + |borrowed| && nativePos + borrowedPos == ordinal
      requires nativePos == Count(items, 0, ordinal) <= |native| && borrowedPos == Count(items, 1, ordinal) <= |borrowed|
      modifies this`nextBorrowed
      ensures Valid()
    {
      if nativePos == |native| { nextBorrowed := true; }
      else if borrowedPos == |borrowed| { nextBorrowed := false; }
      else { nextBorrowed := Order(borrowed[borrowedPos], native[nativePos]) < 0; }
      HeadChoice(streams, items, ordinal, nextBorrowed);
    }

    method Consume()
      requires Valid() && ordinal < |items|
      modifies this
      ensures Valid() && ordinal == old(ordinal) + 1
    {
      assert TakesBest(streams, items, ordinal);
      if nextBorrowed { borrowedPos := borrowedPos + 1; } else { nativePos := nativePos + 1; }
      ordinal := ordinal + 1;
      ChooseNext();
    }

    /** `advance`: at most K occurrences on. */
    method Advance()
      requires Valid() && !Done()
      modifies this
      ensures Valid() && ordinal == Min(old(ordinal) + K, |items|)
    {
      var count := Min(K, |native| + |borrowed| - ordinal);
      for i := 0 to count
        invariant Valid() && ordinal == old(ordinal) + i
      {
        Consume();
      }
    }
  }

  lemma SomeHead(streams: Streams, items: seq<Item>, t: nat)
    requires TwoWay(streams, items) && t < |items|
    ensures Count(items, 0, t) != |streams[0]| || Count(items, 1, t) != |streams[1]|
  {
    LiveIffBefore(streams, items, t);
    CountBound(streams, items, 2, t);
  }

  /** Comparing the two heads whole picks the next occurrence. */
  lemma HeadChoice(streams: Streams, items: seq<Item>, t: nat, borrow: bool)
    requires TwoWay(streams, items) && t <= |items|
    requires var p, b := Count(items, 0, t), Count(items, 1, t);
             p <= |streams[0]| && b <= |streams[1]|
             && (p == |streams[0]| ==> borrow)
             && (p < |streams[0]| && b == |streams[1]| ==> !borrow)
             && (p < |streams[0]| && b < |streams[1]| ==> borrow == (Order(streams[1][b], streams[0][p]) < 0))
    ensures t < |items| ==> borrow == (items[t].origin == 1)
  {
    hide Trusted, Order, Count, Lcp;
    if t < |items| {
      var p, b := Count(items, 0, t), Count(items, 1, t);
      SomeHead(streams, items, t);
      if p < |streams[0]| && b < |streams[1]| { LcpSymmetric(streams[1][b], streams[0][p]); }
      if borrow { NextOfTwo(streams, items, t, 1); } else { NextOfTwo(streams, items, t, 0); }
    }
  }

  // ----- sums

  function Sum(parts: seq<int>): int {
    if parts == [] then 0 else Sum(parts[..|parts| - 1]) + parts[|parts| - 1]
  }

  lemma {:induction false} SumChange(a: seq<int>, b: seq<int>, i: nat)
    requires |a| == |b| && i < |a| && forall j | 0 <= j < |a| && j != i :: a[j] == b[j]
    ensures Sum(b) == Sum(a) + b[i] - a[i]
  {
    var n := |a| - 1;
    if i < n {
      SumChange(a[..n], b[..n], i);
    } else {
      assert a[..n] == b[..n];
    }
  }

  lemma {:induction false} SumNonnegative(a: seq<int>)
    requires forall j | 0 <= j < |a| :: a[j] >= 0
    ensures Sum(a) >= 0
    ensures Sum(a) == 0 ==> forall j | 0 <= j < |a| :: a[j] == 0
  {
    if a != [] {
      SumNonnegative(a[..|a| - 1]);
      if Sum(a) == 0 {
        forall j | 0 <= j < |a| ensures a[j] == 0 { if j < |a| - 1 { assert a[j] == a[..|a| - 1][j]; } }
      }
    }
  }

  lemma {:induction false} SumZero(a: seq<int>)
    requires forall j | 0 <= j < |a| :: a[j] == 0
    ensures Sum(a) == 0
  {
    if a != [] { SumZero(a[..|a| - 1]); }
  }

  // ----- the driver

  /** Work a stage still has: occurrences to consume, samples to hand out, and one end of input. */
  function LeftOf(f: Flow, total: nat, K: nat): int
    requires K > 0
  {
    (total - f.count) + (GroupCount(total, K) - f.emitted) + (if f.closed then 0 else 1)
  }

  /** The merge a stage is fed from. */
  function Feeder(first: seq<Item>, items: seq<seq<Item>>, i: nat): seq<Item>
    requires i <= |items|
  {
    if i == 0 then first else items[i - 1]
  }

  /** Stage i receives every K-th occurrence of the merge before it. */
  ghost predicate WiredAt(K: nat, first: seq<Item>, streams: seq<Streams>, items: seq<seq<Item>>, i: nat)
    requires i < |streams| && i < |items|
  {
    K > 0 && |streams[i]| == 3 && streams[i][1] == EveryKth(ItemKeys(Feeder(first, items, i)), K)
  }

  /** A stage and the counters kept beside it. */
  ghost predicate StageOk(K: nat, streams: Streams, items: seq<Item>, s: Stage, emitted: nat, consumed: nat, left: int) {
    && K > 0 && StageAt(streams, items, K, s) && emitted == Emitted(s) && consumed == s.count
    && left == LeftOf(FlowOf(s), |items|, K)
  }

  predicate StageDone(s: Stage, native: seq<Key>) {
    Done(s, |native|)
  }

  /** A stage has received what its predecessor handed out, and closes only after it. */
  predicate LinkOk(before: Stage, native: seq<Key>, s: Stage) {
    s.received == Emitted(before) && (s.closed ==> StageDone(before, native))
  }

  ghost predicate RowOk(K: nat, streams: seq<Streams>, items: seq<seq<Item>>, stages: seq<Stage>,
                        emitted: seq<nat>, consumed: seq<nat>, left: seq<int>, i: nat)
    requires |stages| == |emitted| == |consumed| == |left| == |items| == |streams| && i < |stages|
  {
    StageOk(K, streams[i], items[i], stages[i], emitted[i], consumed[i], left[i])
  }

  ghost predicate Rows(K: nat, streams: seq<Streams>, items: seq<seq<Item>>, stages: seq<Stage>,
                       emitted: seq<nat>, consumed: seq<nat>, left: seq<int>) {
    && |stages| == |emitted| == |consumed| == |left| == |items| == |streams|
    && forall i {:trigger RowOk(K, streams, items, stages, emitted, consumed, left, i)} | 0 <= i < |stages| ::
         RowOk(K, streams, items, stages, emitted, consumed, left, i)
  }

  lemma RowUpdate(K: nat, streams: seq<Streams>, items: seq<seq<Item>>, stages: seq<Stage>, emitted: seq<nat>,
                  consumed: seq<nat>, left: seq<int>, i: nat, next: Stage, e: nat, c: nat, l: int)
    requires Rows(K, streams, items, stages, emitted, consumed, left) && i < |stages|
    requires StageOk(K, streams[i], items[i], next, e, c, l)
    ensures Rows(K, streams, items, stages[i := next], emitted[i := e], consumed[i := c], left[i := l])
  {
    hide StageOk;
    var s1, e1, c1, l1 := stages[i := next], emitted[i := e], consumed[i := c], left[i := l];
    forall j | 0 <= j < |stages| ensures RowOk(K, streams, items, s1, e1, c1, l1, j) {
      assert RowOk(K, streams, items, stages, emitted, consumed, left, j);
    }
  }

  lemma RowUpdateTwo(K: nat, streams: seq<Streams>, items: seq<seq<Item>>, stages: seq<Stage>, emitted: seq<nat>,
                     consumed: seq<nat>, left: seq<int>, i: nat, from: Stage, to: Stage)
    requires Rows(K, streams, items, stages, emitted, consumed, left) && i + 1 < |stages|
    requires StageOk(K, streams[i], items[i], from, emitted[i] + 1, consumed[i], left[i] - 1)
    requires StageOk(K, streams[i + 1], items[i + 1], to, emitted[i + 1], consumed[i + 1], left[i + 1])
    ensures Rows(K, streams, items, stages[i := from][i + 1 := to], emitted[i := emitted[i] + 1], consumed, left[i := left[i] - 1])
  {
    hide StageOk;
    var s1, e1, l1 := stages[i := from][i + 1 := to], emitted[i := emitted[i] + 1], left[i := left[i] - 1];
    forall j | 0 <= j < |stages| ensures RowOk(K, streams, items, s1, e1, consumed, l1, j) {
      assert RowOk(K, streams, items, stages, emitted, consumed, left, j);
    }
  }

  predicate PairOk(natives: seq<seq<Key>>, stages: seq<Stage>, i: nat)
    requires 0 < i < |stages| == |natives|
  {
    LinkOk(stages[i - 1], natives[i - 1], stages[i])
  }

  ghost predicate Pairs(natives: seq<seq<Key>>, stages: seq<Stage>) {
    |stages| == |natives| && forall i {:trigger PairOk(natives, stages, i)} | 0 < i < |stages| :: PairOk(natives, stages, i)
  }

  /** Replacing neighbouring stages keeps the chain if the new links hold. */
  lemma PairUpdate(natives: seq<seq<Key>>, stages: seq<Stage>, i: nat, from: Stage, to: Stage)
    requires Pairs(natives, stages) && i + 1 < |stages|
    requires i > 0 ==> LinkOk(stages[i - 1], natives[i - 1], from)
    requires LinkOk(from, natives[i], to)
    requires i + 2 < |stages| ==> LinkOk(to, natives[i + 1], stages[i + 2])
    ensures Pairs(natives, stages[i := from][i + 1 := to])
  {
    hide LinkOk;
    var after := stages[i := from][i + 1 := to];
    forall j | 0 < j < |stages| ensures PairOk(natives, after, j) {
      assert PairOk(natives, stages, j);
    }
  }

  lemma PairUpdateOne(natives: seq<seq<Key>>, stages: seq<Stage>, i: nat, next: Stage)
    requires Pairs(natives, stages) && i < |stages|
    requires i > 0 ==> LinkOk(stages[i - 1], natives[i - 1], next)
    requires i + 1 < |stages| ==> LinkOk(next, natives[i], stages[i + 1])
    ensures Pairs(natives, stages[i := next])
  {
    hide LinkOk;
    var after := stages[i := next];
    forall j | 0 < j < |stages| ensures PairOk(natives, after, j) {
      assert PairOk(natives, stages, j);
    }
  }

  // ----- one stage's quantum, with its counters

  method TakeRow(K: nat, s: Stage, ghost streams: Streams, ghost items: seq<Item>, ghost e: nat, ghost c: nat, ghost l: int)
    returns (sample: Coded, next: Stage)
    requires StageOk(K, streams, items, s, e, c, l) && s.outgoing.Some?
    ensures StageOk(K, streams, items, next, e + 1, c, l - 1) && next == s.(outgoing := None)
    ensures e < GroupCount(|items|, K) && sample == CodeOf(EveryKth(ItemKeys(items), K), K, e)
    ensures Emitted(next) == Emitted(s) + 1
  {
    hide StageAt;
    EmittedBound(streams, items, K, s);
    sample, next := Take(s, K, streams, items);
  }

  method ReceiveRow(K: nat, s: Stage, sample: Coded, ghost streams: Streams, ghost items: seq<Item>, ghost e: nat,
                    ghost c: nat, ghost l: int) returns (next: Stage)
    requires StageOk(K, streams, items, s, e, c, l) && NeedsInput(s) && |streams| == 3 && s.received < |streams[1]|
    requires sample == CodeOf(streams[1], K, s.received)
    ensures StageOk(K, streams, items, next, e, c, l)
    ensures next.received == s.received + 1 && !next.closed && Emitted(next) == Emitted(s)
  {
    hide StageAt, Acceptable, Decoded, CodeOf;
    NextAccepted(streams, items, K, s);
    var ok;
    ok, next := Receive(s, sample, K, streams, items);
    assert ok;
  }

  method CloseRow(K: nat, s: Stage, ghost streams: Streams, ghost items: seq<Item>, ghost e: nat, ghost c: nat, ghost l: int)
    returns (next: Stage)
    requires StageOk(K, streams, items, s, e, c, l) && NeedsInput(s) && |streams| == 3 && s.received == |streams[1]|
    ensures StageOk(K, streams, items, next, e, c, l - 1) && next == s.(closed := true)
  {
    hide StageAt;
    next := Close(s, K, streams, items);
  }

  /** The step cannot come back empty: an input waits or is closed, no sample waits, and the merge is not over. */
  method StepRow(K: nat, native: seq<Key>, s: Stage, ghost streams: Streams, ghost items: seq<Item>, ghost e: nat,
                 ghost c: nat, ghost l: int) returns (next: Stage, count: nat)
    requires StageOk(K, streams, items, s, e, c, l) && |streams| == 3 && native == streams[0]
    requires !NeedsInput(s) && s.outgoing.None? && !StageDone(s, native)
    ensures count == 1 && StageOk(K, streams, items, next, e, c + 1, l - 1)
    ensures next.received == s.received && next.closed == s.closed && Emitted(next) == Emitted(s)
  {
    hide StageAt;
    DoneIsComplete(streams, items, K, s);
    EmittedBound(streams, items, K, s);
    next, count := StepWithin(native, K, s, 1, streams, items);
  }

  lemma DoneRow(K: nat, native: seq<Key>, s: Stage, streams: Streams, items: seq<Item>, e: nat, c: nat, l: int)
    requires StageOk(K, streams, items, s, e, c, l) && |streams| == 3 && native == streams[0]
    ensures StageDone(s, native) ==> e == GroupCount(|items|, K) && l == 0 && s.closed
    ensures l >= 0 && e <= GroupCount(|items|, K) && s.received <= |streams[1]|
    ensures StageDone(s, native) ==> !NeedsInput(s) && s.outgoing.None?
    ensures l == 0 ==> StageDone(s, native)
  {
    hide StageAt;
    DoneIsComplete(streams, items, K, s);
    EmittedBound(streams, items, K, s);
  }

  /** The first stage has received what the source sampler has passed. */
  ghost predicate SourceAt(K: nat, items: seq<Item>, ordinal: nat, streams: Streams, received: nat, encoder: Key,
                           sourceLeft: int)
  {
    && K > 0 && |streams| == 3 && received <= |streams[1]|
    && ordinal == ColaBuilder.SampleStart(ItemKeys(items), K, received)
    && encoder == LastReceived(streams, received)
    && sourceLeft == |streams[1]| - received
  }

  /** The sampler's current occurrence is the sample the first stage waits for. */
  lemma SourceNext(K: nat, items: seq<Item>, ordinal: nat, streams: Streams, received: nat, encoder: Key, sourceLeft: int)
    requires SourceAt(K, items, ordinal, streams, received, encoder, sourceLeft) && ordinal < |items|
    requires streams[1] == EveryKth(ItemKeys(items), K)
    ensures received < |streams[1]|
    ensures Encode(encoder, items[ordinal].key, ordinal) == CodeOf(streams[1], K, received)
    ensures ordinal == received * K && (Nondecreasing(streams[1]) ==> Le(encoder, items[ordinal].key))
    ensures SourceAt(K, items, Min(ordinal + K, |items|), streams, received + 1, items[ordinal].key, sourceLeft - 1)
  {
    ColaBuilder.SampleHead(ItemKeys(items), K, received);
    ColaBuilder.SampleNext(ItemKeys(items), K, received);
    TimesIs(received, K);
    Frontier.EmptyIsLeast(items[ordinal].key);
  }

  lemma SourceEnd(K: nat, items: seq<Item>, ordinal: nat, streams: Streams, received: nat, encoder: Key, sourceLeft: int)
    requires SourceAt(K, items, ordinal, streams, received, encoder, sourceLeft) && ordinal == |items|
    requires streams[1] == EveryKth(ItemKeys(items), K)
    ensures received == |streams[1]| && sourceLeft == 0
  {
    ColaBuilder.SampleHead(ItemKeys(items), K, received);
  }

  // ----- the whole-catalog reference

  /** The simple form: merge each native list with every K-th entry of the complete catalog before it. */
  ghost function CatalogOrders(K: nat, first: seq<Item>, natives: seq<seq<Key>>): (orders: seq<seq<Item>>)
    requires K > 0
    ensures |orders| == |natives|
  {
    if natives == [] then []
    else
      var n := |natives| - 1;
      var before := CatalogOrders(K, first, natives[..n]);
      before + [Merge([natives[n], EveryKth(ItemKeys(Feeder(first, before, n)), K), []])]
  }

  ghost function CatalogStreams(K: nat, first: seq<Item>, natives: seq<seq<Key>>): (streams: seq<Streams>)
    requires K > 0
    ensures |streams| == |natives|
  {
    var orders := CatalogOrders(K, first, natives);
    seq(|natives|, i requires 0 <= i < |natives| => [natives[i], EveryKth(ItemKeys(Feeder(first, orders, i)), K), []])
  }

  lemma {:induction false} CatalogPrefix(K: nat, first: seq<Item>, natives: seq<seq<Key>>, i: nat)
    requires K > 0 && i < |natives|
    ensures CatalogOrders(K, first, natives)[i] == Merge(CatalogStreams(K, first, natives)[i])
  {
    var n := |natives| - 1;
    var before := CatalogOrders(K, first, natives[..n]);
    assert Feeder(first, CatalogOrders(K, first, natives), i) == Feeder(first, before, i);
    if i < n { CatalogPrefix(K, first, natives[..n], i); }
  }

  lemma {:induction false} CatalogTwoWay(K: nat, first: seq<Item>, natives: seq<seq<Key>>, i: nat)
    requires K > 0 && i < |natives| && Nondecreasing(ItemKeys(first))
    requires forall j | 0 <= j < |natives| :: Increasing(natives[j])
    ensures TwoWay(CatalogStreams(K, first, natives)[i], CatalogOrders(K, first, natives)[i])
    ensures Nondecreasing(ItemKeys(CatalogOrders(K, first, natives)[i]))
  {
    var orders, streams := CatalogOrders(K, first, natives), CatalogStreams(K, first, natives)[i];
    CatalogPrefix(K, first, natives, i);
    if i > 0 { CatalogTwoWay(K, first, natives, i - 1); }
    EveryKthSorted(ItemKeys(Feeder(first, orders, i)), K);
    IncreasingNondecreasing(natives[i]);
    assert Nondecreasing(streams[0]) && Nondecreasing(streams[1]) && Nondecreasing(streams[2]);
    AugmentedSorted(streams, orders[i]);
  }

  /** Stage i consumes its native entries and one entry per K of the catalog before it. */
  lemma CatalogLength(K: nat, first: seq<Item>, natives: seq<seq<Key>>, i: nat)
    requires K > 0 && i < |natives| && Nondecreasing(ItemKeys(first))
    requires forall j | 0 <= j < |natives| :: Increasing(natives[j])
    ensures var orders := CatalogOrders(K, first, natives);
            |orders[i]| == |natives[i]| + GroupCount(|Feeder(first, orders, i)|, K)
  {
    CatalogTwoWay(K, first, natives, i);
    LengthIsTotal(CatalogStreams(K, first, natives)[i], CatalogOrders(K, first, natives)[i]);
  }

  /** Quanta of each stage: its occurrences, its samples, its end of input. */
  function Quanta(items: seq<seq<Item>>, K: nat): (parts: seq<int>)
    requires K > 0
    ensures |parts| == |items|
  {
    seq(|items|, i requires 0 <= i < |items| => |items[i]| + GroupCount(|items[i]|, K) + 1)
  }

  class PipelineDriver {
    const K: nat
    const natives: seq<seq<Key>>
    const source: SourceSampler
    ghost const streams: seq<Streams>
    ghost const items: seq<seq<Item>>
    var encoder: Key
    var stages: seq<Stage>
    var emitted: seq<nat>
    var consumed: seq<nat>
    /** The quanta every stage and the source still need. */
    ghost var left: seq<int>
    ghost var sourceLeft: int

    /** Fresh stages behind a fresh sampler. The number of quanta is fixed here: every source sample, every
        occurrence and every sample of every stage, and one end of input each. */
    constructor (stride: nat, sampler: SourceSampler, keys: seq<seq<Key>>)
      requires sampler.Valid() && sampler.K == stride && sampler.ordinal == 0 && |keys| > 0
      requires forall i | 0 <= i < |keys| :: Increasing(keys[i])
      ensures Valid() && K == stride && source == sampler && natives == keys
      ensures items == CatalogOrders(stride, sampler.items, keys)
      ensures Total() == GroupCount(|sampler.items|, stride) + Sum(Quanta(items, stride))
    {
      K, natives, source := stride, keys, sampler;
      items := CatalogOrders(stride, sampler.items, keys);
      streams := CatalogStreams(stride, sampler.items, keys);
      stages, emitted, consumed := seq(|keys|, _ => FreshStage), seq(|keys|, _ => 0), seq(|keys|, _ => 0);
      left := Quanta(CatalogOrders(stride, sampler.items, keys), stride);
      sourceLeft := GroupCount(|sampler.items|, stride);
      encoder := [];
      new;
      AugmentedSorted(sampler.streams, sampler.items);
      hide StageAt, EveryKth, Sum, TwoWay, Nondecreasing;
      forall i | 0 <= i < |keys|
        ensures RowOk(K, streams, items, stages, emitted, consumed, left, i)
        ensures WiredAt(K, source.items, streams, items, i)
        ensures i > 0 ==> PairOk(natives, stages, i)
      {
        CatalogTwoWay(stride, sampler.items, keys, i);
        FreshAt(streams[i], items[i], stride);
      }
      assert WiredAt(K, source.items, streams, items, 0);
    }

    ghost predicate Wired() {
      && K > 0 && source.K == K && |streams| == |items| == |natives| > 0
      && (forall i {:trigger WiredAt(K, source.items, streams, items, i)} | 0 <= i < |items| ::
            WiredAt(K, source.items, streams, items, i))
      && (forall i | 0 <= i < |items| :: |streams[i]| == 3 && natives[i] == streams[i][0])
    }

    ghost predicate StagesOk()
      reads this
    {
      && |stages| == |emitted| == |consumed| == |left| == |items| == |streams| == |natives|
      && Rows(K, streams, items, stages, emitted, consumed, left) && Pairs(natives, stages)
    }

    ghost predicate Valid()
      reads this, source
    {
      && Wired() && StagesOk() && source.Valid()
      && |stages| > 0 && SourceAt(K, source.items, source.ordinal, streams[0], stages[0].received, encoder, sourceLeft)
    }

    ghost function Total(): int
      reads this
    {
      sourceLeft + Sum(left)
    }

    predicate AllDone()
      reads this
    {
      0 < |stages| == |natives| && StageDone(stages[|stages| - 1], natives[|stages| - 1])
    }

    // ----- the kinds of quantum

    lemma At(i: nat)
      requires Valid() && i < |stages|
      ensures StageOk(K, streams[i], items[i], stages[i], emitted[i], consumed[i], left[i])
      ensures i > 0 ==> LinkOk(stages[i - 1], natives[i - 1], stages[i])
      ensures i + 1 < |stages| ==> LinkOk(stages[i], natives[i], stages[i + 1])
      ensures WiredAt(K, source.items, streams, items, i) && natives[i] == streams[i][0]
      ensures i + 1 < |stages| ==> WiredAt(K, source.items, streams, items, i + 1)
    {
      assert RowOk(K, streams, items, stages, emitted, consumed, left, i);
      if i > 0 { assert PairOk(natives, stages, i); }
      if i + 1 < |stages| { assert PairOk(natives, stages, i + 1); }
    }

    /** The last stage's sample has no reader. */
    method EmitLast()
      requires Valid() && stages[|stages| - 1].outgoing.Some?
      modifies this
      ensures Valid() && Total() == old(Total()) - 1
    {
      hide StageOk, Sum, WiredAt, EveryKth, Rows, Pairs, SourceAt, TwoWay, ColaBuilder.SampleStart, GroupCount, CodeOf, Encode,
        WholeUnits, StageDone;
      var i := |stages| - 1;
      At(i);
      var _, next := TakeRow(K, stages[i], streams[i], items[i], emitted[i], consumed[i], left[i]);
      RowUpdate(K, streams, items, stages, emitted, consumed, left, i, next, emitted[i] + 1, consumed[i], left[i] - 1);
      PairUpdateOne(natives, stages, i, next);
      SumChange(left, left[i := left[i] - 1], i);
      stages, emitted, consumed := stages[i := next], emitted[i := emitted[i] + 1], consumed[i := consumed[i]];
      left := left[i := left[i] - 1];
    }

    /** One sample moves to the next stage: exactly the sample that stage is waiting for. */
    method Transfer(i: nat)
      requires Valid() && i + 1 < |stages| && stages[i].outgoing.Some? && NeedsInput(stages[i + 1])
      modifies this
      ensures Valid() && Total() == old(Total()) - 1
    {
      hide StageOk, Sum, EveryKth, Rows, Pairs, SourceAt, TwoWay, ColaBuilder.SampleStart, GroupCount, CodeOf, Encode, WholeUnits,
        StageDone;
      At(i);
      At(i + 1);
      Next(i + 1);
      var sample, from := TakeRow(K, stages[i], streams[i], items[i], emitted[i], consumed[i], left[i]);
      Waiting(i);
      var to := ReceiveRow(K, stages[i + 1], sample, streams[i + 1], items[i + 1], emitted[i + 1], consumed[i + 1], left[i + 1]);
      RowUpdateTwo(K, streams, items, stages, emitted, consumed, left, i, from, to);
      PairUpdate(natives, stages, i, from, to);
      SumChange(left, left[i := left[i] - 1], i);
      stages, emitted := stages[i := from][i + 1 := to], emitted[i := emitted[i] + 1];
      left := left[i := left[i] - 1];
    }

    /** The pair after i, when there is one. */
    lemma Next(i: nat)
      requires Valid() && 0 < i < |stages|
      ensures i + 1 < |stages| ==> LinkOk(stages[i], natives[i], stages[i + 1])
    {
      At(i);
    }

    /** What a waiting stage will receive is what its predecessor has next. */
    lemma Waiting(i: nat)
      requires Valid() && i + 1 < |stages| && emitted[i] < GroupCount(|items[i]|, K)
      ensures |streams[i + 1]| == 3 && stages[i + 1].received == emitted[i] < |streams[i + 1][1]|
      ensures streams[i + 1][1] == EveryKth(ItemKeys(items[i]), K)
      ensures NeedsInput(stages[i + 1]) && i + 2 < |stages| ==>
                !stages[i + 2].closed && stages[i + 2].received == Emitted(stages[i + 1])
    {
      hide StageAt;
      At(i);
      At(i + 1);
    }

    lemma Sorted(i: nat)
      requires Valid() && i < |stages|
      ensures |streams[i]| == 3 && Nondecreasing(streams[i][1])
    {
      hide Rows, Pairs, WiredAt;
      At(i);
    }

    /** One source sample enters the first stage, and the sampler moves on by at most K occurrences. */
    method Feed()
      requires Valid() && NeedsInput(stages[0]) && !source.Done()
      modifies this, source
      ensures Valid() && Total() == old(Total()) - 1
    {
      hide StageOk, Sum, Rows, Pairs, TwoWay, EveryKth, SourceAt, ColaBuilder.SampleStart, GroupCount, Count, CodeOf, Encode, ItemKeys;
      At(0);
      var key := source.Peek();
      SourceNext(K, source.items, source.ordinal, streams[0], stages[0].received, encoder, sourceLeft);
      Sorted(0);
      var coded := EncodeSample(encoder, key, source.ordinal, stages[0].received, K);
      assert coded.Some?;
      var sample := coded.value;
      var first := ReceiveRow(K, stages[0], sample, streams[0], items[0], emitted[0], consumed[0], left[0]);
      RowUpdate(K, streams, items, stages, emitted, consumed, left, 0, first, emitted[0], consumed[0], left[0]);
      PairUpdateOne(natives, stages, 0, first);
      source.Advance();
      encoder := key;
      assert emitted[0 := emitted[0]] == emitted && consumed[0 := consumed[0]] == consumed && left[0 := left[0]] == left;
      stages := stages[0 := first];
      sourceLeft := sourceLeft - 1;
    }

    /** Everything has arrived: the source or the preceding stage is done. */
    lemma Exhausted(i: nat)
      requires Valid() && i < |stages|
      requires if i == 0 then source.Done() else StageDone(stages[i - 1], natives[i - 1])
      ensures |streams[i]| == 3 && stages[i].received == |streams[i][1]|
    {
      hide StageOk, Rows, Pairs, TwoWay, EveryKth, SourceAt, ColaBuilder.SampleStart, GroupCount;
      At(i);
      if i == 0 {
        SourceEnd(K, source.items, source.ordinal, streams[0], stages[0].received, encoder, sourceLeft);
      } else {
        At(i - 1);
        FedBy(i);
        DoneRow(K, natives[i - 1], stages[i - 1], streams[i - 1], items[i - 1], emitted[i - 1], consumed[i - 1], left[i - 1]);
      }
    }

    lemma FedBy(i: nat)
      requires Valid() && 0 < i < |stages|
      ensures |streams[i]| == 3 && |streams[i][1]| == GroupCount(|items[i - 1]|, K)
      ensures stages[i].received == emitted[i - 1]
    {
      hide StageAt;
      At(i);
      At(i - 1);
    }

    /** One end of input. */
    method CloseStage(i: nat)
      requires Valid() && i < |stages| && NeedsInput(stages[i])
      requires if i == 0 then source.Done() else StageDone(stages[i - 1], natives[i - 1])
      modifies this
      ensures Valid() && Total() == old(Total()) - 1
    {
      hide StageOk, Sum, WiredAt, EveryKth, Rows, Pairs, SourceAt, TwoWay, ColaBuilder.SampleStart, GroupCount;
      At(i);
      Exhausted(i);
      var next := CloseRow(K, stages[i], streams[i], items[i], emitted[i], consumed[i], left[i]);
      RowUpdate(K, streams, items, stages, emitted, consumed, left, i, next, emitted[i], consumed[i], left[i] - 1);
      PairUpdateOne(natives, stages, i, next);
      SumChange(left, left[i := left[i] - 1], i);
      assert emitted[i := emitted[i]] == emitted && consumed[i := consumed[i]] == consumed;
      stages := stages[i := next];
      left := left[i := left[i] - 1];
    }

    /** One occurrence. */
    method StepStage(i: nat)
      requires Valid() && i < |stages| && !NeedsInput(stages[i]) && stages[i].outgoing.None?
      requires !StageDone(stages[i], natives[i])
      modifies this
      ensures Valid() && Total() == old(Total()) - 1
    {
      hide StageOk, Sum, WiredAt, EveryKth, Rows, Pairs, SourceAt, TwoWay, ColaBuilder.SampleStart, GroupCount;
      At(i);
      var next, count := StepRow(K, natives[i], stages[i], streams[i], items[i], emitted[i], consumed[i], left[i]);
      RowUpdate(K, streams, items, stages, emitted, consumed, left, i, next, emitted[i], consumed[i] + 1, left[i] - 1);
      PairUpdateOne(natives, stages, i, next);
      SumChange(left, left[i := left[i] - 1], i);
      assert emitted[i := emitted[i]] == emitted;
      stages, consumed := stages[i := next], consumed[i := consumed[i] + count];
      left := left[i := left[i] - 1];
    }

    // ----- progress

    /** If the last stage is done, so is every stage before it. */
    lemma DoneDown(i: nat)
      requires Valid() && AllDone() && i < |stages|
      ensures StageDone(stages[i], natives[i])
      decreases |stages| - i
    {
      hide StageAt, Rows, Pairs, WiredAt;
      if i + 1 < |stages| {
        DoneDown(i + 1);
        At(i);
        At(i + 1);
        DoneRow(K, natives[i + 1], stages[i + 1], streams[i + 1], items[i + 1], emitted[i + 1], consumed[i + 1], left[i + 1]);
      }
    }

    lemma LeftBounds(i: nat)
      requires Valid() && i < |stages|
      ensures left[i] >= 0 && (StageDone(stages[i], natives[i]) <==> left[i] == 0) && sourceLeft >= 0
      ensures StageDone(stages[i], natives[i]) ==> stages[i].closed && stages[i].outgoing.None? && !NeedsInput(stages[i])
      ensures i == 0 && stages[0].closed ==> sourceLeft == 0
    {
      hide Rows, Pairs, WiredAt;
      At(i);
      DoneRow(K, natives[i], stages[i], streams[i], items[i], emitted[i], consumed[i], left[i]);
    }

    /** The remaining count is never negative, and it is zero exactly when everything is done. */
    lemma TotalZero()
      requires Valid()
      ensures Total() >= 0 && (Total() == 0 <==> AllDone())
    {
      forall j | 0 <= j < |left| ensures left[j] >= 0 { LeftBounds(j); }
      SumNonnegative(left);
      LeftBounds(0);
      LeftBounds(|stages| - 1);
      if AllDone() {
        forall j | 0 <= j < |left| ensures left[j] == 0 { DoneDown(j); LeftBounds(j); }
        SumZero(left);
        DoneDown(0);
      }
    }

    /** A stage that cannot move waits for a sample its predecessor still owes. */
    predicate Starving(i: nat)
      requires 0 < i < |stages| == |natives|
      reads this
    {
      NeedsInput(stages[i]) && stages[i].outgoing.None? && !StageDone(stages[i - 1], natives[i - 1])
    }

    /** `advance_one`, consumers first: until the last stage is done there is always a quantum to take. */
    method AdvanceOne() returns (moved: bool)
      requires Valid()
      modifies this, source
      ensures Valid() && moved == !old(AllDone())
      ensures Total() == old(Total()) - (if moved then 1 else 0)
    {
      hide StageOk, Sum, WiredAt, EveryKth, Rows, Pairs, SourceAt, TwoWay, ColaBuilder.SampleStart, GroupCount;
      var end := |stages|;
      while end > 0
        invariant end <= |stages| && Valid() && Total() == old(Total()) && AllDone() == old(AllDone())
        invariant end < |stages| ==> AllDone() || (end > 0 && Starving(end))
        decreases end
      {
        var i := end - 1;
        LeftBounds(i);
        if AllDone() { DoneDown(i); }
        if stages[i].outgoing.Some? {
          if i + 1 == |stages| {
            EmitLast();
          } else {
            // The original passes over a stage whose reader is not waiting; here the reader has been seen starving.
            assert NeedsInput(stages[i + 1]);
            Transfer(i);
          }
          return true;
        }
        if !StageDone(stages[i], natives[i]) {
          if !NeedsInput(stages[i]) {
            StepStage(i);
            return true;
          }
          if i == 0 {
            var exhausted := source.Done();
            if exhausted { CloseStage(0); } else { Feed(); }
            return true;
          }
          if StageDone(stages[i - 1], natives[i - 1]) {
            CloseStage(i);
            return true;
          }
        }
        end := end - 1;
      }
      moved := false;
    }

    /** `step`: exactly as many quanta as asked for, or all that are left; the no-progress error is never raised. */
    method Step(quanta: nat) returns (work: nat)
      requires Valid()
      modifies this, source
      ensures Valid() && work == (if quanta <= old(Total()) then quanta else old(Total())) && Total() == old(Total()) - work
      ensures AllDone() <==> Total() == 0
    {
      hide StageOk, Sum, WiredAt, EveryKth, Rows, Pairs, SourceAt, TwoWay, ColaBuilder.SampleStart, GroupCount;
      work := 0;
      TotalZero();
      while work != quanta && !AllDone()
        invariant Valid() && Total() == old(Total()) - work && work <= quanta && Total() >= 0
        invariant AllDone() <==> Total() == 0
        decreases quanta - work
      {
        var moved := AdvanceOne();
        assert moved;
        work := work + 1;
        TotalZero();
      }
    }

    /** Finalize every stage: all recorded metadata is that of the whole-catalog merges. */
    method Finish() returns (routes: seq<ColaBuilder.Route>)
      requires Valid() && AllDone()
      ensures |routes| == |items|
      ensures forall i | 0 <= i < |routes| ::
                |streams[i]| == 3 && K > 0
                && RouteExact(streams[i], items[i], 0, K, routes[i].ranks, routes[i].flags, routes[i].cuts)
                && routes[i].keys == streams[i][1] && |routes[i].known| == |routes[i].keys|
                && ColaBuilder.KnownExact(streams[i][1], routes[i].known)
    {
      hide StageAt, EveryKth, Rows, Pairs, SourceAt, TwoWay, ColaBuilder.SampleStart, RouteExact, ColaBuilder.KnownExact;
      routes := [];
      for i := 0 to |stages|
        invariant Valid() && AllDone() && |routes| == i
        invariant forall j | 0 <= j < i ::
                    |streams[j]| == 3 && K > 0
                    && RouteExact(streams[j], items[j], 0, K, routes[j].ranks, routes[j].flags, routes[j].cuts)
                    && routes[j].keys == streams[j][1] && |routes[j].known| == |routes[j].keys|
                    && ColaBuilder.KnownExact(streams[j][1], routes[j].known)
      {
        DoneDown(i);
        At(i);
        var route := FinishRoute(stages[i], K, streams[i], items[i]);
        routes := routes + [route];
      }
    }
  }
}
