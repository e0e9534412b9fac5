/** The single-target index builder as one stage of a pipeline (index_builder). */
module IndexStages {
  // A stage merges its native keys with samples it receives one at a time. One incoming and one outgoing sample are
  // all it holds: it never reads a sample that has not arrived, never runs past a sample that nobody took, and still
  // records exactly the metadata of the whole merge.

  import opened Options
  import opened Keys
  import opened StableMerge
  import opened Frontier
  import opened ColaSpec
  import opened ColaBuilder

  // ----- the sample handoff

  type UnitWidth = n: nat | n > 0 witness 1

  /** Bits of one policy unit, whatever the policy. */
  const UNIT: UnitWidth

  /** A coded sample: policy units to drop from the preceding sample, the rest of the key, the ordinal it names. */
  datatype Coded = Coded(backspace: nat, suffix: seq<nat>, ordinal: nat)

  /** The whole units of a common prefix are kept. */
  function WholeUnits(common: nat): (kept: nat)
    ensures kept <= common
  {
    common / UNIT * UNIT
  }

  function Encode(previous: Key, key: Key, ordinal: nat): Coded {
    var common := Lcp(previous, key);
    UnitsMonotone(common, |previous|);
    Coded(|previous| / UNIT - common / UNIT, key[WholeUnits(common)..], ordinal)
  }

  lemma UnitsMonotone(a: nat, b: nat)
    requires a <= b
    ensures a / UNIT <= b / UNIT
  {
    var p, q := b / UNIT, a / UNIT;
    TimesIs(p, UNIT);
    TimesIs(q, UNIT);
    assert a == q * UNIT + a % UNIT && b == p * UNIT + b % UNIT;
    if p < q { TimesLess(p, q, UNIT); }
  }

  /** What a code says: the whole units both keys share are kept, everything after them is spelled, and the ordinal
      is the one named. */
  lemma EncodeIs(previous: Key, key: Key, ordinal: nat)
    ensures var code, kept := Encode(previous, key, ordinal), Lcp(previous, key) - Lcp(previous, key) % UNIT;
            && code.ordinal == ordinal && code.suffix == key[kept..]
            && code.backspace == |previous| / UNIT - Lcp(previous, key) / UNIT
  {
  }

  lemma UnitsBack(units: nat, b: nat)
    requires b <= units / UNIT
    ensures 0 <= (units / UNIT - b) * UNIT <= units
  {
    var q := units / UNIT;
    assert units == q * UNIT + units % UNIT;
    TimesIs(q, UNIT);
    TimesIs(q - b, UNIT);
    TimesMonotone(q - b, q, UNIT);
  }

  /** The key a code spells after its predecessor. */
  function Decoded(previous: Key, sample: Coded): Key
    requires sample.backspace <= |previous| / UNIT
  {
    UnitsBack(|previous|, sample.backspace);
    previous[..(|previous| / UNIT - sample.backspace) * UNIT] + sample.suffix
  }

  /** What a receiver demands of the next code: it names the next group, stays inside its predecessor, and does not
      fall below it. */
  predicate Acceptable(previous: Key, received: nat, K: nat, sample: Coded) {
    && sample.ordinal == received * K
    && sample.backspace <= |previous| / UNIT && Le(previous, Decoded(previous, sample))
  }

  datatype Accepted = Accepted(key: Key, comparison: Comparison)

  /** `accept_compared` with `check_input_slot`: the ordinal, the backspace and the order are checked, and the order
      is decided from the retained prefix on. */
  method Accept(previous: Key, sample: Coded, received: nat, K: nat) returns (result: Option<Accepted>)
    ensures result.Some? <==> Acceptable(previous, received, K, sample)
    ensures result.Some? <==> && sample.ordinal == received * K && sample.backspace <= |previous| / UNIT
                              && Le(previous, Decoded(previous, sample))
    ensures result.Some? ==>
              && sample.backspace <= |previous| / UNIT && result.value.key == Decoded(previous, sample)
              && result.value.comparison == Compare(previous, result.value.key)
  {
    if sample.ordinal != received * K || sample.backspace > |previous| / UNIT { return None; }
    UnitsBack(|previous|, sample.backspace);
    var retained := (|previous| / UNIT - sample.backspace) * UNIT;
    var decoded := previous[..retained] + sample.suffix;
    assert decoded[..retained] == previous[..retained] && decoded[retained..] == sample.suffix;
    SuffixOrder(previous, decoded, retained);
    var suffix := Compare(previous[retained..], sample.suffix);
    if suffix.order > 0 { return None; }
    result := Some(Accepted(decoded, Comparison(retained + suffix.common, suffix.order)));
  }

  /** A canonical code of a key in order is accepted and spells that key. */
  lemma CanonicalAccepted(previous: Key, key: Key, received: nat, K: nat)
    requires Le(previous, key)
    ensures Acceptable(previous, received, K, Encode(previous, key, received * K))
    ensures var code := Encode(previous, key, received * K);
            code.backspace <= |previous| / UNIT && Decoded(previous, code) == key
  {
    UnitsMonotone(Lcp(previous, key), |previous|);
    KeptPrefix(previous, key);
  }

  /** `encode`: the checked entry, which compares. */
  method EncodeSample(previous: Key, key: Key, ordinal: nat, count: nat, K: nat) returns (sample: Option<Coded>)
    ensures sample.Some? <==> ordinal == count * K && Le(previous, key)
    ensures sample.Some? ==> sample.value == Encode(previous, key, ordinal)
  {
    var comparison := Compare(previous, key);
    if ordinal != count * K || comparison.order > 0 { return None; }
    var code, _ := EncodeKnown(previous, key, ordinal, comparison.common);
    sample := Some(code);
  }

  /** What is kept of the preceding key, with the rest of this one, is this one. */
  lemma KeptPrefix(previous: Key, key: Key)
    ensures var kept := WholeUnits(Lcp(previous, key));
            previous[..kept] == key[..kept] && previous[..kept] + key[kept..] == key
  {
    LcpIs(previous, key);
    var kept := WholeUnits(Lcp(previous, key));
    assert previous[..kept] == key[..kept];
    assert key == key[..kept] + key[kept..];
  }

  /** `encode_known`: the caller already has the common prefix. */
  method EncodeKnown(previous: Key, key: Key, ordinal: nat, common: nat) returns (sample: Coded, context: Key)
    requires common == Lcp(previous, key)
    ensures sample == Encode(previous, key, ordinal) && context == key
    ensures sample.ordinal == ordinal && sample.suffix == key[common - common % UNIT..]
    ensures sample.backspace == |previous| / UNIT - common / UNIT
  {
    KeptPrefix(previous, key);
    UnitsMonotone(common, |previous|);
    var retained := WholeUnits(common);
    sample := Coded(|previous| / UNIT - common / UNIT, key[retained..], ordinal);
    context := previous[..retained] + sample.suffix;
  }

  /** The sample stream between two stages. */
  function CodeOf(samples: seq<Key>, K: nat, x: nat): Coded
    requires x < |samples|
  {
    Encode(if x == 0 then [] else samples[x - 1], samples[x], Times(x, K))
  }

  /** A code drops from its predecessor exactly the units past the common whole ones, and spells the rest. */
  predicate TightCode(sample: Coded, samples: seq<Key>, x: nat) {
    x < |samples| &&
    var previous, key := if x == 0 then [] else samples[x - 1], samples[x];
    var common := Lcp(previous, key);
    sample.suffix == key[common - common % UNIT..] && sample.backspace == |previous| / UNIT - common / UNIT
  }

  lemma CodeIs(samples: seq<Key>, K: nat, x: nat)
    requires x < |samples|
    ensures CodeOf(samples, K, x).ordinal == x * K && TightCode(CodeOf(samples, K, x), samples, x)
  {
    TimesIs(x, K);
    EncodeIs(if x == 0 then [] else samples[x - 1], samples[x], Times(x, K));
  }

  // ----- the state of a stage

  datatype Stage = Stage(
    pos: nat,
    incoming: bool, decoder: Key, received: nat, closed: bool,
    outgoing: Option<Coded>, encoder: Key,
    route: Route, count: nat,
    nativeCommon: nat, incomingCommon: nat, borrowedCommon: nat, outgoingCommon: nat,
    incomingFalse: bool, previousFalse: bool)

  const FreshStage := Stage(0, false, [], 0, false, None, [], EmptyRoute, 0, 0, 0, 0, 0, false, false)

  /** Native keys, all the samples that will ever arrive, and nothing on the third stream. */
  ghost predicate TwoWay(streams: Streams, items: seq<Item>) {
    |streams| == 3 && Trusted(streams, items) && streams[2] == []
  }

  function Groups(s: Stage): nat {
    |s.route.cuts|
  }

  /** The last sample taken from the merge so far. */
  function LastSample(items: seq<Item>, K: nat, g: nat): Key
    requires g > 0 ==> Times(g - 1, K) < |items|
  {
    if g == 0 then [] else items[Times(g - 1, K)].key
  }

  function LastReceived(streams: Streams, received: nat): Key
    requires |streams| == 3 && received <= |streams[1]|
  {
    if received == 0 then [] else streams[1][received - 1]
  }

  /** Position in the merge, and the group the last occurrence fell into. */
  ghost predicate PositionAt(streams: Streams, items: seq<Item>, K: nat, s: Stage)
    requires TwoWay(streams, items)
  {
    var t, g := s.count, Groups(s);
    && K > 0 && t <= |items| && s.pos == Count(items, 0, t) && |s.route.keys| == Count(items, 1, t)
    && (if t == 0 then g == 0 else g > 0 && Times(g - 1, K) < t <= Times(g, K))
    && RouteAt(streams, items, 0, K, t, if g == 0 then 0 else g - 1, g, Previous(items, t), s.route)
  }

  /** The input side: what arrived, what was consumed, and nothing consumed past an unknown sample. */
  ghost predicate InputAt(streams: Streams, items: seq<Item>, s: Stage)
    requires TwoWay(streams, items)
  {
    var b := |s.route.keys|;
    && s.count <= |items|
    && s.received == b + (if s.incoming then 1 else 0) <= |streams[1]|
    && s.decoder == LastReceived(streams, s.received)
    && (s.closed ==> s.received == |streams[1]|)
    && (!s.incoming && !s.closed ==> Previous(items, s.count) == s.decoder && (b == 0 ==> s.count == 0))
    && (s.incoming ==>
          && s.incomingCommon == Lcp(Previous(items, s.count), streams[1][b])
          && s.borrowedCommon == KnownAt(streams[1], b))
    && s.pos <= |streams[0]|
    && (s.pos < |streams[0]| ==> s.nativeCommon == Lcp(Previous(items, s.count), streams[0][s.pos]))
  }

  /** The flags: kept for the last borrow, and partly known for the waiting one. */
  ghost predicate FlagAt(streams: Streams, s: Stage)
    requires |streams| == 3
  {
    var b := |s.route.keys|;
    && s.pos <= |streams[0]| && b <= |streams[1]|
    && s.previousFalse == (b > 0 && streams[1][b - 1] in streams[0])
    && (s.incoming ==> b < |streams[1]| && s.incomingFalse == (streams[1][b] in streams[0][..s.pos]))
  }

  /** The output side: a sample waits exactly until it is taken, and the next one is cut against it. */
  ghost predicate OutputAt(items: seq<Item>, K: nat, s: Stage) {
    var g := Groups(s);
    && s.count <= |items| && (g > 0 ==> Times(g - 1, K) < s.count)
    && s.encoder == LastSample(items, K, g)
    && s.outgoingCommon == Lcp(s.encoder, Previous(items, s.count))
    && (s.outgoing.Some? ==>
          && g > 0 && s.count == Times(g - 1, K) + 1
          && (g > 1 ==> Times(g - 2, K) < |items|)
          && s.outgoing.value == Encode(LastSample(items, K, g - 1), s.encoder, Times(g - 1, K)))
  }

  ghost predicate StageAt(streams: Streams, items: seq<Item>, K: nat, s: Stage) {
    && TwoWay(streams, items) && PositionAt(streams, items, K, s) && InputAt(streams, items, s)
    && FlagAt(streams, s) && OutputAt(items, K, s)
  }

  lemma FreshAt(streams: Streams, items: seq<Item>, K: nat)
    requires TwoWay(streams, items) && K > 0
    ensures StageAt(streams, items, K, FreshStage)
  {
    InitialRoute(streams, items, 0, K);
    if |streams[0]| > 0 { EmptyIsLeast(streams[0][0]); }
  }

  predicate NeedsInput(s: Stage) {
    !s.closed && !s.incoming
  }

  predicate Done(s: Stage, native: nat) {
    s.closed && !s.incoming && s.pos == native && s.outgoing.None?
  }

  /** A stage is done exactly when its whole merge is recorded, its last sample is taken and its input is closed. */
  lemma DoneIsComplete(streams: Streams, items: seq<Item>, K: nat, s: Stage)
    requires StageAt(streams, items, K, s)
    ensures Done(s, |streams[0]|) <==> s.closed && s.outgoing.None? && s.count == |items|
    ensures !NeedsInput(s) && (s.incoming || s.pos != |streams[0]|) ==> s.count < |items|
    ensures !NeedsInput(s) && !s.incoming && s.pos == |streams[0]| ==> s.count == |items|
  {
    LiveIffBefore(streams, items, s.count);
    CountBound(streams, items, 2, s.count);
  }

  // ----- input

  /** A native entry equal to the last consumed key has been consumed. */
  lemma LastIsNative(streams: Streams, items: seq<Item>, t: nat, x: nat)
    requires TwoWay(streams, items) && 0 < t <= |items| && x < |streams[0]| && streams[0][x] == items[t - 1].key
    ensures x < Count(items, 0, t)
  {
    var c := Count(items, 0, t - 1);
    CountMonotone(items, 0, t - 1, t);
    if x >= c {
      AboveCut(streams, items, 0, x, t - 1, t - 1);
      assert TakesBest(streams, items, t - 1);
      if x > c { IncreasingDistinct(streams[0], c, x); }
    }
  }

  /** Everything already consumed that equals the last borrow was consumed before it. */
  lemma ConsumedNative(streams: Streams, items: seq<Item>, t: nat, key: Key)
    requires TwoWay(streams, items) && t <= |items| && Count(items, 0, t) <= |streams[0]|
    requires Le(Previous(items, t), key) && (t == 0 ==> Count(items, 0, t) == 0)
    ensures Lt(Previous(items, t), key) ==> key !in streams[0][..Count(items, 0, t)]
    ensures t > 0 && Previous(items, t) == key ==> (key in streams[0][..Count(items, 0, t)] <==> key in streams[0])
  {
    var p := Count(items, 0, t);
    if t > 0 {
      var last := items[t - 1].key;
      if key in streams[0][..p] {
        var x :| 0 <= x < p && streams[0][x] == key;
        BelowCut(streams, items, 0, x, t, t - 1);
        OrderTotal(last, key);
      }
      if last == key && key in streams[0] {
        var x :| 0 <= x < |streams[0]| && streams[0][x] == key;
        LastIsNative(streams, items, t, x);
        assert streams[0][..p][x] == key;
      }
    }
  }

  /** A new sample follows the last consumed occurrence, which is the sample before it. */
  lemma Arrival(streams: Streams, items: seq<Item>, K: nat, s: Stage)
    requires StageAt(streams, items, K, s) && NeedsInput(s) && s.received < |streams[1]|
    ensures var key := streams[1][s.received];
            && Previous(items, s.count) == s.decoder
            && KnownAt(streams[1], s.received) == Lcp(s.decoder, key)
            && ((Order(s.decoder, key) == 0 && s.previousFalse) <==> key in streams[0][..s.pos])
  {
    hide RouteAt;
    var t, key := s.count, streams[1][s.received];
    EmptyIsLeast(key);
    if t > 0 {
      CountMonotone(items, 1, t - 1, t);
      AboveCut(streams, items, 1, s.received, t - 1, t - 1);
    }
    OrderTotal(Previous(items, t), key);
    OrderZero(Previous(items, t), key);
    ConsumedNative(streams, items, t, key);
  }

  /** `push`: refused unless the slot is free and the code is acceptable. What is accepted is compared with the last
      borrow only, which is what the frontier follows; it is the sample that was to arrive. */
  method Receive(s: Stage, sample: Coded, K: nat, ghost streams: Streams, ghost items: seq<Item>)
    returns (ok: bool, next: Stage)
    requires StageAt(streams, items, K, s)
    requires NeedsInput(s) && Acceptable(s.decoder, s.received, K, sample) ==>
               s.received < |streams[1]| && Decoded(s.decoder, sample) == streams[1][s.received]
    ensures ok <==> NeedsInput(s) && Acceptable(s.decoder, s.received, K, sample)
    ensures !ok ==> next == s
    ensures ok ==> StageAt(streams, items, K, next) && !NeedsInput(next)
    ensures ok ==> next == s.(incoming := true, decoder := next.decoder, received := s.received + 1,
                              incomingCommon := next.incomingCommon, borrowedCommon := next.borrowedCommon,
                              incomingFalse := next.incomingFalse)
  {
    hide RouteAt, Acceptable, Decoded;
    if !NeedsInput(s) { return false, s; }
    var accepted := Accept(s.decoder, sample, s.received, K);
    if accepted.None? { return false, s; }
    var c := accepted.value.comparison;
    ok, next := true, s.(incoming := true, decoder := accepted.value.key, received := s.received + 1,
                         incomingCommon := c.common, borrowedCommon := c.common,
                         incomingFalse := c.order == 0 && s.previousFalse);
    Arrival(streams, items, K, s);
  }

  /** The refusal is never taken on the canonical stream. */
  lemma NextAccepted(streams: Streams, items: seq<Item>, K: nat, s: Stage)
    requires StageAt(streams, items, K, s) && s.received < |streams[1]|
    ensures var code := CodeOf(streams[1], K, s.received);
            Acceptable(s.decoder, s.received, K, code) && code.ordinal == s.received * K
            && Decoded(s.decoder, code) == streams[1][s.received]
  {
    hide RouteAt, Acceptable, Decoded, Encode;
    var key := streams[1][s.received];
    EmptyIsLeast(key);
    assert Nondecreasing(streams[1]);
    TimesIs(s.received, K);
    assert Le(s.decoder, key);
    EncodeIs(s.decoder, key, s.received * K);
    CanonicalAccepted(s.decoder, key, s.received, K);
  }

  /** `close_input`: only after the last sample. */
  method Close(s: Stage, ghost K: nat, ghost streams: Streams, ghost items: seq<Item>) returns (next: Stage)
    requires StageAt(streams, items, K, s) && !s.closed && s.received == |streams[1]|
    ensures StageAt(streams, items, K, next) && next == s.(closed := true)
  {
    next := s.(closed := true);
  }

  /** `take_coded_output`: sample g of this stage, coded against sample g - 1. */
  method Take(s: Stage, ghost K: nat, ghost streams: Streams, ghost items: seq<Item>) returns (sample: Coded, next: Stage)
    requires StageAt(streams, items, K, s) && s.outgoing.Some?
    ensures StageAt(streams, items, K, next) && next == s.(outgoing := None)
    ensures Groups(s) > 0 && Groups(s) <= GroupCount(|items|, K)
    ensures sample == CodeOf(EveryKth(ItemKeys(items), K), K, Groups(s) - 1)
  {
    sample, next := s.outgoing.value, s.(outgoing := None);
    ghost var g, keys := Groups(s), ItemKeys(items);
    GroupIndex(g - 1, |items|, K);
    assert EveryKth(keys, K)[g - 1] == SampleAt(keys, K, g - 1);
    if g > 1 { assert EveryKth(keys, K)[g - 2] == SampleAt(keys, K, g - 2); }
  }

  // ----- one occurrence

  /** With the third stream empty, comparing two heads finds the next occurrence; native keys go first. */
  lemma NextOfTwo(streams: Streams, items: seq<Item>, t: nat, origin: nat)
    requires TwoWay(streams, items) && t < |items| && origin < 2
    requires Count(items, origin, t) < |streams[origin]|
    requires Count(items, 1 - origin, t) < |streams[1 - origin]| ==>
               Before(origin, streams[origin][Count(items, origin, t)], 1 - origin, streams[1 - origin][Count(items, 1 - origin, t)])
    ensures items[t] == Item(origin, streams[origin][Count(items, origin, t)])
  {
    assert TakesBest(streams, items, t);
    CountBound(streams, items, 2, t);
    OrderZero(streams[origin][Count(items, origin, t)], streams[origin][Count(items, origin, t)]);
    BestUnique(streams, items, t, origin);
  }

  /** `compare_heads`: from carried prefixes, or from the last whole byte of symbols both are known to share. */
  method CompareHeads(native: seq<Key>, s: Stage, ghost K: nat, ghost streams: Streams, ghost items: seq<Item>)
    returns (c: Comparison)
    requires StageAt(streams, items, K, s) && native == streams[0] && s.count < |items| && !NeedsInput(s)
    ensures c.order > 0 ==> s.incoming && items[s.count] == Item(1, streams[1][|s.route.keys|])
    ensures c.order <= 0 ==> s.pos < |native| && items[s.count] == Item(0, native[s.pos])
    ensures s.incoming && s.pos < |native| ==> c == Compare(native[s.pos], streams[1][|s.route.keys|])
    ensures !s.incoming ==> c.order < 0
    ensures s.pos == |native| ==> c.order > 0
  {
    hide RouteAt;
    ghost var t, b := s.count, |s.route.keys|;
    LiveIffBefore(streams, items, t);
    CountBound(streams, items, 2, t);
    if !s.incoming {
      NextOfTwo(streams, items, t, 0);
      return Comparison(0, -1);
    }
    if s.pos == |native| {
      NextOfTwo(streams, items, t, 1);
      return Comparison(0, 1);
    }
    var x, y := native[s.pos], s.decoder;
    FrontierHeads(streams, items, K, s);
    FrontierCompareExact(Previous(items, t), x, y);
    LcpSymmetric(x, y);
    if s.nativeCommon != s.incomingCommon {
      c := Comparison(Min(s.nativeCommon, s.incomingCommon), if s.nativeCommon > s.incomingCommon then -1 else 1);
    } else {
      var start := s.nativeCommon - s.nativeCommon % 8;
      SharedPrefix(Previous(items, t), x, y, start);
      SuffixOrder(x, y, start);
      var suffix := Compare(x[start..], y[start..]);
      c := Comparison(start + suffix.common, suffix.order);
    }
    NextOfTwo(streams, items, t, if c.order > 0 then 1 else 0);
  }

  /** Both heads follow the last occurrence. */
  lemma FrontierHeads(streams: Streams, items: seq<Item>, K: nat, s: Stage)
    requires StageAt(streams, items, K, s)
    ensures s.pos < |streams[0]| ==> Le(Previous(items, s.count), streams[0][s.pos])
    ensures |s.route.keys| < |streams[1]| ==> Le(Previous(items, s.count), streams[1][|s.route.keys|])
  {
    var t := s.count;
    if t > 0 {
      CountMonotone(items, 0, t - 1, t);
      CountMonotone(items, 1, t - 1, t);
      if s.pos < |streams[0]| { AboveCut(streams, items, 0, s.pos, t - 1, t - 1); }
      if |s.route.keys| < |streams[1]| { AboveCut(streams, items, 1, |s.route.keys|, t - 1, t - 1); }
    }
  }

  /** The group boundary test of the original. */
  lemma Boundary(t: nat, g: nat, K: nat)
    requires K > 0 && (if t == 0 then g == 0 else g > 0 && Times(g - 1, K) < t <= Times(g, K))
    ensures t % K == 0 <==> t == Times(g, K)
  {
    TimesIs(g, K);
    if g > 0 { TimesIs(g - 1, K); }
    if t % K == 0 && t != Times(g, K) {
      var q := t / K;
      assert t == q * K;
      TimesIs(q, K);
      if q < g { TimesMonotone(q, g - 1, K); } else { TimesMonotone(g, q, K); }
      assert false;
    }
    if t == Times(g, K) { MultipleOf(g, K); }
  }

  lemma MultipleOf(g: nat, K: nat)
    requires K > 0
    ensures (g * K) % K == 0
  {
    var q, m := (g * K) / K, (g * K) % K;
    assert g * K == q * K + m;
    if q < g { TimesIs(q, K); TimesIs(g, K); TimesLess(q, g, K); }
    if g < q { TimesIs(q, K); TimesIs(g, K); TimesLess(g, q, K); }
  }

  /** What an occurrence does before it is emitted: lower the pending prefix; at a boundary, close a group and cut. */
  function CutRoute(route: Route, count: nat, boundary: bool, edge: nat): Route {
    var lowered := LowerCut(route, edge);
    var flushed := if boundary && count > 0 then FlushRank(lowered) else lowered;
    if boundary then PushCut(flushed) else flushed
  }

  /** And a borrow: its key, the prefix measured on its arrival, and its flag. */
  function EmitRoute(cut: Route, key: Key, common: nat, flag: bool): Route {
    cut.(keys := cut.keys + [key], known := cut.known + [common], flags := cut.flags + [flag],
         population := cut.population + 1, cutCommon := |key|)
  }

  lemma CutStep(streams: Streams, items: seq<Item>, K: nat, s: Stage)
    requires TwoWay(streams, items) && PositionAt(streams, items, K, s) && s.count < |items|
    ensures var t, boundary := s.count, s.count % K == 0;
            var cut := CutRoute(s.route, t, boundary, Lcp(Previous(items, t), items[t].key));
            var g := Groups(s) + (if boundary then 1 else 0);
            |cut.cuts| == g && cut.keys == s.route.keys && g > 0 && Times(g - 1, K) < t + 1 <= Times(g, K)
            && Times(g - 1, K) <= t && RouteAt(streams, items, 0, K, t, g - 1, g, items[t].key, cut)
  {
    var t, g, boundary := s.count, Groups(s), s.count % K == 0;
    Boundary(t, g, K);
    if boundary {
      var flushed := if t > 0 then FlushRank(s.route) else s.route;
      if t > 0 { FlushExact(streams, items, 0, K, t, g - 1, g, s.route); }
      LowerCutExact(streams, items, 0, K, t, g, g, flushed);
      PushCutExact(streams, items, 0, K, t, g, LowerCut(flushed, Lcp(Previous(items, t), items[t].key)));
    } else {
      LowerCutExact(streams, items, 0, K, t, g - 1, g, s.route);
    }
  }

  /** Emitting keeps the route exact: the prefix measured on arrival is the pending minimum. */
  lemma EmitStep(streams: Streams, items: seq<Item>, K: nat, t: nat, g: nat, cut: Route)
    requires TwoWay(streams, items) && t < |items| && g > 0 && Times(g - 1, K) <= t
    requires RouteAt(streams, items, 0, K, t, g - 1, g, items[t].key, cut)
    ensures items[t].origin != 1 ==> RouteAt(streams, items, 0, K, t + 1, g - 1, g, items[t].key, cut)
    ensures items[t].origin == 1 ==>
              && |cut.keys| < |streams[1]| && streams[1][|cut.keys|] == items[t].key
              && RouteAt(streams, items, 0, K, t + 1, g - 1, g, items[t].key,
                         EmitRoute(cut, items[t].key, KnownAt(streams[1], |cut.keys|), items[t].key in streams[0]))
  {
    if items[t].origin == 1 {
      assert TakesBest(streams, items, t);
      BorrowExact(streams, items, 0, K, t, g - 1, g, cut);
      BorrowKnown(streams, items, K, t, g - 1, g, cut);
      assert EmitRoute(cut, items[t].key, KnownAt(streams[1], |cut.keys|), items[t].key in streams[0])
          == AppendBorrow(cut, items[t].key, items[t].key in streams[0]);
    } else {
      PassOver(streams, items, 0, K, t, g - 1, g, cut);
    }
  }

  /** The prefix known to the borrowed writer is exactly the one measured on arrival. */
  lemma BorrowKnown(streams: Streams, items: seq<Item>, K: nat, t: nat, groups: nat, started: nat, route: Route)
    requires TwoWay(streams, items) && t < |items| && TakesBest(streams, items, t) && items[t].origin == 1
    requires RouteAt(streams, items, 0, K, t, groups, started, items[t].key, route)
    ensures |route.keys| < |streams[1]| && streams[1][|route.keys|] == items[t].key
    ensures KnownAt(streams[1], |route.keys|) == if route.keys == [] then 0 else route.cutCommon
  {
    if route.keys != [] { assert route.keys[|route.keys| - 1] == streams[1][|route.keys| - 1]; }
  }

  /** Once a borrow leaves, every equal native key has left before it. */
  lemma FlagComplete(streams: Streams, items: seq<Item>, t: nat)
    requires TwoWay(streams, items) && t < |items| && items[t].origin == 1 && Count(items, 0, t) <= |streams[0]|
    ensures items[t].key in streams[0][..Count(items, 0, t)] <==> items[t].key in streams[0]
  {
    var p, key := Count(items, 0, t), items[t].key;
    if key in streams[0] {
      var x :| 0 <= x < |streams[0]| && streams[0][x] == key;
      if x >= p { AboveCut(streams, items, 0, x, t, t); assert false; }
      assert streams[0][..p][x] == key;
    }
  }

  /** The prefix of a key with the last sample is the running minimum. */
  lemma OutgoingStep(streams: Streams, items: seq<Item>, K: nat, s: Stage)
    requires TwoWay(streams, items) && OutputAt(items, K, s) && s.count < |items|
    ensures Lcp(s.encoder, items[s.count].key)
         == Min(s.outgoingCommon, Lcp(Previous(items, s.count), items[s.count].key))
  {
    var t, g := s.count, Groups(s);
    EmptyIsLeast(items[t].key);
    if g > 0 {
      Sorted(streams, items, Times(g - 1, K), t - 1);
      Sorted(streams, items, t - 1, t);
      LcpOrderedMin(s.encoder, items[t - 1].key, items[t].key);
    } else {
      EmptyIsLeast(Previous(items, t));
    }
  }

  /** The outgoing side of one occurrence: a new sample exactly at a boundary. */
  method Sample(s: Stage, K: nat, key: Key, edge: nat, ghost streams: Streams, ghost items: seq<Item>) returns (next: Stage)
    requires StageAt(streams, items, K, s) && s.count < |items| && s.outgoing.None?
    requires key == items[s.count].key && edge == Lcp(Previous(items, s.count), key)
    ensures next == s.(outgoing := next.outgoing, encoder := next.encoder, outgoingCommon := next.outgoingCommon)
    ensures var moved := next.(count := s.count + 1, route := CutRoute(s.route, s.count, s.count % K == 0, edge));
            OutputAt(items, K, moved)
    ensures next.outgoing.Some? <==> s.count % K == 0
  {
    OutgoingStep(streams, items, K, s);
    hide StageAt, OutputAt, TwoWay, Lcp;
    if s.count % K == 0 {
      var sample, context := EncodeKnown(s.encoder, key, s.count, Min(s.outgoingCommon, edge));
      next := s.(outgoing := Some(sample), encoder := context, outgoingCommon := |key|);
      SampledHere(streams, items, K, s, next, key, edge);
    } else {
      next := s.(outgoingCommon := Min(s.outgoingCommon, edge));
      NotSampled(streams, items, K, s, next, edge);
    }
  }

  lemma SampledHere(streams: Streams, items: seq<Item>, K: nat, s: Stage, next: Stage, key: Key, edge: nat)
    requires StageAt(streams, items, K, s) && s.count < |items| && s.outgoing.None? && s.count % K == 0
    requires key == items[s.count].key
    requires next == s.(outgoing := Some(Encode(s.encoder, key, s.count)), encoder := key, outgoingCommon := |key|)
    ensures OutputAt(items, K, next.(count := s.count + 1, route := CutRoute(s.route, s.count, true, edge)))
  {
    hide RouteAt, InputAt, FlagAt, TwoWay;
    Boundary(s.count, Groups(s), K);
    OrderZero(key, key);
    TimesMonotone(if Groups(s) == 0 then 0 else Groups(s) - 1, Groups(s), K);
  }

  lemma NotSampled(streams: Streams, items: seq<Item>, K: nat, s: Stage, next: Stage, edge: nat)
    requires StageAt(streams, items, K, s) && s.count < |items| && s.outgoing.None? && s.count % K != 0
    requires next == s.(outgoingCommon := Lcp(s.encoder, items[s.count].key))
    ensures OutputAt(items, K, next.(count := s.count + 1, route := CutRoute(s.route, s.count, false, edge)))
  {
    hide RouteAt, InputAt, FlagAt, TwoWay, Lcp;
    Boundary(s.count, Groups(s), K);
  }

  /** The input side after a native occurrence. */
  lemma NativeLeaves(streams: Streams, items: seq<Item>, K: nat, s: Stage, c: Comparison, next: Stage)
    requires StageAt(streams, items, K, s) && s.count < |items| && s.pos < |streams[0]| && !NeedsInput(s)
    requires items[s.count] == Item(0, streams[0][s.pos])
    requires s.incoming ==> c == Compare(streams[0][s.pos], streams[1][|s.route.keys|])
    requires next.count == s.count + 1 && next.pos == s.pos + 1 && next.route.keys == s.route.keys
    requires next.incoming == s.incoming && next.closed == s.closed && next.received == s.received
    requires next.decoder == s.decoder && next.borrowedCommon == s.borrowedCommon && next.incomingCommon == c.common
    requires next.previousFalse == s.previousFalse
    requires next.incomingFalse == (s.incomingFalse || (s.incoming && c.order == 0))
    requires next.pos < |streams[0]| ==> next.nativeCommon == Lcp(streams[0][s.pos], streams[0][next.pos])
    ensures InputAt(streams, items, next) && FlagAt(streams, next)
  {
    hide RouteAt;
    assert streams[0][..s.pos + 1] == streams[0][..s.pos] + [streams[0][s.pos]];
    if s.incoming { OrderZero(streams[0][s.pos], streams[1][|s.route.keys|]); }
  }

  /** The input side after a borrow. */
  lemma BorrowLeaves(streams: Streams, items: seq<Item>, K: nat, s: Stage, c: Comparison, next: Stage)
    requires StageAt(streams, items, K, s) && s.count < |items| && s.incoming
    requires items[s.count] == Item(1, streams[1][|s.route.keys|])
    requires s.pos < |streams[0]| ==> c == Compare(streams[0][s.pos], streams[1][|s.route.keys|])
    requires next.count == s.count + 1 && next.pos == s.pos && |next.route.keys| == |s.route.keys| + 1
    requires !next.incoming && next.closed == s.closed && next.received == s.received && next.decoder == s.decoder
    requires next.previousFalse == s.incomingFalse && next.nativeCommon == c.common
    ensures InputAt(streams, items, next) && FlagAt(streams, next)
    ensures s.incomingFalse == (items[s.count].key in streams[0])
  {
    hide RouteAt;
    FlagComplete(streams, items, s.count);
    if s.pos < |streams[0]| { LcpSymmetric(streams[0][s.pos], streams[1][|s.route.keys|]); }
  }

  /** What the two ways of taking an occurrence share. */
  ghost predicate Prepared(streams: Streams, items: seq<Item>, K: nat, s: Stage, sampled: Stage, cut: Route)
    requires s.count < |items|
  {
    && sampled == s.(outgoing := sampled.outgoing, encoder := sampled.encoder, outgoingCommon := sampled.outgoingCommon)
    && OutputAt(items, K, sampled.(count := s.count + 1, route := cut))
    && cut.keys == s.route.keys && |cut.cuts| > 0
    && Times(|cut.cuts| - 1, K) < s.count + 1 <= Times(|cut.cuts|, K) && Times(|cut.cuts| - 1, K) <= s.count
    && |streams| == 3
    && RouteAt(streams, items, 0, K, s.count, |cut.cuts| - 1, |cut.cuts|, items[s.count].key, cut)
  }

  method TakeBorrow(K: nat, s: Stage, c: Comparison, sampled: Stage, cut: Route, ghost streams: Streams, ghost items: seq<Item>)
    returns (next: Stage)
    requires StageAt(streams, items, K, s) && s.count < |items| && s.incoming && c.order > 0
    requires items[s.count] == Item(1, streams[1][|s.route.keys|])
    requires s.pos < |streams[0]| ==> c == Compare(streams[0][s.pos], streams[1][|s.route.keys|])
    requires Prepared(streams, items, K, s, sampled, cut)
    ensures StageAt(streams, items, K, next)
    ensures next.count == s.count + 1 && next.closed == s.closed && next.received == s.received
    ensures next.outgoing == sampled.outgoing && next.route.cuts == cut.cuts
  {
    hide RouteAt, OutputAt;
    var key, flagged := s.decoder, s.incomingFalse;
    EmitStep(streams, items, K, s.count, |cut.cuts|, cut);
    next := sampled.(incoming := false, previousFalse := flagged, incomingFalse := false, nativeCommon := c.common,
                     route := EmitRoute(cut, key, s.borrowedCommon, flagged), count := s.count + 1);
    BorrowLeaves(streams, items, K, s, c, next);
    Assembled(streams, items, K, s, cut, sampled, next, true);
  }

  method TakeNative(native: seq<Key>, K: nat, s: Stage, c: Comparison, sampled: Stage, cut: Route,
                    ghost streams: Streams, ghost items: seq<Item>) returns (next: Stage)
    requires StageAt(streams, items, K, s) && native == streams[0] && s.count < |items| && s.pos < |native|
    requires !NeedsInput(s) && items[s.count] == Item(0, native[s.pos])
    requires s.incoming ==> c == Compare(native[s.pos], streams[1][|s.route.keys|])
    requires Prepared(streams, items, K, s, sampled, cut)
    ensures StageAt(streams, items, K, next)
    ensures next.count == s.count + 1 && next.closed == s.closed && next.received == s.received
    ensures next.outgoing == sampled.outgoing && next.route.cuts == cut.cuts
  {
    hide RouteAt, OutputAt;
    EmitStep(streams, items, K, s.count, |cut.cuts|, cut);
    next := sampled.(incomingCommon := c.common, incomingFalse := s.incomingFalse || (s.incoming && c.order == 0),
                     pos := s.pos + 1,
                     nativeCommon := if s.pos + 1 < |native| then Lcp(native[s.pos], native[s.pos + 1]) else 0,
                     route := cut, count := s.count + 1);
    NativeLeaves(streams, items, K, s, c, next);
    Assembled(streams, items, K, s, cut, sampled, next, false);
  }

  /** One merged occurrence of `step`. */
  method StepOne(native: seq<Key>, K: nat, s: Stage, ghost streams: Streams, ghost items: seq<Item>) returns (next: Stage)
    requires StageAt(streams, items, K, s) && native == streams[0]
    requires s.count < |items| && !NeedsInput(s) && s.outgoing.None?
    ensures StageAt(streams, items, K, next) && next.count == s.count + 1
    ensures next.closed == s.closed && next.received == s.received
    ensures Groups(next) - (if next.outgoing.Some? then 1 else 0) == Groups(s)
  {
    hide StageAt, TwoWay, Prepared, CutRoute, Lcp;
    var c := CompareHeads(native, s, K, streams, items);
    StepFacts(streams, items, K, s, c.order > 0);
    var key := if c.order > 0 then s.decoder else native[s.pos];
    var edge := if c.order > 0 then s.incomingCommon else s.nativeCommon;
    var sampled := Sample(s, K, key, edge, streams, items);
    var cut := CutRoute(s.route, s.count, s.count % K == 0, edge);
    CutPrepared(streams, items, K, s, sampled, edge);
    if c.order > 0 {
      next := TakeBorrow(K, s, c, sampled, cut, streams, items);
    } else {
      next := TakeNative(native, K, s, c, sampled, cut, streams, items);
    }
  }

  /** The chosen head carries the exact edge from the last consumed key. */
  lemma StepFacts(streams: Streams, items: seq<Item>, K: nat, s: Stage, borrow: bool)
    requires StageAt(streams, items, K, s) && s.count < |items|
    requires if borrow then s.incoming && items[s.count] == Item(1, streams[1][|s.route.keys|])
             else s.pos < |streams[0]| && items[s.count] == Item(0, streams[0][s.pos])
    ensures K > 0
    ensures borrow ==> s.decoder == items[s.count].key && s.incomingCommon == Lcp(Previous(items, s.count), s.decoder)
    ensures !borrow ==> s.nativeCommon == Lcp(Previous(items, s.count), items[s.count].key)
  {
    hide RouteAt, FlagAt, Lcp;
  }

  lemma CutPrepared(streams: Streams, items: seq<Item>, K: nat, s: Stage, sampled: Stage, edge: nat)
    requires StageAt(streams, items, K, s) && s.count < |items| && K > 0
    requires edge == Lcp(Previous(items, s.count), items[s.count].key)
    requires sampled == s.(outgoing := sampled.outgoing, encoder := sampled.encoder, outgoingCommon := sampled.outgoingCommon)
    requires var cut := CutRoute(s.route, s.count, s.count % K == 0, edge);
             OutputAt(items, K, sampled.(count := s.count + 1, route := cut))
    ensures Prepared(streams, items, K, s, sampled, CutRoute(s.route, s.count, s.count % K == 0, edge))
    ensures |CutRoute(s.route, s.count, s.count % K == 0, edge).cuts| == Groups(s) + (if s.count % K == 0 then 1 else 0)
  {
    CutStep(streams, items, K, s);
    hide RouteAt, FlagAt, InputAt;
  }

  /** The four views of the new state agree. */
  lemma Assembled(streams: Streams, items: seq<Item>, K: nat, s: Stage, cut: Route, sampled: Stage, next: Stage, borrow: bool)
    requires StageAt(streams, items, K, s) && s.count < |items| && next.count == s.count + 1
    requires items[s.count].origin == (if borrow then 1 else 0) && next.pos == s.pos + (if borrow then 0 else 1)
    requires |next.route.keys| == |s.route.keys| + (if borrow then 1 else 0) && next.route.cuts == cut.cuts
    requires var g := |cut.cuts|;
             g > 0 && Times(g - 1, K) < next.count <= Times(g, K)
             && RouteAt(streams, items, 0, K, next.count, g - 1, g, items[s.count].key, next.route)
    requires InputAt(streams, items, next) && FlagAt(streams, next)
    requires OutputAt(items, K, sampled.(count := next.count, route := cut))
    requires next.outgoing == sampled.outgoing && next.encoder == sampled.encoder && next.outgoingCommon == sampled.outgoingCommon
    ensures StageAt(streams, items, K, next)
  {
    hide RouteAt;
  }

  // ----- the builder object

  /** Samples handed out so far. */
  function Emitted(s: Stage): int {
    Groups(s) - (if s.outgoing.Some? then 1 else 0)
  }

  /** A stage never hands out more than its merge has. */
  lemma EmittedBound(streams: Streams, items: seq<Item>, K: nat, s: Stage)
    requires StageAt(streams, items, K, s)
    ensures K > 0
    ensures 0 <= Emitted(s) <= Groups(s) <= GroupCount(|items|, K)
    ensures s.count == |items| ==> Groups(s) == GroupCount(|items|, K)
    ensures s.received <= |streams[1]| && s.count <= |items|
  {
    var g := Groups(s);
    if g > 0 { GroupIndex(g - 1, |items|, K); }
    if s.count == |items| { GroupCountIs(|items|, K, g); }
  }

  /** What the outside of a builder can see moving. */
  datatype Flow = Flow(received: nat, closed: bool, count: nat, emitted: int, waiting: bool)

  function FlowOf(s: Stage): Flow {
    Flow(s.received, s.closed, s.count, Emitted(s), s.outgoing.Some?)
  }

  /** `step`: at most `budget` occurrences, stopping at an unknown input, an untaken sample, or the end. */
  method StepWithin(native: seq<Key>, K: nat, s: Stage, budget: nat, ghost streams: Streams, ghost items: seq<Item>)
    returns (next: Stage, consumed: nat)
    requires StageAt(streams, items, K, s) && native == streams[0]
    ensures StageAt(streams, items, K, next) && consumed <= budget
    ensures FlowOf(next) == FlowOf(s).(count := s.count + consumed, waiting := next.outgoing.Some?)
    ensures consumed == budget || next.outgoing.Some? || NeedsInput(next) || next.count == |items|
    ensures s.outgoing.None? && !NeedsInput(s) && budget > 0 && s.count < |items| ==> consumed > 0
  {
    hide StageAt;
    next, consumed := s, 0;
    while consumed < budget && next.outgoing.None?
      invariant StageAt(streams, items, K, next) && consumed <= budget
      invariant FlowOf(next) == FlowOf(s).(count := s.count + consumed, waiting := next.outgoing.Some?)
      invariant consumed == 0 ==> next == s
      decreases budget - consumed
    {
      DoneIsComplete(streams, items, K, next);
      if NeedsInput(next) || (!next.incoming && next.pos == |native|) { return; }
      next := StepOne(native, K, next, streams, items);
      consumed := consumed + 1;
    }
  }

  class IndexBuilder {
    const K: nat
    const native: seq<Key>
    /** The native keys, every sample that will arrive, and their merge. */
    ghost const streams: Streams
    ghost const items: seq<Item>
    var stage: Stage
    var finished: bool

    ghost predicate Valid()
      reads this
    {
      StageAt(streams, items, K, stage) && native == streams[0]
    }

    constructor (stride: nat, keys: seq<Key>, ghost samples: seq<Key>)
      requires stride > 0 && Increasing(keys) && Nondecreasing(samples)
      ensures Valid() && K == stride && native == keys && streams == [keys, samples, []] && items == Merge(streams)
      ensures stage == FreshStage && !finished
    {
      K, native, streams, items := stride, keys, [keys, samples, []], Merge([keys, samples, []]);
      stage, finished := FreshStage, false;
      new;
      IncreasingNondecreasing(keys);
      assert Nondecreasing(streams[0]) && Nondecreasing(streams[1]) && Nondecreasing(streams[2]);
      FreshAt(streams, items, K);
    }

    /** Any code may be pushed; what passes the checks is the sample foreseen. */
    method Push(sample: Coded) returns (ok: bool)
      requires Valid()
      requires NeedsInput(stage) && Acceptable(stage.decoder, stage.received, K, sample) ==>
                 stage.received < |streams[1]| && Decoded(stage.decoder, sample) == streams[1][stage.received]
      modifies this`stage
      ensures Valid() && (ok ==> !NeedsInput(stage) && FlowOf(stage) == old(FlowOf(stage)).(received := old(stage.received) + 1))
      ensures ok <==> && old(NeedsInput(stage)) && sample.ordinal == old(stage).received * K
                      && sample.backspace <= |old(stage).decoder| / UNIT
                      && Le(old(stage).decoder, Decoded(old(stage).decoder, sample))
      ensures !ok ==> stage == old(stage)
      ensures ok ==> stage.decoder == streams[1][old(stage.received)]
    {
      ok, stage := Receive(stage, sample, K, streams, items);
    }

    /** The next canonical code is never refused. */
    lemma PushSucceeds()
      requires Valid() && NeedsInput(stage) && stage.received < |streams[1]|
      ensures var code := CodeOf(streams[1], K, stage.received);
              Acceptable(stage.decoder, stage.received, K, code) && Decoded(stage.decoder, code) == streams[1][stage.received]
    {
      NextAccepted(streams, items, K, stage);
    }

    method CloseInput()
      requires Valid() && !stage.closed && stage.received == |streams[1]|
      modifies this`stage
      ensures Valid() && FlowOf(stage) == old(FlowOf(stage)).(closed := true)
    {
      stage := Close(stage, K, streams, items);
    }

    method Step(budget: nat) returns (consumed: nat)
      requires Valid()
      modifies this`stage
      ensures Valid() && consumed <= budget && FlowOf(stage) == old(FlowOf(stage)).(count := old(stage.count) + consumed, waiting := stage.outgoing.Some?)
      ensures consumed == budget || stage.outgoing.Some? || NeedsInput(stage) || stage.count == |items|
    {
      stage, consumed := StepWithin(native, K, stage, budget, streams, items);
    }

    /** The next sample of every K-th, coded against the one before it. */
    method TakeOutput() returns (sample: Coded)
      requires Valid() && stage.outgoing.Some?
      modifies this`stage
      ensures Valid() && stage.outgoing.None?
      ensures FlowOf(stage) == old(FlowOf(stage)).(emitted := old(Emitted(stage)) + 1, waiting := false)
      ensures 0 <= old(Emitted(stage)) < GroupCount(|items|, K)
      ensures sample == CodeOf(EveryKth(ItemKeys(items), K), K, old(Emitted(stage)))
      ensures sample.ordinal == old(Emitted(stage)) * K
      ensures TightCode(sample, EveryKth(ItemKeys(items), K), old(Emitted(stage)))
    {
      hide StageAt, TightCode;
      EmittedBound(streams, items, K, stage);
      ghost var samples, e := EveryKth(ItemKeys(items), K), Emitted(stage);
      hide EveryKth, ItemKeys, CodeOf;
      sample, stage := Take(stage, K, streams, items);
      CodeIs(samples, K, e);
    }

    /** `finish_index`: the sample count must fit the target; then everything recorded is the direct definition
        over the merge of the native keys with the whole sample stream. */
    method FinishIndex(targetCount: nat) returns (ok: bool, route: Route)
      requires Valid() && Done(stage, |native|) && !finished
      modifies this`finished
      ensures ok <==> |streams[1]| == GroupCount(targetCount, K)
      ensures finished <==> ok
      ensures ok ==> route.keys == streams[1] && |route.known| == |route.keys| && KnownExact(streams[1], route.known)
                     && RouteExact(streams, items, 0, K, route.ranks, route.flags, route.cuts)
    {
      route := stage.route;
      if GroupCount(targetCount, K) != stage.received { return false, route; }
      route := FinishRoute(stage, K, streams, items);
      finished := true;
      ok := true;
    }
  }

  method FinishRoute(s: Stage, K: nat, ghost streams: Streams, ghost items: seq<Item>) returns (route: Route)
    requires StageAt(streams, items, K, s) && Done(s, |streams[0]|)
    ensures route.keys == streams[1] && |route.known| == |route.keys| && KnownExact(streams[1], route.known)
    ensures RouteExact(streams, items, 0, K, route.ranks, route.flags, route.cuts)
  {
    DoneIsComplete(streams, items, K, s);
    EmittedBound(streams, items, K, s);
    ghost var g := Groups(s);
    route := s.route;
    if s.count > 0 {
      FlushExact(streams, items, 0, K, s.count, g - 1, g, route);
      route := FlushRank(route);
    }
    FinalRoute(streams, items, 0, K, route, 1);
  }
}
