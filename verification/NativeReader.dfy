/** Reading front-coded runs back (profile_view of profile.h): block navigation, header replay and key rebuilding. Every
    corruption check is kept, and none fires on what the writer produced. */
module NativeReaders {
  import opened Options
  import opened Keys
  import opened ColaSpec
  import opened CountCodes
  import opened EliasFanos
  import ES = EliasSelect
  import opened NativeWriters

  // ----- one count

  /** No number's encoding begins another's. */
  lemma {:induction false} PrefixFree(data: seq<nat>, at: nat, n: nat, m: nat)
    requires HasAt(data, at, Encode(n)) && HasAt(data, at, Encode(m))
    ensures n == m
    decreases n
  {
    FirstByte(data, at, n);
    FirstByte(data, at, m);
    if n >= 128 {
      PrefixFree(data, at + 1, n / 128, m / 128);
      assert n == 128 * (n / 128) + n % 128 && m == 128 * (m / 128) + m % 128;
    }
  }

  lemma FirstByte(data: seq<nat>, at: nat, n: nat)
    requires HasAt(data, at, Encode(n))
    ensures data[at] == if n < 128 then n else n % 128 + 128
    ensures n >= 128 ==> HasAt(data, at + 1, Encode(n / 128))
  {
    var code := Encode(n);
    assert data[at] == data[at..at + |code|][0];
    if n >= 128 {
      assert data[at + 1..at + |code|] == data[at..at + |code|][1..] == Encode(n / 128);
    }
  }

  /** A count that was written here is the one that is read. */
  method ReadBack(data: seq<nat>, at: nat, ghost n: nat) returns (count: Option<Count>)
    requires IsBytes(data) && n < TWO64 && HasAt(data, at, Encode(n))
    ensures count == Some(Count(n, at + |Encode(n)|))
  {
    hide Encode;
    count := ReadCount(data, at);
    assert CountAt(data, at, Count(n, at + |Encode(n)|));
    PrefixFree(data, at, n, count.value.value);
  }

  lemma SplitAt(data: seq<nat>, at: nat, first: seq<nat>, rest: seq<nat>)
    requires HasAt(data, at, first + rest)
    ensures HasAt(data, at, first) && HasAt(data, at + |first|, rest)
  {
    var both := first + rest;
    assert data[at..at + |first|] == data[at..at + |both|][..|first|] == both[..|first|];
    assert data[at + |first|..at + |both|] == data[at..at + |both|][|first|..] == both[|first|..];
  }

  // ----- frames

  datatype Parsed = Parsed(retained: nat, keyUnits: nat, suffix: seq<nat>, value: seq<nat>, next: nat)

  /** FrontCoded i as the reader reports it. */
  function ParsedAt(run: ProfileArray, records: seq<FrontCoded>, i: nat): Parsed
    requires run.W > 0 && i < |records|
  {
    Parsed(records[i].retained, Units(records[..i + 1]), records[i].literal, records[i].value,
           StartOf(records, i + 1, run.W, run.common))
  }

  function LeadAt(run: ProfileArray, records: seq<FrontCoded>, i: nat): nat
    requires run.W > 0 && i < |records|
  {
    Lead(records[i], Units(records[..i]), StartsBlock(i, run.W))
  }

  /** Behind the leading control of frame i. */
  function BodyAt(run: ProfileArray, records: seq<FrontCoded>, i: nat): nat
    requires run.W > 0 && i < |records|
  {
    StartOf(records, i, run.W, run.common) + |Encode(LeadAt(run, records, i))|
  }

  /** What the leading control of frame i says, and where the rest of the frame starts. */
  function LeadOf(run: ProfileArray, records: seq<FrontCoded>, i: nat): Count
    requires run.W > 0 && i < |records|
  {
    Count(records[i].retained, BodyAt(run, records, i))
  }

  function Body(record: FrontCoded, common: Option<nat>): seq<nat> {
    Tail(record, common) + (record.literal + record.value)
  }

  lemma FrameSplits(run: ProfileArray, records: seq<FrontCoded>, i: nat)
    requires HoldsRecords(run, records) && i < |records|
    ensures HasAt(run.bytes, StartOf(records, i, run.W, run.common), Encode(LeadAt(run, records, i)))
    ensures HasAt(run.bytes, BodyAt(run, records, i), Body(records[i], run.common))
    ensures BodyAt(run, records, i) + |Body(records[i], run.common)| == StartOf(records, i + 1, run.W, run.common)
  {
    FrameHere(records, i, run.W, run.common);
    var lead, body := Encode(LeadAt(run, records, i)), Body(records[i], run.common);
    FrameAssociates(records[i], Units(records[..i]), StartsBlock(i, run.W), run.common);
    SplitAt(run.bytes, StartOf(records, i, run.W, run.common), lead, body);
  }

  lemma FrameAssociates(record: FrontCoded, previous: nat, block: bool, common: Option<nat>)
    ensures Frame(record, previous, block, common) == Encode(Lead(record, previous, block)) + Body(record, common)
  {
    var lead, tail := Encode(Lead(record, previous, block)), Tail(record, common);
    Reassociate(lead, tail, record.literal, record.value);
  }

  lemma Reassociate(a: seq<nat>, b: seq<nat>, c: seq<nat>, d: seq<nat>)
    ensures a + b + c + d == a + (b + (c + d))
  {
  }

  /** Everything in a frame is small enough to be read. */
  lemma Sizes(run: ProfileArray, records: seq<FrontCoded>, i: nat)
    requires HoldsRecords(run, records) && i < |records|
    ensures Fits(records[..i], records[i], run.common)
    ensures Units(records[..i]) <= StartOf(records, i, run.W, run.common) <= |run.bytes|
    ensures Units(records[..i + 1]) == records[i].retained + |records[i].literal|
    ensures StartOf(records, i + 1, run.W, run.common) <= |run.bytes| <= MAX_BYTES
    ensures LeadAt(run, records, i) <= Units(records[..i])
  {
    FramedPrefix(records, i, run.common);
    StreamSizes(records[..i], run.W, run.common);
    StreamPrefix(records, i, run.W, run.common);
    StreamPrefix(records, i + 1, run.W, run.common);
    assert Fits(records[..i], records[i], run.common);
  }

  /** What the lengths, the literal and the value at a position say. */
  function PayloadOf(start: nat, retained: nat, record: FrontCoded, common: Option<nat>): Parsed {
    Parsed(retained, retained + |record.literal|, record.literal, record.value, start + |Body(record, common)|)
  }

  /** `parse_payload`: the two lengths, then the literal and the value they delimit. */
  method ParsePayload(run: ProfileArray, start: nat, retained: nat, ghost record: FrontCoded) returns (result: Option<Parsed>)
    requires IsBytes(run.bytes) && run.extent == |run.bytes| <= MAX_BYTES
    requires WidthAgrees(record.value, run.common) && HasAt(run.bytes, start, Body(record, run.common))
    ensures result == Some(PayloadOf(start, retained, record, run.common))
  {
    hide Encode, IsBytes;
    ghost var lengths := Tail(record, run.common);
    SplitAt(run.bytes, start, lengths, record.literal + record.value);
    SplitAt(run.bytes, start + |lengths|, record.literal, record.value);
    TailLengths(run.bytes, start, record, run.common);
    hide Tail;
    var suffix := ReadBack(run.bytes, start, |record.literal|);
    if suffix.None? { return None; }
    var at, value := suffix.value.next, 0;
    if run.common.Some? {
      value := run.common.value;
    } else {
      var length := ReadBack(run.bytes, at, |record.value|);
      if length.None? { return None; }
      at, value := length.value.next, length.value.value;
    }
    if at > run.extent || suffix.value.value > run.extent - at || value > run.extent - at - suffix.value.value {
      return None;
    }
    var data := at + suffix.value.value;
    result := Some(Parsed(retained, retained + suffix.value.value, run.bytes[at..data], run.bytes[data..data + value],
                          data + value));
  }

  lemma TailLengths(data: seq<nat>, at: nat, record: FrontCoded, common: Option<nat>)
    requires HasAt(data, at, Tail(record, common))
    ensures HasAt(data, at, Encode(|record.literal|))
    ensures common.None? ==> HasAt(data, at + |Encode(|record.literal|)|, Encode(|record.value|))
    ensures |Tail(record, common)| == |Encode(|record.literal|)| + (if common.None? then |Encode(|record.value|)| else 0)
  {
    SplitAt(data, at, Encode(|record.literal|), if common.None? then Encode(|record.value|) else []);
  }

  // ----- navigation

  lemma Navigation(run: ProfileArray, records: seq<FrontCoded>) returns (source: seq<nat>)
    requires HoldsRecords(run, records)
    ensures run.W > 0 && AllResiduals(source, records, run.W, run.common) && Encodes(run.offsets, source)
    ensures |source| == GroupCount(|records|, run.W) + 1
  {
    source :| AllResiduals(source, records, run.W, run.common) && Encodes(run.offsets, source);
  }

  lemma ResidualAt(source: seq<nat>, records: seq<FrontCoded>, W: nat, common: Option<nat>, j: nat)
    requires W > 0 && AllResiduals(source, records, W, common) && j < |source|
    ensures var i := BlockStart(j, |records|, W); source[j] + Base(common, i) == StartOf(records, i, W, common)
  {
    assert source[j] == Residual(records, BlockStart(j, |records|, W), W, common);
  }

  /** Where the code looks for a block. */
  function BlockOrdinal(block: nat, count: nat, W: nat): nat
    requires W > 0
  {
    if block == GroupCount(count, W) then count else block * W
  }

  lemma OrdinalIs(block: nat, n: nat, W: nat)
    requires W > 0 && block <= GroupCount(n, W)
    ensures BlockStart(block, n, W) == BlockOrdinal(block, n, W)
  {
    TimesIs(block, W);
    GroupIndex(block, n, W);
  }

  /** `block_offset`: the selected residual plus the fixed-width stride is where the block starts; one past the last
      block is the end of the run. */
  method BlockOffset(run: ProfileArray, block: nat, ghost records: seq<FrontCoded>) returns (offset: Option<nat>)
    requires HoldsRecords(run, records)
    ensures offset == if block <= GroupCount(|records|, run.W)
                      then Some(StartOf(records, BlockStart(block, |records|, run.W), run.W, run.common)) else None
  {
    RunBytes(run, records);
    ghost var source := Navigation(run, records);
    hide HoldsRecords, Encodes, AllResiduals, StartOf, BlockStart, BlockOrdinal, GroupCount, Base;
    if block > GroupCount(run.count, run.W) { return None; }
    OrdinalIs(block, |records|, run.W);
    var ordinal := BlockOrdinal(block, run.count, run.W);
    var residual := ES.Select(run.offsets, block, source);
    ResidualAt(source, records, run.W, run.common, block);
    if residual.None? { return None; }
    offset := Some(residual.value + Base(run.common, ordinal));
  }

  lemma EndOfRun(run: ProfileArray, records: seq<FrontCoded>)
    requires HoldsRecords(run, records)
    ensures StartOf(records, |records|, run.W, run.common) == |run.bytes|
  {
    assert records[..|records|] == records;
  }

  function BlockIndex(i: nat, W: nat): nat
    requires W > 0
  {
    i / W
  }

  /** Block starts are multiples of the block size. */
  lemma BlockOf(n: nat, W: nat, i: nat)
    requires W > 0 && i < n
    ensures var group := BlockIndex(i, W);
            Times(group, W) <= i && BlockStart(group, n, W) == Times(group, W) && group <= GroupCount(n, W)
            && (StartsBlock(i, W) ==> Times(group, W) == i)
  {
    TimesIs(i / W, W);
    assert i == (i / W) * W + i % W;
    GroupIndex(i / W, n, W);
  }

  /** The leading control of frame i and what it says. */
  lemma LeadFacts(run: ProfileArray, records: seq<FrontCoded>, i: nat)
    requires HoldsRecords(run, records) && i < |records|
    ensures IsBytes(run.bytes) && LeadAt(run, records, i) < TWO64
    ensures HasAt(run.bytes, StartOf(records, i, run.W, run.common), Encode(LeadAt(run, records, i)))
    ensures BodyAt(run, records, i) == StartOf(records, i, run.W, run.common) + |Encode(LeadAt(run, records, i))|
    ensures StartsBlock(i, run.W) ==>
              LeadAt(run, records, i) == records[i].retained <= StartOf(records, i, run.W, run.common)
    ensures !StartsBlock(i, run.W) ==> LeadAt(run, records, i) == Units(records[..i]) - records[i].retained
    ensures records[i].retained <= Units(records[..i])
  {
    FrameSplits(run, records, i);
    Sizes(run, records, i);
    hide Encode, StartOf, Units, Body;
  }

  lemma BodyFacts(run: ProfileArray, records: seq<FrontCoded>, i: nat)
    requires HoldsRecords(run, records) && i < |records|
    ensures IsBytes(run.bytes) && run.extent == |run.bytes| <= MAX_BYTES
    ensures WidthAgrees(records[i].value, run.common) && HasAt(run.bytes, BodyAt(run, records, i), Body(records[i], run.common))
    ensures ParsedAt(run, records, i) == PayloadOf(BodyAt(run, records, i), records[i].retained, records[i], run.common)
  {
    FrameSplits(run, records, i);
    Sizes(run, records, i);
    hide Encode, StartOf, BodyAt, Body, Units;
  }

  /** `read_absolute`: every retained unit was written before this frame. */
  method ReadAbsolute(run: ProfileArray, at: nat, ghost records: seq<FrontCoded>, ghost i: nat) returns (result: Option<Count>)
    requires HoldsRecords(run, records) && i < |records| && StartsBlock(i, run.W) && at == StartOf(records, i, run.W, run.common)
    ensures result == Some(LeadOf(run, records, i))
  {
    LeadFacts(run, records, i);
    hide Encode, HoldsRecords, HasAt, StartOf, StartsBlock, LeadAt, BodyAt, Units, IsBytes;
    result := ReadBack(run.bytes, at, LeadAt(run, records, i));
    if result.Some? && result.value.value > at { return None; }
  }

  lemma RunBytes(run: ProfileArray, records: seq<FrontCoded>)
    requires HoldsRecords(run, records)
    ensures IsBytes(run.bytes) && run.extent == |run.bytes| <= MAX_BYTES && run.count == |records| && run.W > 0
    ensures run.terminal == Units(records)
  {
  }

  /** The relative control of a frame inside a block. */
  method ReadRelative(run: ProfileArray, at: nat, previous: nat, ghost records: seq<FrontCoded>, ghost i: nat)
    returns (result: Option<Count>)
    requires HoldsRecords(run, records) && i < |records| && !StartsBlock(i, run.W) && at == StartOf(records, i, run.W, run.common)
    requires previous == Units(records[..i])
    ensures result == Some(LeadOf(run, records, i))
  {
    LeadFacts(run, records, i);
    hide Encode, HoldsRecords, HasAt, StartOf, StartsBlock, LeadAt, BodyAt, Units, IsBytes;
    var backspace := ReadBack(run.bytes, at, LeadAt(run, records, i));
    if backspace.None? || backspace.value.value > previous { return None; }
    result := Some(Count(previous - backspace.value.value, backspace.value.next));
  }

  method ParseBody(run: ProfileArray, at: nat, retained: nat, ghost records: seq<FrontCoded>, ghost i: nat)
    returns (result: Option<Parsed>)
    requires HoldsRecords(run, records) && i < |records| && at == BodyAt(run, records, i) && retained == records[i].retained
    ensures result == Some(ParsedAt(run, records, i))
  {
    BodyFacts(run, records, i);
    hide *;
    result := ParsePayload(run, at, retained, records[i]);
  }

  /** The first record of a block, found through the offsets. */
  method BlockLead(run: ProfileArray, group: nat, ghost records: seq<FrontCoded>, ghost i: nat) returns (lead: Option<Count>)
    requires HoldsRecords(run, records) && i == Times(group, run.W) < |records|
    requires group <= GroupCount(|records|, run.W) && BlockStart(group, |records|, run.W) == i
    ensures lead == Some(LeadOf(run, records, i))
  {
    BlockAligned(group, run.W);
    if group == 0 { FirstLiteral(run, records); }
    hide HoldsRecords, StartOf, BodyAt, Units, IsBytes, GroupCount, BlockStart, Times, StartsBlock, BlockIndex;
    var start := BlockOffset(run, group, records);
    if start.None? { return None; }
    lead := ReadAbsolute(run, start.value, records, i);
    if lead.Some? && group == 0 && lead.value.value != 0 { return None; }
  }

  /** `locate`: from the block start, replay the controls up to one record; no key bytes are read. */
  method Locate(run: ProfileArray, ordinal: nat, ghost records: seq<FrontCoded>) returns (result: Option<Count>)
    requires HoldsRecords(run, records) && ordinal < |records|
    ensures result == Some(LeadOf(run, records, ordinal))
  {
    RunBytes(run, records);
    BlockOf(|records|, run.W, ordinal);
    hide HoldsRecords, StartOf, BodyAt, Units, IsBytes, GroupCount, BlockStart, Times, StartsBlock, BlockIndex;
    var group := BlockIndex(ordinal, run.W);
    var lead := BlockLead(run, group, records, Times(group, run.W));
    if lead.None? { return None; }
    result := Replay(run, group, ordinal, lead.value, records);
  }

  lemma BlockAligned(group: nat, W: nat)
    requires W > 0
    ensures StartsBlock(Times(group, W), W)
  {
    TimesIs(group, W);
    var t := group * W;
    assert t == (t / W) * W + t % W;
    NoMultiple(group - t / W, W, t % W);
  }

  lemma NoMultiple(d: int, W: nat, r: nat)
    requires d * W == r < W
    ensures r == 0
  {
    if d >= 1 { AtLeast(d, W); } else { AtMost(d, W); }
  }

  lemma AtLeast(d: int, W: nat)
    requires d >= 1
    ensures d * W >= W
  {
  }

  lemma AtMost(d: int, W: nat)
    requires d <= 0
    ensures d * W <= 0
  {
  }

  lemma FirstLiteral(run: ProfileArray, records: seq<FrontCoded>)
    requires HoldsRecords(run, records) && records != []
    ensures records[0].retained == 0
  {
    assert Fits(records[..0], records[0], run.common);
  }

  lemma InsideBlock(group: nat, W: nat, ordinal: nat, i: nat)
    requires W > 0 && group == BlockIndex(ordinal, W) && Times(group, W) < i <= ordinal
    ensures !StartsBlock(i, W)
  {
    TimesDiv(i, W);
    TimesDiv(ordinal, W);
    hide BlockIndex, StartsBlock;
    var c := BlockIndex(i, W);
    if c <= group { TimesMonotone(c, group, W); } else { TimesLess(group, c, W); }
  }

  lemma TimesDiv(i: nat, W: nat)
    requires W > 0
    ensures Times(BlockIndex(i, W), W) <= i < Times(BlockIndex(i, W), W) + W
    ensures StartsBlock(i, W) <==> Times(BlockIndex(i, W), W) == i
  {
    TimesIs(i / W, W);
    assert i == (i / W) * W + i % W;
  }

  /** Past one record's payload and the next one's control. */
  method SkipRecord(run: ProfileArray, at: nat, retained: nat, ghost records: seq<FrontCoded>, ghost i: nat)
    returns (result: Option<Count>)
    requires HoldsRecords(run, records) && i + 1 < |records| && !StartsBlock(i + 1, run.W)
    requires at == BodyAt(run, records, i) && retained == records[i].retained
    ensures result == Some(LeadOf(run, records, i + 1))
  {
    RunBytes(run, records);
    hide HoldsRecords, StartOf, BodyAt, Units, StartsBlock;
    var skipped := ParseBody(run, at, retained, records, i);
    if skipped.None? { return None; }
    result := ReadRelative(run, skipped.value.next, skipped.value.keyUnits, records, i + 1);
  }

  method Replay(run: ProfileArray, group: nat, ordinal: nat, lead: Count, ghost records: seq<FrontCoded>)
    returns (result: Option<Count>)
    requires HoldsRecords(run, records) && ordinal < |records| && group == BlockIndex(ordinal, run.W) && Times(group, run.W) <= ordinal
    requires lead == LeadOf(run, records, Times(group, run.W))
    ensures result == Some(LeadOf(run, records, ordinal))
  {
    RunBytes(run, records);
    hide HoldsRecords, StartOf, BodyAt, Units, StartsBlock, BlockIndex;
    var at, retained := lead.next, lead.value;
    var i := Times(group, run.W);
    while i < ordinal
      invariant Times(group, run.W) <= i <= ordinal
      invariant at == BodyAt(run, records, i) && retained == records[i].retained
    {
      InsideBlock(group, run.W, ordinal, i + 1);
      var next := SkipRecord(run, at, retained, records, i);
      if next.None? { return None; }
      retained, at, i := next.value.value, next.value.next, i + 1;
    }
    result := Some(Count(retained, at));
  }

  /** `encoded_at`: any record by ordinal. */
  method EncodedAt(run: ProfileArray, ordinal: nat, ghost records: seq<FrontCoded>) returns (result: Option<Parsed>)
    requires HoldsRecords(run, records)
    ensures result == if ordinal < |records| then Some(ParsedAt(run, records, ordinal)) else None
  {
    RunBytes(run, records);
    hide HoldsRecords, ParsedAt, BodyAt, StartsBlock, BlockIndex;
    if ordinal >= run.count { return None; }
    var place := Locate(run, ordinal, records);
    if place.None? { return None; }
    result := ParseBody(run, place.value.next, place.value.value, records, ordinal);
  }

  /** The leading control of the next frame; at a block boundary the offsets must agree with the stream. */
  method NextLead(run: ProfileArray, at: nat, previous: nat, ghost records: seq<FrontCoded>, ordinal: nat)
    returns (lead: Option<Count>)
    requires HoldsRecords(run, records) && 0 < ordinal < |records| && at == StartOf(records, ordinal, run.W, run.common)
    requires previous == Units(records[..ordinal])
    ensures lead == Some(LeadOf(run, records, ordinal))
  {
    RunBytes(run, records);
    RetainedFits(run, records, ordinal);
    BlockOf(|records|, run.W, ordinal);
    hide HoldsRecords, StartOf, BodyAt, Units, IsBytes, GroupCount, BlockStart, Times, StartsBlock, BlockIndex;
    if !StartsBlock(ordinal, run.W) {
      lead := ReadRelative(run, at, previous, records, ordinal);
      return;
    }
    var offset := BlockOffset(run, BlockIndex(ordinal, run.W), records);
    if offset != Some(at) { return None; }
    lead := ReadAbsolute(run, at, records, ordinal);
    if lead.Some? && lead.value.value > previous { return None; }
  }

  lemma RetainedFits(run: ProfileArray, records: seq<FrontCoded>, i: nat)
    requires HoldsRecords(run, records) && i < |records|
    ensures records[i].retained <= Units(records[..i])
  {
    assert Fits(records[..i], records[i], run.common);
  }

  /** `next_record`. */
  method NextRecord(run: ProfileArray, previous: Parsed, ordinal: nat, ghost records: seq<FrontCoded>)
    returns (result: Option<Parsed>)
    requires HoldsRecords(run, records) && 0 < ordinal < |records| && previous == ParsedAt(run, records, ordinal - 1)
    ensures result == Some(ParsedAt(run, records, ordinal))
  {
    RunBytes(run, records);
    hide HoldsRecords, StartOf, BodyAt, Units, IsBytes, StartsBlock, BlockIndex;
    var lead := NextLead(run, previous.next, previous.keyUnits, records, ordinal);
    if lead.None? { return None; }
    result := ParseBody(run, lead.value.next, lead.value.value, records, ordinal);
  }

  // ----- keys

  lemma KeyStep(records: seq<FrontCoded>, i: nat, common: Option<nat>)
    requires WellFramed(records, common) && i < |records|
    ensures records[i].retained <= |KeyOf(records[..i])| == Units(records[..i])
    ensures KeyOf(records[..i + 1]) == KeyOf(records[..i])[..records[i].retained] + records[i].literal
    ensures Units(records[..i + 1]) == records[i].retained + |records[i].literal| == |KeyOf(records[..i + 1])|
  {
    FramedPrefix(records, i, common);
    UnitsOfKey(records[..i], common);
    assert Fits(records[..i], records[i], common);
    assert records[..i + 1][..i] == records[..i];
  }

  lemma HoldsFramed(run: ProfileArray, records: seq<FrontCoded>)
    requires HoldsRecords(run, records)
    ensures WellFramed(records, run.common)
  {
  }

  /** The entries of a run in order. */
  ghost function EntriesOf(records: seq<FrontCoded>, n: nat): seq<KeyValue>
    requires n <= |records|
  {
    if n == 0 then [] else EntriesOf(records, n - 1) + [KeyValue(KeyOf(records[..n]), records[n - 1].value)]
  }

  lemma {:induction false} DecodesEntries(records: seq<FrontCoded>, entries: seq<KeyValue>, n: nat)
    requires Decodes(records, entries) && n <= |records|
    ensures EntriesOf(records, n) == entries[..n]
  {
    if n > 0 {
      DecodesEntries(records, entries, n - 1);
      var entry := entries[n - 1];
      assert KeyOf(records[..n - 1 + 1]) == entry.key;
    }
  }

  /** `visit_all`: every key and value in order, with all framing checks up to the extent and the terminal length. */
  method VisitAll(run: ProfileArray, ghost records: seq<FrontCoded>) returns (entries: Option<seq<KeyValue>>)
    requires HoldsRecords(run, records)
    ensures entries == Some(EntriesOf(records, |records|))
  {
    RunBytes(run, records);
    HoldsFramed(run, records);
    if run.count == 0 { return Some([]); }
    var first := EncodedAt(run, 0, records);
    if first.None? { return None; }
    var record, scratch, items := first.value, [], [];
    var i := 0;
    while i < run.count
      invariant i <= |records| && scratch == KeyOf(records[..i]) && items == EntriesOf(records, i)
      invariant record == ParsedAt(run, records, if i < |records| then i else i - 1)
    {
      hide HoldsRecords, WellFramed, ParsedAt, KeyOf, EntriesOf, StartsBlock, BlockIndex;
      ParsedFields(run, records, i);
      KeyStep(records, i, run.common);
      if record.retained > |scratch| { return None; }
      scratch := scratch[..record.retained] + record.suffix;
      EntriesNext(records, i);
      items := items + [KeyValue(scratch, record.value)];
      i := i + 1;
      if i < run.count {
        var next := NextRecord(run, record, i, records);
        if next.None? { return None; }
        record := next.value;
      }
    }
    EndOfRun(run, records);
    assert records[..|records| - 1 + 1] == records;
    if record.next != run.extent || record.keyUnits != run.terminal { return None; }
    entries := Some(items);
  }

  lemma ParsedFields(run: ProfileArray, records: seq<FrontCoded>, i: nat)
    requires run.W > 0 && i < |records|
    ensures var p := ParsedAt(run, records, i);
            p.retained == records[i].retained && p.suffix == records[i].literal && p.value == records[i].value
            && p.keyUnits == records[i].retained + |records[i].literal|
  {
  }

  lemma EntriesNext(records: seq<FrontCoded>, i: nat)
    requires i < |records|
    ensures EntriesOf(records, i + 1) == EntriesOf(records, i) + [KeyValue(KeyOf(records[..i + 1]), records[i].value)]
  {
  }

  /** The first `need` units of record i's key are the first of `prefix`, in place from `done` on. */
  ghost predicate Filled(prefix: seq<nat>, key: Key, need: nat) {
    need <= |prefix| <= |key| && forall k | need <= k < |prefix| :: prefix[k] == key[k]
  }

  /** `reconstruct_at`: a prefix of one key, filled backwards from the literals of its predecessors. */
  method ReconstructAt(run: ProfileArray, ordinal: nat, limit: nat, ghost records: seq<FrontCoded>)
    returns (result: Option<(seq<nat>, nat, seq<nat>)>)
    requires HoldsRecords(run, records)
    ensures ordinal >= |records| ==> result.None?
    ensures ordinal < |records| ==>
              var key := KeyOf(records[..ordinal + 1]);
              result == Some((key[..Min(|key|, limit)], |key|, records[ordinal].value))
  {
    HoldsFramed(run, records);
    hide HoldsRecords, WellFramed, KeyOf, ParsedAt, Units, Filled, StartsBlock, BlockIndex;
    var first := EncodedAt(run, ordinal, records);
    if first.None? { return None; }
    RunBytes(run, records);
    ParsedFields(run, records, ordinal);
    KeyStep(records, ordinal, run.common);
    ghost var key := KeyOf(records[..ordinal + 1]);
    var need: nat := Min(first.value.keyUnits, limit);
    var prefix := FillPrefix(run, first.value, ordinal, need, records, key);
    if prefix.None? { return None; }
    result := Some((prefix.value, first.value.keyUnits, first.value.value));
  }

  /** Take from one literal what is still missing. */
  method FillStep(run: ProfileArray, record: Parsed, at: nat, need: nat, prefix: seq<nat>, ghost records: seq<FrontCoded>,
                  ghost key: Key) returns (result: Option<seq<nat>>)
    requires HoldsRecords(run, records) && at < |records| && record == ParsedAt(run, records, at)
    requires Filled(prefix, key, need) && Agrees(key, KeyOf(records[..at + 1]), need)
    ensures result.Some? && |result.value| == |prefix|
    ensures Filled(result.value, key, Min(need, record.retained))
    ensures Agrees(key, KeyOf(records[..at]), Min(need, record.retained))
  {
    HoldsFramed(run, records);
    ParsedFields(run, records, at);
    KeyStep(records, at, run.common);
    AgreesWithin(key, KeyOf(records[..at + 1]), need);
    FilledWithin(prefix, key, need);
    hide HoldsRecords, WellFramed, KeyOf, ParsedAt, Units, Filled, Agrees;
    if record.keyUnits < need { return None; }
    if record.retained < need {
      FillLiteral(prefix, key, records, at, need);
      result := Some(prefix[..record.retained] + record.suffix[..need - record.retained] + prefix[need..]);
    } else {
      RetainedSame(key, records, at, need);
      result := Some(prefix);
    }
  }

  /** Walk back until nothing is needed any more. */
  method FillPrefix(run: ProfileArray, first: Parsed, ordinal: nat, length: nat, ghost records: seq<FrontCoded>, ghost key: Key)
    returns (result: Option<seq<nat>>)
    requires HoldsRecords(run, records) && ordinal < |records| && first == ParsedAt(run, records, ordinal)
    requires key == KeyOf(records[..ordinal + 1]) && length <= |key|
    ensures result == Some(key[..length])
  {
    var record, at: nat, need: nat := first, ordinal, length;
    var prefix: seq<nat> := seq(need, _ => 0);
    FilledNone(prefix, key);
    hide HoldsRecords, KeyOf, ParsedAt, Filled, Filling, Agrees;
    StartFilling(run, records, key, length, first, ordinal, prefix);
    while need > 0
      invariant |prefix| == length && Filled(prefix, key, need)
      invariant need > 0 ==> Filling(run, records, key, record, at, need, prefix)
      decreases at, need
    {
      var step;
      step, record, need, at := BackStep(run, record, at, need, prefix, records, key);
      if step.None? { return None; }
      prefix := step.value;
    }
    FilledAll(prefix, key);
    result := Some(prefix);
  }

  /** The walk stands at record `at`, and its key agrees with the wanted one as far as is still needed. */
  ghost predicate Filling(run: ProfileArray, records: seq<FrontCoded>, key: Key, record: Parsed, at: nat, need: nat,
                          prefix: seq<nat>)
    requires run.W > 0
  {
    && at < |records| && record == ParsedAt(run, records, at)
    && Filled(prefix, key, need) && Agrees(key, KeyOf(records[..at + 1]), need)
  }

  lemma StartFilling(run: ProfileArray, records: seq<FrontCoded>, key: Key, length: nat, first: Parsed, ordinal: nat,
                     prefix: seq<nat>)
    requires run.W > 0 && ordinal < |records| && first == ParsedAt(run, records, ordinal)
    requires key == KeyOf(records[..ordinal + 1]) && length <= |key| && Filled(prefix, key, length)
    ensures Filling(run, records, key, first, ordinal, length, prefix)
  {
  }

  /** Fill from this record and, if more is needed, go to the one before it. */
  method BackStep(run: ProfileArray, record: Parsed, at: nat, need: nat, prefix: seq<nat>, ghost records: seq<FrontCoded>,
                  ghost key: Key)
    returns (filled: Option<seq<nat>>, next: Parsed, nextNeed: nat, nextAt: nat)
    requires HoldsRecords(run, records) && run.W > 0 && need > 0 && Filling(run, records, key, record, at, need, prefix)
    ensures filled.Some? && |filled.value| == |prefix| && Filled(filled.value, key, nextNeed)
    ensures nextNeed > 0 ==> nextAt < at && Filling(run, records, key, next, nextAt, nextNeed, filled.value)
    ensures nextNeed == 0 ==> nextAt == at
  {
    ParsedFields(run, records, at);
    hide HoldsRecords, KeyOf, ParsedAt, Filled, Agrees;
    next, nextAt, nextNeed := record, at, Min(need, record.retained);
    filled := FillStep(run, record, at, need, prefix, records, key);
    if filled.None? || nextNeed == 0 { return; }
    if at == 0 { FirstLiteral(run, records); }
    if at == 0 {
      filled := None;
      return;
    }
    nextAt := at - 1;
    var before := Predecessor(run, nextAt, record.retained, records);
    if before.None? {
      filled := None;
      return;
    }
    next := before.value;
  }

  /** The record before, whose key must reach the retained prefix. */
  method Predecessor(run: ProfileArray, at: nat, retained: nat, ghost records: seq<FrontCoded>) returns (result: Option<Parsed>)
    requires HoldsRecords(run, records) && at + 1 < |records| && retained == records[at + 1].retained
    ensures result == Some(ParsedAt(run, records, at))
  {
    RetainedFits(run, records, at + 1);
    hide HoldsRecords, StartsBlock, BlockIndex;
    result := EncodedAt(run, at, records);
    if result.Some? && result.value.keyUnits < retained { return None; }
  }

  /** Both keys start with the same `need` units. */
  ghost predicate Agrees(key: Key, other: Key, need: nat) {
    need <= |key| && need <= |other| && key[..need] == other[..need]
  }

  lemma AgreesWithin(key: Key, other: Key, need: nat)
    requires Agrees(key, other, need)
    ensures need <= |key| && need <= |other|
  {
  }

  lemma FilledNone(prefix: seq<nat>, key: Key)
    requires |prefix| <= |key|
    ensures Filled(prefix, key, |prefix|)
  {
  }

  lemma FilledWithin(prefix: seq<nat>, key: Key, need: nat)
    requires Filled(prefix, key, need)
    ensures need <= |prefix| <= |key|
  {
  }

  lemma FilledAll(prefix: seq<nat>, key: Key)
    requires Filled(prefix, key, 0)
    ensures |prefix| <= |key| && prefix == key[..|prefix|]
  {
  }

  lemma FillLiteral(prefix: seq<nat>, key: Key, records: seq<FrontCoded>, i: nat, need: nat)
    requires i < |records| && records[i].retained <= |KeyOf(records[..i])|
    requires KeyOf(records[..i + 1]) == KeyOf(records[..i])[..records[i].retained] + records[i].literal
    requires Filled(prefix, key, need) && records[i].retained < need <= |KeyOf(records[..i + 1])|
    requires Agrees(key, KeyOf(records[..i + 1]), need)
    ensures var retained := records[i].retained;
            Filled(prefix[..retained] + records[i].literal[..need - retained] + prefix[need..], key, retained)
            && |prefix[..retained] + records[i].literal[..need - retained] + prefix[need..]| == |prefix|
            && Agrees(key, KeyOf(records[..i]), retained)
  {
    hide KeyOf;
    var before, here, retained := KeyOf(records[..i]), KeyOf(records[..i + 1]), records[i].retained;
    var more := prefix[..retained] + records[i].literal[..need - retained] + prefix[need..];
    forall k | retained <= k < |more| ensures more[k] == key[k] {
      if k < need { assert key[k] == key[..need][k] == here[..need][k] == records[i].literal[k - retained]; }
    }
    forall k | 0 <= k < retained ensures key[k] == before[k] {
      assert key[k] == key[..need][k] == here[..need][k];
    }
  }

  lemma RetainedSame(key: Key, records: seq<FrontCoded>, i: nat, need: nat)
    requires i < |records| && need <= records[i].retained <= |KeyOf(records[..i])| && need <= |key|
    requires KeyOf(records[..i + 1]) == KeyOf(records[..i])[..records[i].retained] + records[i].literal
    requires Agrees(key, KeyOf(records[..i + 1]), need)
    ensures Agrees(key, KeyOf(records[..i]), need)
  {
  }

  // ----- the round trip

  /** The frames that front coding gives the first n entries. */
  function RecordsOf(entries: seq<KeyValue>, limits: seq<Option<nat>>, n: nat): (records: seq<FrontCoded>)
    requires n <= |entries| == |limits|
    ensures |records| == n
  {
    if n == 0 then [] else RecordsOf(entries, limits, n - 1) + [RecordFor(entries, limits, n - 1)]
  }

  function RecordFor(entries: seq<KeyValue>, limits: seq<Option<nat>>, i: nat): FrontCoded
    requires i < |entries| == |limits|
  {
    var retained := RetainedOf(if i == 0 then [] else entries[i - 1].key, entries[i].key, limits[i]);
    FrontCoded(retained, entries[i].key[retained..], entries[i].value)
  }

  lemma {:induction false} RecordsPrefix(entries: seq<KeyValue>, limits: seq<Option<nat>>, i: nat, n: nat)
    requires i <= n <= |entries| == |limits|
    ensures RecordsOf(entries, limits, n)[..i] == RecordsOf(entries, limits, i)
  {
    if i < n { RecordsPrefix(entries, limits, i, n - 1); }
  }

  ghost predicate AllWidthsAgree(entries: seq<KeyValue>, common: Option<nat>) {
    forall i | 0 <= i < |entries| :: WidthAgrees(entries[i].value, common)
  }

  /** What a batch must satisfy to be written: nothing else can refuse it. */
  ghost predicate Writable(entries: seq<KeyValue>, limits: seq<Option<nat>>, W: nat, common: Option<nat>)
    requires W > 0 && |limits| == |entries|
  {
    && Ascending(entries) && AllWidthsAgree(entries, common)
    && |Stream(RecordsOf(entries, limits, |entries|), W, common)| <= MAX_BYTES
  }

  /** KeyValue i follows the ones before it. */
  ghost predicate Follows(entries: seq<KeyValue>, limits: seq<Option<nat>>, W: nat, common: Option<nat>, i: nat)
    requires W > 0 && i < |entries| == |limits|
  {
    && WidthAgrees(entries[i].value, common)
    && (i > 0 ==> Lt(entries[i - 1].key, entries[i].key))
    && |Stream(RecordsOf(entries, limits, i + 1), W, common)| <= MAX_BYTES
  }

  /** One entry that does not follow makes the batch unwritable. */
  lemma Refused(entries: seq<KeyValue>, limits: seq<Option<nat>>, W: nat, common: Option<nat>, i: nat)
    requires W > 0 && i < |entries| == |limits| && !Follows(entries, limits, W, common, i)
    ensures !Writable(entries, limits, W, common)
  {
    hide WidthAgrees, Stream, Lcp, RecordsOf;
    var records := RecordsOf(entries, limits, |entries|);
    RecordsPrefix(entries, limits, i + 1, |entries|);
    StreamPrefix(records, i + 1, W, common);
    if i > 0 && Ascending(entries) { assert Lt(entries[i - 1].key, entries[i].key); }
  }

  /** What has been written so far. */
  ghost predicate WrittenTo(writer: ProfileNativeWriter, entries: seq<KeyValue>, limits: seq<Option<nat>>, i: nat)
    requires i <= |entries| == |limits|
    reads writer, writer.output
  {
    && writer.Valid() && !writer.output.finished && writer.entries == entries[..i]
    && writer.output.records == RecordsOf(entries, limits, i)
  }

  /** One entry of the batch, accepted exactly when it follows. */
  method WriteOne(writer: ProfileNativeWriter, entries: seq<KeyValue>, limits: seq<Option<nat>>, i: nat) returns (ok: bool)
    requires i < |entries| == |limits| && WrittenTo(writer, entries, limits, i)
    requires IsBytes(entries[i].key) && IsBytes(entries[i].value)
    modifies writer, writer.output
    ensures writer.output.W > 0 && (ok <==> Follows(entries, limits, writer.output.W, writer.output.common, i))
    ensures ok ==> WrittenTo(writer, entries, limits, i + 1)
  {
    hide WidthAgrees, Lcp, IsBytes, Ascending, Fits, Stream, WellFramed, Decodes, KeyOf, Residuals, Units;
    PreviousIs(writer, entries, limits, i);
    ok := writer.Append(entries[i].key, entries[i].value, limits[i]);
    if ok { TakeNext(entries, i); }
  }

  lemma PreviousIs(writer: ProfileNativeWriter, entries: seq<KeyValue>, limits: seq<Option<nat>>, i: nat)
    requires i < |entries| == |limits| && WrittenTo(writer, entries, limits, i)
    ensures writer.previous == if i == 0 then [] else entries[i - 1].key
    ensures writer.FrameFor(entries[i].key, entries[i].value, limits[i]) == RecordFor(entries, limits, i)
    ensures i > 0 ==> writer.entries[i - 1] == entries[i - 1]
  {
    if i > 0 { LastKey(writer.output.records, writer.entries); }
  }

  /** A batch is written exactly when it is writable. */
  method WriteAll(entries: seq<KeyValue>, limits: seq<Option<nat>>, W: nat, common: Option<nat>)
    returns (run: Option<ProfileArray>)
    requires W > 0 && |limits| == |entries|
    requires forall i | 0 <= i < |entries| :: IsBytes(entries[i].key) && IsBytes(entries[i].value)
    ensures run.Some? <==> Writable(entries, limits, W, common)
    ensures run.Some? ==> var records := RecordsOf(entries, limits, |entries|);
                          HoldsRecords(run.value, records) && Decodes(records, entries)
  {
    var writer := new ProfileNativeWriter(W, common);
    hide RecordsOf, Decodes, IsBytes, HoldsRecords, Writable, Follows, FollowTo, WrittenTo, ProfileNativeWriter.Valid;
    StartWriting(writer, entries, limits);
    for i := 0 to |entries|
      invariant fresh(writer) && fresh(writer.output) && writer.output.W == W && writer.output.common == common
      invariant WrittenTo(writer, entries, limits, i) && FollowTo(entries, limits, W, common, i)
    {
      var ok := WriteOne(writer, entries, limits, i);
      if !ok {
        Refused(entries, limits, W, common, i);
        return None;
      }
      FollowNext(entries, limits, W, common, i);
    }
    run := FinishAll(writer, entries, limits);
  }

  lemma StartWriting(writer: ProfileNativeWriter, entries: seq<KeyValue>, limits: seq<Option<nat>>)
    requires writer.Valid() && !writer.output.finished && writer.entries == [] && |entries| == |limits|
    ensures WrittenTo(writer, entries, limits, 0)
    ensures writer.output.W > 0 ==> FollowTo(entries, limits, writer.output.W, writer.output.common, 0)
  {
  }

  ghost predicate FollowTo(entries: seq<KeyValue>, limits: seq<Option<nat>>, W: nat, common: Option<nat>, i: nat)
    requires W > 0 && i <= |entries| == |limits|
  {
    forall j | 0 <= j < i :: Follows(entries, limits, W, common, j)
  }

  lemma FollowNext(entries: seq<KeyValue>, limits: seq<Option<nat>>, W: nat, common: Option<nat>, i: nat)
    requires W > 0 && i < |entries| == |limits| && FollowTo(entries, limits, W, common, i)
    requires Follows(entries, limits, W, common, i)
    ensures FollowTo(entries, limits, W, common, i + 1)
  {
  }

  method FinishAll(writer: ProfileNativeWriter, ghost entries: seq<KeyValue>, ghost limits: seq<Option<nat>>)
    returns (run: Option<ProfileArray>)
    requires |entries| == |limits| && WrittenTo(writer, entries, limits, |entries|)
    requires writer.output.W > 0 && FollowTo(entries, limits, writer.output.W, writer.output.common, |entries|)
    modifies writer, writer.output
    ensures run.Some? && Writable(entries, limits, writer.output.W, writer.output.common)
    ensures var records := RecordsOf(entries, limits, |entries|);
            HoldsRecords(run.value, records) && Decodes(records, entries)
  {
    assert writer.entries == entries;
    AllFollow(writer, entries, limits, writer.output.W, writer.output.common);
    hide FollowTo, HoldsRecords, Decodes, Writable, RecordsOf;
    run := writer.Finish();
  }

  lemma AllFollow(writer: ProfileNativeWriter, entries: seq<KeyValue>, limits: seq<Option<nat>>, W: nat, common: Option<nat>)
    requires W > 0 && |entries| == |limits| && WrittenTo(writer, entries, limits, |entries|)
    requires FollowTo(entries, limits, W, common, |entries|) && W == writer.output.W && common == writer.output.common
    ensures Writable(entries, limits, W, common)
  {
    assert entries[..|entries|] == entries;
    if entries != [] {
      assert Follows(entries, limits, W, common, |entries| - 1);
    }
    forall j | 0 <= j < |entries| ensures WidthAgrees(entries[j].value, common) {
      assert Follows(entries, limits, W, common, j);
    }
  }

  lemma TakeNext(entries: seq<KeyValue>, i: nat)
    requires i < |entries|
    ensures entries[..i] + [KeyValue(entries[i].key, entries[i].value)] == entries[..i + 1]
  {
  }

  /** Exactly the strictly increasing batches that fit are written, and reading the run back, whole or one record,
      gives the entries again. */
  method RoundTrip(entries: seq<KeyValue>, limits: seq<Option<nat>>, W: nat, common: Option<nat>, ordinal: nat)
    returns (written: bool, all: Option<seq<KeyValue>>, one: Option<(seq<nat>, nat, seq<nat>)>)
    requires W > 0 && |limits| == |entries|
    requires forall i | 0 <= i < |entries| :: IsBytes(entries[i].key) && IsBytes(entries[i].value)
    ensures written <==> Writable(entries, limits, W, common)
    ensures written ==> all == Some(entries)
    ensures written && ordinal < |entries| ==>
              one == Some((entries[ordinal].key, |entries[ordinal].key|, entries[ordinal].value))
    ensures written && ordinal >= |entries| ==> one == None
  {
    hide Decodes, KeyOf, Ascending, IsBytes, HoldsRecords, Writable;
    var run := WriteAll(entries, limits, W, common);
    if run.None? { return false, None, None; }
    ghost var records := RecordsOf(entries, limits, |entries|);
    all := VisitAll(run.value, records);
    SameCount(records, entries);
    DecodesEntries(records, entries, |records|);
    assert entries[..|entries|] == entries;
    one := None;
    if ordinal < |entries| {
      one := ReconstructAt(run.value, ordinal, |entries[ordinal].key|, records);
      OneDecodes(records, entries, ordinal);
      assert entries[ordinal].key[..|entries[ordinal].key|] == entries[ordinal].key;
    }
    written := true;
  }

  lemma OneDecodes(records: seq<FrontCoded>, entries: seq<KeyValue>, i: nat)
    requires Decodes(records, entries) && i < |entries|
    ensures KeyOf(records[..i + 1]) == entries[i].key && records[i].value == entries[i].value
  {
  }
}
