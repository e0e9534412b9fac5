/** Front-coded native runs (native_output and profile_native_writer of native_writer.h), byte profile: frames of
    LEB128 controls, a literal and a value, with one residual offset per block. Units are bytes. */
module NativeWriters {
  import opened Options
  import opened Keys
  import opened BitStrings
  import opened CountCodes
  import opened EliasFanos
  import opened ColaSpec

  datatype FrontCoded = FrontCoded(retained: nat, literal: seq<nat>, value: seq<nat>)

  /** The largest byte extent whose bit size can still be rounded up in 64 bits. */
  const MAX_BYTES: nat := 0x1FFF_FFFF_FFFF_FFFF

  predicate IsBytes(s: seq<nat>) {
    forall i | 0 <= i < |s| :: s[i] < 256
  }

  /** Length of the last key. */
  function Units(records: seq<FrontCoded>): nat {
    if records == [] then 0 else records[|records| - 1].retained + |records[|records| - 1].literal|
  }

  /** The last key, rebuilt frame by frame. */
  function KeyOf(records: seq<FrontCoded>): Key {
    if records == [] then [] else
      var last, before := records[|records| - 1], KeyOf(records[..|records| - 1]);
      before[..Min(last.retained, |before|)] + last.literal
  }

  predicate WidthAgrees(value: seq<nat>, common: Option<nat>) {
    common.Some? ==> |value| == common.value
  }

  /** A record the framing accepts after the given ones. */
  predicate Fits(records: seq<FrontCoded>, record: FrontCoded, common: Option<nat>) {
    && record.retained <= Units(records) && (records != [] ==> record.literal != [])
    && WidthAgrees(record.value, common) && IsBytes(record.literal) && IsBytes(record.value)
  }

  ghost predicate WellFramed(records: seq<FrontCoded>, common: Option<nat>) {
    forall i {:trigger records[i]} | 0 <= i < |records| :: Fits(records[..i], records[i], common)
  }

  /** Blocks restart with an absolute retained position; every other frame backspaces from the preceding key. */
  function Lead(record: FrontCoded, previous: nat, block: bool): nat {
    if block then record.retained else if record.retained <= previous then previous - record.retained else 0
  }

  function Control(record: FrontCoded, previous: nat, block: bool, common: Option<nat>): seq<nat> {
    Encode(Lead(record, previous, block)) + Tail(record, common)
  }

  function Tail(record: FrontCoded, common: Option<nat>): seq<nat> {
    Encode(|record.literal|) + (if common.None? then Encode(|record.value|) else [])
  }

  function Frame(record: FrontCoded, previous: nat, block: bool, common: Option<nat>): seq<nat> {
    Control(record, previous, block, common) + record.literal + record.value
  }

  /** Every W-th frame, from the first. */
  predicate StartsBlock(i: nat, W: nat)
    requires W > 0
  {
    i % W == 0
  }

  /** The encoded bytes of a run. */
  function Stream(records: seq<FrontCoded>, W: nat, common: Option<nat>): seq<nat>
    requires W > 0
  {
    if records == [] then [] else
      var n := |records| - 1;
      Stream(records[..n], W, common) + Frame(records[n], Units(records[..n]), StartsBlock(n, W), common)
  }

  /** Where record i starts. */
  function StartOf(records: seq<FrontCoded>, i: nat, W: nat, common: Option<nat>): nat
    requires W > 0 && i <= |records|
  {
    |Stream(records[..i], W, common)|
  }

  function FrameAt(records: seq<FrontCoded>, i: nat, W: nat, common: Option<nat>): seq<nat>
    requires W > 0 && i < |records|
  {
    Frame(records[i], Units(records[..i]), StartsBlock(i, W), common)
  }

  lemma StartNext(records: seq<FrontCoded>, i: nat, W: nat, common: Option<nat>)
    requires W > 0 && i < |records|
    ensures StartOf(records, i + 1, W, common) == StartOf(records, i, W, common) + |FrameAt(records, i, W, common)|
    ensures Stream(records[..i + 1], W, common) == Stream(records[..i], W, common) + FrameAt(records, i, W, common)
  {
    assert records[..i + 1][..i] == records[..i];
  }

  lemma {:induction false} StreamPrefix(records: seq<FrontCoded>, i: nat, W: nat, common: Option<nat>)
    requires W > 0 && i <= |records|
    ensures Stream(records[..i], W, common) <= Stream(records, W, common)
    decreases |records| - i
  {
    if i < |records| {
      StartNext(records, i, W, common);
      StreamPrefix(records, i + 1, W, common);
    } else {
      assert records[..i] == records;
    }
  }

  /** Every frame stands at its start. */
  lemma FrameHere(records: seq<FrontCoded>, i: nat, W: nat, common: Option<nat>)
    requires W > 0 && i < |records|
    ensures HasAt(Stream(records, W, common), StartOf(records, i, W, common), FrameAt(records, i, W, common))
    ensures StartOf(records, i + 1, W, common) == StartOf(records, i, W, common) + |FrameAt(records, i, W, common)|
  {
    StartNext(records, i, W, common);
    StreamPrefix(records, i + 1, W, common);
    PartHere(Stream(records, W, common), Stream(records[..i], W, common), FrameAt(records, i, W, common));
  }

  lemma PartHere(data: seq<nat>, before: seq<nat>, part: seq<nat>)
    requires before + part <= data
    ensures HasAt(data, |before|, part)
  {
    assert data[|before|..|before| + |part|] == data[..|before| + |part|][|before|..];
  }

  // ----- sizes

  /** Bytes that fixed-width values take in the first n records. */
  function Base(common: Option<nat>, n: nat): nat {
    if common.Some? then n * common.value else 0
  }

  lemma BaseNext(common: Option<nat>, n: nat)
    ensures Base(common, n + 1) == Base(common, n) + (if common.Some? then common.value else 0)
  {
  }

  lemma FrameSize(record: FrontCoded, previous: nat, block: bool, common: Option<nat>)
    ensures |Frame(record, previous, block, common)| >= 2 + |record.literal| + |record.value|
  {
  }

  /** Every key unit and every value was once written. */
  lemma {:induction false} StreamSizes(records: seq<FrontCoded>, W: nat, common: Option<nat>)
    requires W > 0 && WellFramed(records, common)
    ensures Units(records) <= |Stream(records, W, common)| && 2 * |records| <= |Stream(records, W, common)|
    ensures Base(common, |records|) <= |Stream(records, W, common)|
  {
    if records != [] {
      var n := |records| - 1;
      FramedPrefix(records, n, common);
      StreamSizes(records[..n], W, common);
      assert Fits(records[..n], records[n], common);
      FrameSize(records[n], Units(records[..n]), StartsBlock(n, W), common);
      BaseNext(common, n);
    }
  }

  lemma FramedPrefix(records: seq<FrontCoded>, n: nat, common: Option<nat>)
    requires WellFramed(records, common) && n <= |records|
    ensures WellFramed(records[..n], common)
  {
    forall i | 0 <= i < n ensures Fits(records[..n][..i], records[..n][i], common) {
      assert records[..n][..i] == records[..i] && records[..n][i] == records[i];
    }
  }

  lemma FramedNext(records: seq<FrontCoded>, record: FrontCoded, common: Option<nat>)
    requires WellFramed(records, common) && Fits(records, record, common)
    ensures WellFramed(records + [record], common)
  {
    var more := records + [record];
    forall i | 0 <= i < |more| ensures Fits(more[..i], more[i], common) {
      assert more[..i] == records[..i];
      if i == |records| { assert records[..i] == records; }
    }
  }

  lemma {:induction false} StreamBytes(records: seq<FrontCoded>, W: nat, common: Option<nat>)
    requires W > 0 && WellFramed(records, common)
    ensures IsBytes(Stream(records, W, common))
  {
    if records != [] {
      var n := |records| - 1;
      FramedPrefix(records, n, common);
      StreamBytes(records[..n], W, common);
      assert Fits(records[..n], records[n], common);
      FrameBytes(records[n], Units(records[..n]), StartsBlock(n, W), common);
    }
  }

  lemma FrameBytes(record: FrontCoded, previous: nat, block: bool, common: Option<nat>)
    requires IsBytes(record.literal) && IsBytes(record.value)
    ensures IsBytes(Frame(record, previous, block, common))
  {
    CodeBytes(Lead(record, previous, block));
    CodeBytes(|record.literal|);
    CodeBytes(|record.value|);
  }

  lemma CodeBytes(n: nat)
    ensures IsBytes(Encode(n))
  {
    forall i | 0 <= i < |Encode(n)| ensures Encode(n)[i] < 256 { EncodeBytes(n, i); }
  }

  // ----- block offsets

  /** The first record of a block; past the last one, the end of the run. */
  function BlockStart(j: nat, n: nat, W: nat): (i: nat)
    ensures i <= n
  {
    Min(Times(j, W), n)
  }

  /** A start without the fixed-width values before it. */
  function Residual(records: seq<FrontCoded>, i: nat, W: nat, common: Option<nat>): int
    requires W > 0 && i <= |records|
  {
    StartOf(records, i, W, common) - Base(common, i)
  }

  /** Residuals never decrease and never go below zero. */
  lemma {:induction false} ResidualMonotone(records: seq<FrontCoded>, i: nat, j: nat, W: nat, common: Option<nat>)
    requires W > 0 && WellFramed(records, common) && i <= j <= |records|
    ensures 0 <= Residual(records, i, W, common) <= Residual(records, j, W, common)
    decreases j
  {
    if i < j {
      ResidualMonotone(records, i, j - 1, W, common);
      StartNext(records, j - 1, W, common);
      assert Fits(records[..j - 1], records[j - 1], common);
      FrameSize(records[j - 1], Units(records[..j - 1]), StartsBlock(j - 1, W), common);
      BaseNext(common, j - 1);
    } else {
      FramedPrefix(records, i, common);
      StreamSizes(records[..i], W, common);
    }
  }

  ghost predicate ResidualIs(offset: nat, records: seq<FrontCoded>, i: nat, W: nat, common: Option<nat>)
    requires W > 0
  {
    i <= |records| && offset == Residual(records, i, W, common)
  }

  /** One residual per block. */
  ghost predicate Residuals(offsets: seq<nat>, records: seq<FrontCoded>, W: nat, common: Option<nat>)
    requires W > 0
  {
    forall j {:trigger offsets[j]} | 0 <= j < |offsets| ::
      ResidualIs(offsets[j], records, Times(j, W), W, common)
  }

  lemma ResidualsNext(offsets: seq<nat>, records: seq<FrontCoded>, record: FrontCoded, W: nat, common: Option<nat>)
    requires W > 0 && Residuals(offsets, records, W, common)
    ensures Residuals(offsets, records + [record], W, common)
  {
    var more := records + [record];
    forall j | 0 <= j < |offsets|
      ensures ResidualIs(offsets[j], more, Times(j, W), W, common)
    {
      assert ResidualIs(offsets[j], records, Times(j, W), W, common);
      assert more[..Times(j, W)] == records[..Times(j, W)];
    }
  }

  /** A block ends exactly at a multiple of the block size. */
  lemma BlocksNext(n: nat, W: nat)
    requires W > 0
    ensures GroupCount(n + 1, W) == if StartsBlock(n, W) then GroupCount(n, W) + 1 else GroupCount(n, W)
    ensures StartsBlock(n, W) ==> Times(GroupCount(n, W), W) == n
    ensures GroupCount(n, W) <= n
  {
    var q, b := n / W, GroupCount(n, W);
    TimesIs(q, W);
    assert n == q * W + n % W;
    GroupIndex(b, n, W);
    if b > 0 {
      GroupIndex(b - 1, n, W);
      TimesAtLeast(b - 1, W);
    }
    GroupCountIs(n + 1, W, if n % W == 0 then b + 1 else b);
  }

  lemma {:induction false} TimesAtLeast(b: nat, W: nat)
    requires W > 0
    ensures b <= Times(b, W)
  {
    if b > 0 { TimesAtLeast(b - 1, W); }
  }

  // ----- the unchecked output

  class NativeOutput {
    const W: nat
    const common: Option<nat>
    var data: seq<nat>
    var offsets: seq<nat>
    var count: nat
    var previousUnits: nat
    var finished: bool
    ghost var records: seq<FrontCoded>

    ghost predicate Valid()
      reads this
    {
      W > 0 && (!finished ==>
        && WellFramed(records, common) && data == Stream(records, W, common) && |data| <= MAX_BYTES
        && count == |records| && previousUnits == Units(records)
        && |offsets| == GroupCount(count, W) && Residuals(offsets, records, W, common))
    }

    constructor (blockSize: nat, width: Option<nat>)
      requires blockSize > 0
      ensures Valid() && !finished && records == [] && W == blockSize && common == width
    {
      W, common := blockSize, width;
      data, offsets, count, previousUnits, finished, records := [], [], 0, 0, false, [];
    }

    /** The frame's controls. */
    method FrameControl(record: FrontCoded, block: bool) returns (control: seq<nat>)
      requires record.retained <= previousUnits
      ensures control == Control(record, previousUnits, block, common)
      ensures control == Encode(if block then record.retained else previousUnits - record.retained)
                         + Encode(|record.literal|) + (if common.None? then Encode(|record.value|) else [])
    {
      var lead := WriteCount(if block then record.retained else previousUnits - record.retained);
      var literal := WriteCount(|record.literal|);
      control := literal;
      if common.None? {
        var value := WriteCount(|record.value|);
        control := control + value;
      } else {
        assert control == control + [];
      }
      control := lead + control;
    }

    /** The checks before anything is written. */
    method Admits(retained: nat, literal: seq<nat>, value: seq<nat>) returns (ok: bool)
      requires Valid() && IsBytes(literal) && IsBytes(value)
      ensures ok <==> !finished && Fits(records, FrontCoded(retained, literal, value), common)
      ensures ok <==> && !finished && (common.Some? ==> |value| == common.value)
                      && retained <= previousUnits && (records == [] || literal != [])
      ensures !finished ==> previousUnits == Units(records)
    {
      if finished { return false; }
      if common.Some? && |value| != common.value { return false; }
      if retained > previousUnits || (count > 0 && literal == []) { return false; }
      return true;
    }

    /** `append`: commits the record or, when it is refused, leaves everything as it was, also after a block offset
        has been pushed. */
    method Append(retained: nat, literal: seq<nat>, value: seq<nat>) returns (ok: bool)
      requires Valid() && IsBytes(literal) && IsBytes(value)
      modifies this
      ensures Valid() && finished == old(finished)
      ensures ok <==> && !finished && (common.Some? ==> |value| == common.value)
                      && retained <= Units(old(records)) && (old(records) == [] || literal != [])
                      && |Stream(old(records) + [FrontCoded(retained, literal, value)], W, common)| <= MAX_BYTES
      ensures ok ==> records == old(records) + [FrontCoded(retained, literal, value)]
      ensures ok ==> data == old(data) + Encode(if old(count) % W == 0 then retained else old(previousUnits) - retained)
                             + Encode(|literal|) + (if common.None? then Encode(|value|) else []) + literal + value
      ensures ok && old(count) % W == 0 ==>
                offsets == old(offsets) + [|old(data)| - old(count) * (if common.None? then 0 else common.value)]
      ensures ok && old(count) % W != 0 ==> offsets == old(offsets)
      ensures ok ==> count == old(count) + 1 && previousUnits == retained + |literal|
      ensures !ok ==> unchanged(this)
    {
      hide WellFramed, Stream, Frame, Control, Units, Residuals, Fits, Encode, GroupCount, IsBytes, StartOf, Tail;
      var admitted := Admits(retained, literal, value);
      if !admitted { return false; }
      ghost var record := FrontCoded(retained, literal, value);
      AppendNext(records, record, W, common);
      var savedBytes, savedOffsets := |data|, |offsets|;
      var block := StartsBlock(count, W);
      BlocksNext(count, W);
      if block {
        StreamSizes(records, W, common);
        var residual: nat := |data| - Base(common, count);
        LastResidual(residual, records, W, common);
        PushResidual(offsets, residual, records, W, common);
        offsets := offsets + [residual];
      }
      var control := FrameControl(FrontCoded(retained, literal, value), block);
      if |data| + |control| + |literal| + |value| > MAX_BYTES {
        FrameIs(control, record, previousUnits, block, common);
        offsets := offsets[..savedOffsets];
        data := data[..savedBytes];
        assert offsets == old(offsets) && data == old(data);
        return false;
      }
      FrameIs(control, record, previousUnits, block, common);
      ResidualsNext(offsets, records, record, W, common);
      data := data + (control + literal + value);
      previousUnits := retained + |literal|;
      count := count + 1;
      records := records + [record];
      ok := true;
    }

    /** The codec accepts them. */
    static method BuildOffsets(source: seq<nat>) returns (navigation: EliasFano)
      requires Monotone(source) && |source| > 0 && !TooLarge(|source|, source[|source| - 1])
      requires source[|source| - 1] < TWO64
      ensures Encodes(navigation, source)
    {
      PowerWord();
      forall v | v in source ensures v < Pow2(64) {
        var j :| 0 <= j < |source| && source[j] == v;
        assert source[j] <= source[|source| - 1];
      }
      hide TooLarge, Encodes, Monotone, Pow2;
      var built := Build(source);
      navigation := built.value;
    }

    /** `finish`: the offsets are always accepted, so an active writer always yields its array. */
    method Finish() returns (result: Option<ProfileArray>)
      requires Valid()
      modifies this
      ensures Valid() && finished
      ensures old(finished) ==> result.None? && unchanged(this)
      ensures !old(finished) ==> result.Some? && HoldsRecords(result.value, old(records)) && result.value.W == W
                                 && result.value.common == common
      ensures records == old(records)
    {
      if finished { return None; }
      hide WellFramed, Stream, Units, Residuals, AllResiduals, Encodes, Monotone, TooLarge, HoldsRecords, Base, GroupCount, Fits, Times, Pow2;
      StreamSizes(records, W, common);
      var residual: nat := |data| - Base(common, count);
      FinalOffsets(offsets, residual, records, W, common);
      offsets := offsets + [residual];
      var navigation := BuildOffsets(offsets);
      var run := ProfileArray(data, navigation, W, common, count, |data|, previousUnits);
      RunHolds(run, records, offsets);
      result := Some(run);
      data, offsets, finished := [], [], true;
    }
  }

  lemma AppendNext(records: seq<FrontCoded>, record: FrontCoded, W: nat, common: Option<nat>)
    requires W > 0 && WellFramed(records, common)
    ensures Fits(records, record, common) ==> WellFramed(records + [record], common)
    ensures Stream(records + [record], W, common)
            == Stream(records, W, common) + Frame(record, Units(records), StartsBlock(|records|, W), common)
    ensures Units(records + [record]) == record.retained + |record.literal|
  {
    if Fits(records, record, common) { FramedNext(records, record, common); }
    assert (records + [record])[..|records|] == records;
  }

  lemma FrameIs(control: seq<nat>, record: FrontCoded, previous: nat, block: bool, common: Option<nat>)
    requires control == Control(record, previous, block, common)
    ensures control + record.literal + record.value == Frame(record, previous, block, common)
  {
  }

  lemma LastResidual(last: nat, records: seq<FrontCoded>, W: nat, common: Option<nat>)
    requires W > 0 && last == |Stream(records, W, common)| - Base(common, |records|)
    ensures ResidualIs(last, records, |records|, W, common)
  {
    assert records[..|records|] == records;
  }

  lemma PushResidual(offsets: seq<nat>, last: nat, records: seq<FrontCoded>, W: nat, common: Option<nat>)
    requires W > 0 && Residuals(offsets, records, W, common) && Times(|offsets|, W) == |records|
    requires ResidualIs(last, records, |records|, W, common)
    ensures Residuals(offsets + [last], records, W, common)
  {
    hide ResidualIs, Times;
    var more := offsets + [last];
    forall j | 0 <= j < |more| ensures ResidualIs(more[j], records, Times(j, W), W, common) {
      if j < |offsets| { assert more[j] == offsets[j]; }
    }
  }

  // ----- the finished array

  datatype ProfileArray = ProfileArray(bytes: seq<nat>, offsets: EliasFano, W: nat, common: Option<nat>,
                                       count: nat, extent: nat, terminal: nat)

  /** The residual at the start of every block and at the end. */
  ghost predicate AllResiduals(source: seq<nat>, records: seq<FrontCoded>, W: nat, common: Option<nat>)
    requires W > 0
  {
    && |source| == GroupCount(|records|, W) + 1
    && forall j {:trigger source[j]} | 0 <= j < |source| ::
         source[j] == Residual(records, BlockStart(j, |records|, W), W, common)
  }

  /** The sections hold exactly these records. */
  ghost predicate HoldsRecords(run: ProfileArray, records: seq<FrontCoded>) {
    && run.W > 0 && WellFramed(records, run.common)
    && run.bytes == Stream(records, run.W, run.common) && |run.bytes| <= MAX_BYTES && IsBytes(run.bytes)
    && run.count == |records| && run.extent == |run.bytes| && run.terminal == Units(records)
    && exists source :: AllResiduals(source, records, run.W, run.common) && Encodes(run.offsets, source)
  }

  lemma RunHolds(run: ProfileArray, records: seq<FrontCoded>, source: seq<nat>)
    requires run.W > 0 && WellFramed(records, run.common)
    requires run.bytes == Stream(records, run.W, run.common) && |run.bytes| <= MAX_BYTES
    requires run.count == |records| && run.extent == |run.bytes| && run.terminal == Units(records)
    requires AllResiduals(source, records, run.W, run.common) && Encodes(run.offsets, source)
    ensures HoldsRecords(run, records)
  {
    StreamBytes(records, run.W, run.common);
  }

  /** What `finish` hands to the codec: nondecreasing, and never too large for it. */
  lemma FinalOffsets(offsets: seq<nat>, last: nat, records: seq<FrontCoded>, W: nat, common: Option<nat>)
    requires W > 0 && WellFramed(records, common) && |Stream(records, W, common)| <= MAX_BYTES
    requires |offsets| == GroupCount(|records|, W) && Residuals(offsets, records, W, common)
    requires last == |Stream(records, W, common)| - Base(common, |records|)
    ensures var source := offsets + [last];
            && AllResiduals(source, records, W, common) && Monotone(source)
            && !TooLarge(|source|, source[|source| - 1])
  {
    StreamSizes(records, W, common);
    var n := |records|;
    var source := offsets + [last];
    SourceIs(offsets, last, records, W, common);
    SourceMonotone(source, records, W, common);
    BlocksNext(n, W);
    NeverTooLarge(|source|, source[|source| - 1]);
  }

  lemma SourceIs(offsets: seq<nat>, last: nat, records: seq<FrontCoded>, W: nat, common: Option<nat>)
    requires W > 0 && |offsets| == GroupCount(|records|, W) && Residuals(offsets, records, W, common)
    requires last == |Stream(records, W, common)| - Base(common, |records|)
    ensures AllResiduals(offsets + [last], records, W, common)
  {
    var source := offsets + [last];
    forall j | 0 <= j < |source| ensures source[j] == Residual(records, BlockStart(j, |records|, W), W, common) {
      GroupIndex(j, |records|, W);
      if j < |offsets| { assert source[j] == offsets[j]; } else { assert records[..|records|] == records; }
    }
  }

  lemma SourceMonotone(source: seq<nat>, records: seq<FrontCoded>, W: nat, common: Option<nat>)
    requires W > 0 && WellFramed(records, common) && AllResiduals(source, records, W, common)
    ensures Monotone(source)
  {
    forall i, j | 0 <= i <= j < |source| ensures source[i] <= source[j] {
      TimesMonotone(i, j, W);
      ResidualMonotone(records, BlockStart(i, |records|, W), BlockStart(j, |records|, W), W, common);
    }
  }

  lemma PowerWord()
    ensures Pow2(64) == TWO64
  {
    assert Pow2(8) == 0x100;
    PowerSum(8, 8);
    PowerSum(16, 16);
    PowerSum(32, 32);
  }

  lemma {:induction false} PowerSum(a: nat, b: nat)
    ensures Pow2(a + b) == Pow2(a) * Pow2(b)
  {
    if a > 0 {
      PowerSum(a - 1, b);
      assert Pow2(a) * Pow2(b) == 2 * (Pow2(a - 1) * Pow2(b));
    }
  }

  lemma {:induction false} LogBelow(q: nat)
    requires q > 0
    ensures Log2(q) < q
  {
    if q > 1 { LogBelow(q / 2); }
  }

  lemma {:induction false} ShrBelow(v: nat, n: nat)
    ensures Shr(v, n) <= v
  {
    if n > 0 { ShrBelow(v / 2, n - 1); }
  }

  /** Low fields take at most as many bits as the universe counts. */
  lemma NeverTooLarge(n: nat, universe: nat)
    requires 0 < n <= MAX_BYTES + 1 && universe <= MAX_BYTES
    ensures !TooLarge(n, universe)
  {
    var W := LowWidth(universe, n);
    WidthTimes(n, universe);
    hide LowWidth;
    ShrBelow(universe, W);
  }

  lemma WidthTimes(n: nat, universe: nat)
    requires 0 < n
    ensures Times(n, LowWidth(universe, n)) <= universe
  {
    var q, W := universe / n, LowWidth(universe, n);
    if q > 0 { LogBelow(q); }
    assert W <= q;
    TimesIs(n, W);
    Mean(universe, n, q, W);
  }

  lemma Mean(universe: nat, n: nat, q: nat, W: nat)
    requires n > 0 && q == universe / n && W <= q
    ensures n * W <= universe
  {
    assert universe == n * q + universe % n;
    assert n * W + n * (q - W) == n * q && n * (q - W) >= 0;
  }

  // ----- the checked writer

  datatype KeyValue = KeyValue(key: Key, value: seq<nat>)

  ghost predicate Ascending(entries: seq<KeyValue>) {
    forall i, j {:trigger entries[i], entries[j]} | 0 <= i < j < |entries| :: Lt(entries[i].key, entries[j].key)
  }

  /** The frames rebuild exactly these keys and values. */
  ghost predicate Decodes(records: seq<FrontCoded>, entries: seq<KeyValue>) {
    && |entries| == |records|
    && forall i {:trigger entries[i]} | 0 <= i < |records| ::
         KeyOf(records[..i + 1]) == entries[i].key && records[i].value == entries[i].value
  }

  lemma {:induction false} UnitsOfKey(records: seq<FrontCoded>, common: Option<nat>)
    requires WellFramed(records, common)
    ensures |KeyOf(records)| == Units(records)
  {
    if records != [] {
      var n := |records| - 1;
      FramedPrefix(records, n, common);
      UnitsOfKey(records[..n], common);
      assert Fits(records[..n], records[n], common);
    }
  }

  /** Front coding: any retained prefix up to the exact common one rebuilds the key. */
  lemma KeyNext(records: seq<FrontCoded>, key: Key, retained: nat, value: seq<nat>)
    requires retained <= Lcp(KeyOf(records), key)
    ensures KeyOf(records + [FrontCoded(retained, key[retained..], value)]) == key
  {
    var more := records + [FrontCoded(retained, key[retained..], value)];
    assert more[..|records|] == records;
    var before := KeyOf(records);
    hide Lcp;
    assert KeyOf(more) == before[..Min(retained, |before|)] + key[retained..];
    LcpPrefix(before, key, retained);
  }

  lemma DecodesNext(records: seq<FrontCoded>, entries: seq<KeyValue>, record: FrontCoded, key: Key)
    requires Decodes(records, entries) && KeyOf(records + [record]) == key
    ensures Decodes(records + [record], entries + [KeyValue(key, record.value)])
  {
    var more, after := records + [record], entries + [KeyValue(key, record.value)];
    forall i | 0 <= i < |more| ensures KeyOf(more[..i + 1]) == after[i].key && more[i].value == after[i].value {
      if i < |records| {
        assert more[..i + 1] == records[..i + 1];
        assert after[i] == entries[i];
      } else {
        assert more[..i + 1] == more;
      }
    }
  }

  lemma AscendingNext(entries: seq<KeyValue>, entry: KeyValue)
    requires Ascending(entries) && (entries == [] || Lt(entries[|entries| - 1].key, entry.key))
    ensures Ascending(entries + [entry])
  {
    var more := entries + [entry];
    forall i, j | 0 <= i < j < |more| ensures Lt(more[i].key, more[j].key) {
      if j == |entries| {
        var last := entries[|entries| - 1].key;
        if i < |entries| - 1 {
          assert Lt(entries[i].key, last);
          LcpOrderedMin(entries[i].key, last, entry.key);
        }
      }
    }
  }

  lemma LastKey(records: seq<FrontCoded>, entries: seq<KeyValue>)
    requires Decodes(records, entries) && entries != []
    ensures KeyOf(records) == entries[|entries| - 1].key
  {
    assert records[..|records| - 1 + 1] == records;
  }

  lemma NoKey(records: seq<FrontCoded>)
    ensures records == [] ==> KeyOf(records) == []
  {
  }

  /** What the writer retains of the preceding key. */
  function RetainedOf(previous: Key, key: Key, limit: Option<nat>): (r: nat)
    ensures r <= Lcp(previous, key)
  {
    if limit.Some? then Min(Lcp(previous, key), limit.value) else Lcp(previous, key)
  }

  /** A greater key always has a literal, so the known-prefix check of the output cannot fire. */
  lemma LiteralLeft(previous: Key, key: Key, limit: Option<nat>)
    requires Lt(previous, key)
    ensures key[RetainedOf(previous, key, limit)..] != []
  {
  }

  class ProfileNativeWriter {
    const output: NativeOutput
    var previous: Key
    ghost var entries: seq<KeyValue>

    ghost predicate Valid()
      reads this, output
    {
      output.Valid() && (!output.finished ==>
        Decodes(output.records, entries) && previous == KeyOf(output.records) && Ascending(entries))
    }

    constructor (blockSize: nat, width: Option<nat>)
      requires blockSize > 0
      ensures Valid() && fresh(output) && !output.finished && entries == []
      ensures output.W == blockSize && output.common == width
    {
      output := new NativeOutput(blockSize, width);
      previous, entries := [], [];
    }

    /** The frame this key gets. */
    ghost function FrameFor(key: Key, value: seq<nat>, limit: Option<nat>): FrontCoded
      reads this
    {
      var retained := RetainedOf(previous, key, limit);
      FrontCoded(retained, key[retained..], value)
    }

    /** `append`: accepts exactly a greater key with an agreeing value width while the bytes last, and a refused
        append changes nothing. */
    method Append(key: Key, value: seq<nat>, limit: Option<nat>) returns (ok: bool)
      requires Valid() && IsBytes(key) && IsBytes(value)
      modifies this, output
      ensures Valid() && output.finished == old(output.finished)
      ensures ok <==> && !output.finished && WidthAgrees(value, output.common)
                      && (old(entries) == [] || Lt(old(entries)[|old(entries)| - 1].key, key))
                      && |Stream(old(output.records) + [old(FrameFor(key, value, limit))], output.W, output.common)|
                         <= MAX_BYTES
      ensures ok ==> entries == old(entries) + [KeyValue(key, value)]
                     && output.records == old(output.records) + [old(FrameFor(key, value, limit))]
      ensures ok ==>
                var before := if old(entries) == [] then [] else old(entries)[|old(entries)| - 1].key;
                var kept := if limit.Some? then Min(Lcp(before, key), limit.value) else Lcp(before, key);
                |output.records| == |old(output.records)| + 1
                && output.records[|old(output.records)|] == FrontCoded(kept, key[kept..], value)
      ensures !ok ==> unchanged(this) && unchanged(output)
    {
      hide Stream, WellFramed, Decodes, KeyOf, Ascending, Residuals, GroupCount, Fits, Units, Order, Lcp;
      if output.finished { return false; }
      if output.common.Some? && |value| != output.common.value { return false; }
      SameCount(output.records, entries);
      if entries != [] { LastKey(output.records, entries); } else { NoKey(output.records); }
      if output.count > 0 && Order(previous, key) >= 0 { return false; }
      ghost var records, was := output.records, previous;
      var retained := RetainedOf(previous, key, limit);
      var literal := key[retained..];
      ghost var record := FrontCoded(retained, literal, value);
      FrameFits(records, key, value, limit, output.common);
      ok := output.Append(retained, literal, value);
      if !ok { return; }
      KeyNext(records, key, retained, value);
      DecodesNext(records, entries, record, key);
      AscendingNext(entries, KeyValue(key, value));
      LcpPrefix(was, key, retained);
      previous := previous[..retained] + literal;
      entries := entries + [KeyValue(key, value)];
    }

    /** `finish`: the array holds frames that rebuild every entry. */
    method Finish() returns (result: Option<ProfileArray>)
      requires Valid()
      modifies this, output
      ensures Valid() && output.finished
      ensures old(output.finished) ==> result.None?
      ensures !old(output.finished) ==> result.Some? && HoldsRecords(result.value, old(output.records))
                                        && Decodes(old(output.records), old(entries))
    {
      result := output.Finish();
      previous := [];
    }
  }

  lemma SameCount(records: seq<FrontCoded>, entries: seq<KeyValue>)
    requires Decodes(records, entries)
    ensures |records| == |entries|
  {
  }

  lemma FrameFits(records: seq<FrontCoded>, key: Key, value: seq<nat>, limit: Option<nat>, common: Option<nat>)
    requires WellFramed(records, common) && IsBytes(key) && IsBytes(value) && WidthAgrees(value, common)
    requires records == [] || Lt(KeyOf(records), key)
    ensures var retained := RetainedOf(KeyOf(records), key, limit);
            Fits(records, FrontCoded(retained, key[retained..], value), common)
  {
    UnitsOfKey(records, common);
    if records != [] { LiteralLeft(KeyOf(records), key, limit); }
  }

  lemma LcpPrefix(before: Key, key: Key, retained: nat)
    requires retained <= Lcp(before, key)
    ensures before[..retained] + key[retained..] == key
  {
    LcpIs(before, key);
    assert before[..retained] == key[..retained];
  }
}
