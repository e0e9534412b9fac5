/** The literal streams of the encoded merge as bytes: whatever the merge emits, native_output accepts as it stands, so
    its known-prefix check never fires, and the bytes decode to the merged run. Units are bytes. */
module NativeBytes {
  import opened Options
  import opened Keys
  import ColaSpec
  import opened NativeWriters
  import NativeStreams

  /** The frames of the first n records of a run. */
  function FramesOf(run: ColaSpec.Run, n: nat): (records: seq<FrontCoded>)
    requires n <= |run.keys| == |run.retained| == |run.values|
    ensures |records| == n
  {
    if n == 0 then [] else FramesOf(run, n - 1) + [FrameOf(run, n - 1)]
  }

  function FrameOf(run: ColaSpec.Run, i: nat): FrontCoded
    requires i < |run.keys| == |run.retained| == |run.values|
  {
    var retained := Min(run.retained[i], |run.keys[i]|);
    FrontCoded(retained, run.keys[i][retained..], run.values[i])
  }

  function EntriesOfRun(run: ColaSpec.Run, n: nat): (entries: seq<KeyValue>)
    requires n <= |run.keys| == |run.values|
    ensures |entries| == n
  {
    if n == 0 then [] else EntriesOfRun(run, n - 1) + [KeyValue(run.keys[n - 1], run.values[n - 1])]
  }

  /** A native run over bytes whose values agree with the common width. */
  ghost predicate ByteRun(run: ColaSpec.Run, common: Option<nat>) {
    && ColaSpec.NativeRun(run)
    && forall i {:trigger run.keys[i]} {:trigger run.values[i]} | 0 <= i < |run.keys| ::
         IsBytes(run.keys[i]) && IsBytes(run.values[i]) && WidthAgrees(run.values[i], common)
  }

  /** The frames written so far rebuild the run's keys and accept the next frame. */
  ghost predicate FramesFit(run: ColaSpec.Run, common: Option<nat>, n: nat)
    requires n <= |run.keys| == |run.retained| == |run.values|
  {
    && WellFramed(FramesOf(run, n), common) && Decodes(FramesOf(run, n), EntriesOfRun(run, n))
    && KeyOf(FramesOf(run, n)) == (if n == 0 then [] else run.keys[n - 1])
  }

  lemma NextFits(run: ColaSpec.Run, common: Option<nat>, n: nat)
    requires ByteRun(run, common) && n < |run.keys| && FramesFit(run, common, n)
    ensures run.retained[n] <= |run.keys[n]| && Fits(FramesOf(run, n), FrameOf(run, n), common)
    ensures run.retained[n] <= Lcp(if n == 0 then [] else run.keys[n - 1], run.keys[n])
  {
    UnitsOfKey(FramesOf(run, n), common);
    hide WellFramed, Decodes, KeyOf, Units, FramesOf;
    if n > 0 { assert Lt(run.keys[n - 1], run.keys[n]); }
  }

  lemma FitNext(run: ColaSpec.Run, common: Option<nat>, n: nat)
    requires ByteRun(run, common) && n < |run.keys| && FramesFit(run, common, n)
    ensures FramesFit(run, common, n + 1)
  {
    NextFits(run, common, n);
    var records, record := FramesOf(run, n), FrameOf(run, n);
    hide Fits, Lcp, WellFramed, Decodes, ByteRun;
    FramedNext(records, record, common);
    KeyNext(records, run.keys[n], record.retained, record.value);
    DecodesNext(records, EntriesOfRun(run, n), record, run.keys[n]);
  }

  /** Every native run, in particular every merged one, is a well-framed record sequence that decodes to it. */
  lemma {:induction false} RunFrames(run: ColaSpec.Run, common: Option<nat>, n: nat)
    requires ByteRun(run, common) && n <= |run.keys|
    ensures FramesFit(run, common, n)
  {
    if n > 0 {
      RunFrames(run, common, n - 1);
      FitNext(run, common, n - 1);
    }
  }

  lemma RunDecodes(run: ColaSpec.Run, common: Option<nat>)
    requires ByteRun(run, common) && |run.keys| == |run.retained| == |run.values|
    ensures Decodes(FramesOf(run, |run.keys|), EntriesOfRun(run, |run.keys|))
  {
    RunFrames(run, common, |run.keys|);
  }

  lemma {:induction false} FramesPrefix(run: ColaSpec.Run, i: nat, n: nat)
    requires i <= n <= |run.keys| == |run.retained| == |run.values|
    ensures FramesOf(run, n)[..i] == FramesOf(run, i)
  {
    if i < n { FramesPrefix(run, i, n - 1); }
  }

  /** Frame n of the stream is record n of the run. */
  lemma StreamFrame(s: NativeStreams.Stream, run: ColaSpec.Run, n: nat)
    requires NativeStreams.Reads(s, run) && n < |run.keys| && run.retained[n] <= |run.keys[n]|
    ensures NativeStreams.InBounds(s, s.frames[n])
    ensures FrameOf(run, n) == FrontCoded(s.frames[n].retained, NativeStreams.Literal(s, s.frames[n]), s.frames[n].value)
  {
    assert NativeStreams.FrameReads(s, run, n);
    var f := s.frames[n];
    assert run.keys[n][f.retained..] == NativeStreams.Literal(s, f);
  }

  /** Too large for now is too large in the end. */
  lemma TooLong(run: ColaSpec.Run, W: nat, common: Option<nat>, n: nat)
    requires W > 0 && n <= |run.keys| == |run.retained| == |run.values|
    requires |Stream(FramesOf(run, n), W, common)| > MAX_BYTES
    ensures |Stream(FramesOf(run, |run.keys|), W, common)| > MAX_BYTES
  {
    FramesPrefix(run, n, |run.keys|);
    StreamPrefix(FramesOf(run, |run.keys|), n, W, common);
  }

  ghost predicate HasWritten(output: NativeOutput, run: ColaSpec.Run, n: nat)
    reads output
  {
    && output.Valid() && !output.finished
    && n <= |run.keys| == |run.retained| == |run.values| && output.records == FramesOf(run, n)
  }

  /** One frame of the stream, refused only for the size. */
  method WriteFrame(output: NativeOutput, s: NativeStreams.Stream, n: nat, ghost run: ColaSpec.Run) returns (ok: bool)
    requires HasWritten(output, run, n) && n < |s.frames| && NativeStreams.Reads(s, run) && ByteRun(run, output.common)
    modifies output
    ensures n < |run.keys| && output.W > 0
    ensures ok <==> |Stream(FramesOf(run, n + 1), output.W, output.common)| <= MAX_BYTES
    ensures ok ==> HasWritten(output, run, n + 1)
  {
    SameLength(s, run);
    RunFrames(run, output.common, n);
    NextFits(run, output.common, n);
    StreamFrame(s, run, n);
    FrameIsBytes(run, output.common, n);
    hide NativeStreams.Reads, ByteRun, Fits, Stream, FramesFit, WellFramed, Residuals;
    var f := s.frames[n];
    ok := output.Append(f.retained, NativeStreams.Literal(s, f), f.value);
  }

  lemma SameLength(s: NativeStreams.Stream, run: ColaSpec.Run)
    requires NativeStreams.Reads(s, run)
    ensures |s.frames| == |run.keys| == |run.retained| == |run.values|
  {
  }

  lemma NothingWritten(output: NativeOutput, run: ColaSpec.Run)
    requires output.Valid() && !output.finished && output.records == []
    requires |run.keys| == |run.retained| == |run.values|
    ensures HasWritten(output, run, 0)
  {
  }

  /** Appending a stream's frames one by one is refused only for its size. */
  method WriteStream(s: NativeStreams.Stream, W: nat, common: Option<nat>, ghost run: ColaSpec.Run)
    returns (out: Option<ProfileArray>)
    requires W > 0 && ByteRun(run, common) && NativeStreams.Reads(s, run)
    ensures out.Some? <==> |Stream(FramesOf(run, |run.keys|), W, common)| <= MAX_BYTES
    ensures out.Some? ==> HoldsRecords(out.value, FramesOf(run, |run.keys|))
                          && Decodes(FramesOf(run, |run.keys|), EntriesOfRun(run, |run.keys|))
  {
    hide NativeStreams.Reads, ByteRun, Stream, HasWritten, HoldsRecords, Decodes, WellFramed, FramesOf, EntriesOfRun,
      NativeOutput.Valid;
    SameLength(s, run);
    RunDecodes(run, common);
    var output := new NativeOutput(W, common);
    NothingWritten(output, run);
    for n := 0 to |s.frames|
      invariant fresh(output) && output.W == W && output.common == common && HasWritten(output, run, n)
    {
      var ok := WriteFrame(output, s, n, run);
      if !ok {
        TooLong(run, W, common, n + 1);
        return None;
      }
    }
    out := FinishStream(output, run);
  }

  method FinishStream(output: NativeOutput, ghost run: ColaSpec.Run) returns (out: Option<ProfileArray>)
    requires HasWritten(output, run, |run.keys|)
    modifies output
    ensures output.W > 0 && |Stream(FramesOf(run, |run.keys|), output.W, output.common)| <= MAX_BYTES
    ensures out.Some? && HoldsRecords(out.value, FramesOf(run, |run.keys|))
  {
    SizeHolds(output);
    hide HoldsRecords, Stream, WellFramed, Residuals;
    out := output.Finish();
  }

  lemma FrameIsBytes(run: ColaSpec.Run, common: Option<nat>, n: nat)
    requires ByteRun(run, common) && n < |run.keys|
    ensures IsBytes(FrameOf(run, n).literal) && IsBytes(FrameOf(run, n).value)
  {
  }

  lemma SizeHolds(output: NativeOutput)
    requires output.Valid() && !output.finished
    ensures output.W > 0 && |Stream(output.records, output.W, output.common)| <= MAX_BYTES
  {
  }
}
