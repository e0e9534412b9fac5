/** Encoded native streams and the fragments that read them (encoded_source). */
module NativeStreams {
  // A frame keeps `retained` units of the preceding key and points at its literal in one immutable backing. A cursor
  // never rebuilds a key: it keeps the current key as a stack of literal fragments, and compares the next key with
  // it fragment by fragment.

  import opened Options
  import opened Keys
  import opened Frontier
  import opened ColaSpec

  datatype Frame = Frame(retained: nat, units: nat, at: nat, value: Value)

  datatype Stream = Stream(data: seq<nat>, frames: seq<Frame>)

  predicate InBounds(s: Stream, f: Frame) {
    f.retained <= f.units && f.at + (f.units - f.retained) <= |s.data|
  }

  function Literal(s: Stream, f: Frame): (literal: seq<nat>)
    requires InBounds(s, f)
    ensures |literal| == f.units - f.retained
  {
    s.data[f.at..f.at + (f.units - f.retained)]
  }

  /** Frame i spells key i given its predecessor. */
  ghost predicate FrameReads(s: Stream, run: Run, i: nat)
    requires i < |s.frames| && i < |run.keys| && i < |run.retained| && i < |run.values|
  {
    var f := s.frames[i];
    && InBounds(s, f)
    && f.retained == run.retained[i] && f.units == |run.keys[i]| && f.value == run.values[i]
    && run.keys[i] == run.keys[i][..f.retained] + Literal(s, f)
  }

  ghost predicate Reads(s: Stream, run: Run) {
    && Framed(run) && |s.frames| == |run.keys|
    && forall i | 0 <= i < |s.frames| :: FrameReads(s, run, i)
  }

  /** Sequential decoding: a prefix of the preceding key, then the literal. */
  function KeyOf(s: Stream, i: nat): Key
    requires i < |s.frames| && forall x | 0 <= x <= i :: InBounds(s, s.frames[x])
  {
    var before: Key := if i == 0 then [] else KeyOf(s, i - 1);
    before[..Min(s.frames[i].retained, |before|)] + Literal(s, s.frames[i])
  }

  lemma {:induction false} ReadsKey(s: Stream, run: Run, i: nat)
    requires Reads(s, run) && i < |run.keys|
    ensures forall x | 0 <= x <= i :: InBounds(s, s.frames[x])
    ensures KeyOf(s, i) == run.keys[i]
  {
    forall x | 0 <= x <= i ensures InBounds(s, s.frames[x]) { assert FrameReads(s, run, x); }
    assert FrameReads(s, run, i);
    if i > 0 {
      ReadsKey(s, run, i - 1);
      LcpIs(run.keys[i - 1], run.keys[i]);
      assert run.keys[i - 1][..s.frames[i].retained] == run.keys[i][..s.frames[i].retained];
    }
  }

  predicate Sound(s: Stream) {
    forall x | 0 <= x < |s.frames| :: InBounds(s, s.frames[x])
  }

  function ReadRun(s: Stream): Run
    requires Sound(s)
  {
    Run(seq(|s.frames|, i requires 0 <= i < |s.frames| => KeyOf(s, i)),
        seq(|s.frames|, i requires 0 <= i < |s.frames| => s.frames[i].retained),
        seq(|s.frames|, i requires 0 <= i < |s.frames| => s.frames[i].value))
  }

  /** A stream spells exactly one run, and decoding finds it. */
  lemma DecodesTo(s: Stream, run: Run)
    requires Reads(s, run)
    ensures Sound(s) && ReadRun(s) == run
  {
    forall i | 0 <= i < |s.frames|
      ensures InBounds(s, s.frames[i])
      ensures s.frames[i].retained == run.retained[i] && s.frames[i].value == run.values[i]
    { assert FrameReads(s, run, i); }
    var read := ReadRun(s);
    forall i | 0 <= i < |s.frames| ensures read.keys[i] == run.keys[i] { ReadsKey(s, run, i); }
    assert read.keys == run.keys && read.retained == run.retained && read.values == run.values;
  }

  function Extend(s: Stream, retained: nat, literal: seq<nat>, value: Value): Stream {
    Stream(s.data + literal, s.frames + [Frame(retained, retained + |literal|, |s.data|, value)])
  }

  function Appended(run: Run, key: Key, retained: nat, value: Value): Run {
    Run(run.keys + [key], run.retained + [retained], run.values + [value])
  }

  /** The preceding key, or the empty key before the first record. */
  function LastKey(run: Run): Key {
    if run.keys == [] then [] else run.keys[|run.keys| - 1]
  }

  lemma ExtendReads(s: Stream, run: Run, key: Key, retained: nat, value: Value)
    requires Reads(s, run) && retained <= Lcp(LastKey(run), key)
    ensures Reads(Extend(s, retained, key[retained..], value), Appended(run, key, retained, value))
  {
    var t, longer := Extend(s, retained, key[retained..], value), Appended(run, key, retained, value);
    var n := |s.frames|;
    forall i | 0 <= i < n ensures FrameReads(t, longer, i) {
      assert FrameReads(s, run, i);
      assert Literal(t, t.frames[i]) == Literal(s, s.frames[i]);
    }
    assert Literal(t, t.frames[n]) == key[retained..];
    assert FrameReads(t, longer, n);
    forall i | 0 < i < |longer.keys| ensures longer.retained[i] <= Lcp(longer.keys[i - 1], longer.keys[i]) {
      if i < n { assert longer.keys[i - 1] == run.keys[i - 1] && longer.keys[i] == run.keys[i]; }
    }
  }

  /** Every run has a stream: its literals end to end. */
  function Layout(run: Run, n: nat): Stream
    requires n <= |run.keys| == |run.retained| == |run.values|
  {
    if n == 0 then Stream([], [])
    else
      var r := Min(run.retained[n - 1], |run.keys[n - 1]|);
      Extend(Layout(run, n - 1), r, run.keys[n - 1][r..], run.values[n - 1])
  }

  lemma LastShares(run: Run, i: nat)
    requires Framed(run) && i < |run.keys|
    ensures run.retained[i] <= |run.keys[i]|
    ensures run.retained[i] <= Lcp(if i == 0 then [] else run.keys[i - 1], run.keys[i])
  {
  }

  lemma {:induction false} LayoutReads(run: Run, n: nat)
    requires Framed(run) && n <= |run.keys|
    ensures Reads(Layout(run, n), Part(run, n))
    ensures n == |run.keys| ==> Reads(Layout(run, n), run)
  {
    if n > 0 {
      LayoutReads(run, n - 1);
      LastShares(run, n - 1);
      PartNext(run, n - 1);
      hide Reads, Framed;
      ExtendReads(Layout(run, n - 1), Part(run, n - 1), run.keys[n - 1], run.retained[n - 1], run.values[n - 1]);
    } else {
      NothingReads(run);
    }
    if n == |run.keys| { assert Part(run, n) == run; }
  }

  /** The first n records. */
  function Part(run: Run, n: nat): Run
    requires n <= |run.keys| == |run.retained| == |run.values|
  {
    Run(run.keys[..n], run.retained[..n], run.values[..n])
  }

  lemma NothingReads(run: Run)
    requires Framed(run)
    ensures Reads(Stream([], []), Part(run, 0))
  {
  }

  lemma PartNext(run: Run, n: nat)
    requires n < |run.keys| == |run.retained| == |run.values|
    ensures Part(run, n + 1) == Appended(Part(run, n), run.keys[n], run.retained[n], run.values[n])
    ensures LastKey(Part(run, n)) == if n == 0 then [] else run.keys[n - 1]
  {
  }

  // ----- the fragment stack

  /** A literal fragment that spells the key from the previous fragment's end up to `end`. */
  datatype Span = Span(at: nat, end: nat)

  function Begin(spans: seq<Span>, k: nat): nat
    requires k <= |spans|
  {
    if k == 0 then 0 else spans[k - 1].end
  }

  predicate Spells(span: Span, begin: nat, data: seq<nat>, key: Key) {
    && begin < span.end <= |key| && span.at + (span.end - begin) <= |data|
    && data[span.at..span.at + (span.end - begin)] == key[begin..span.end]
  }

  predicate SpellsAt(spans: seq<Span>, k: nat, data: seq<nat>, key: Key)
    requires k < |spans|
  {
    Spells(spans[k], Begin(spans, k), data, key)
  }

  /** The fragments concatenate to the key's first `units` units, with strictly increasing ends. */
  ghost predicate Covers(spans: seq<Span>, data: seq<nat>, key: Key, units: nat) {
    && units == Begin(spans, |spans|) <= |key|
    && forall k {:trigger SpellsAt(spans, k, data, key)} | 0 <= k < |spans| :: SpellsAt(spans, k, data, key)
  }

  lemma CoversPrefix(spans: seq<Span>, data: seq<nat>, key: Key, units: nat, m: nat)
    requires Covers(spans, data, key, units) && m <= |spans|
    ensures Covers(spans[..m], data, key, Begin(spans, m))
  {
    forall k | 0 <= k < m ensures SpellsAt(spans[..m], k, data, key) {
      assert SpellsAt(spans, k, data, key);
    }
    if m > 0 { assert SpellsAt(spans, m - 1, data, key); }
  }

  lemma CoversOther(spans: seq<Span>, data: seq<nat>, key: Key, other: Key, units: nat)
    requires Covers(spans, data, key, units) && units <= |other| && key[..units] == other[..units]
    ensures Covers(spans, data, other, units)
  {
    forall k | 0 <= k < |spans| ensures SpellsAt(spans, k, data, other) {
      EndsIncrease(spans, data, key, units, k);
      assert SpellsAt(spans, k, data, key);
      var b, e := Begin(spans, k), spans[k].end;
      assert key[b..e] == key[..units][b..e] && other[b..e] == other[..units][b..e];
    }
  }

  lemma {:induction false} EndsIncrease(spans: seq<Span>, data: seq<nat>, key: Key, units: nat, k: nat)
    requires Covers(spans, data, key, units) && k < |spans|
    ensures spans[k].end <= units
    decreases |spans| - k
  {
    if k + 1 < |spans| {
      assert SpellsAt(spans, k + 1, data, key);
      EndsIncrease(spans, data, key, units, k + 1);
    }
  }

  /** Cut the stack back to its first `retained` units. Returns how many fragments were removed for good. */
  method Truncate(spans: seq<Span>, retained: nat, ghost data: seq<nat>, ghost key: Key)
    returns (kept: seq<Span>, ghost pops: nat)
    requires Covers(spans, data, key, |key|) && retained <= |key|
    ensures Covers(kept, data, key, retained) && |kept| + pops == |spans|
  {
    kept, pops := spans, 0;
    assert spans[..|spans|] == spans;
    while kept != []
      invariant |kept| <= |spans| && kept == spans[..|kept|] && |kept| + pops == |spans|
      invariant Begin(spans, |kept|) >= retained
      decreases |kept|
    {
      var last := |kept| - 1;
      var begin := if last > 0 then kept[last - 1].end else 0;
      if begin < retained {
        CoversPrefix(spans, data, key, |key|, last);
        assert SpellsAt(spans, last, data, key);
        if kept[last].end > retained {
          kept := kept[last := Span(kept[last].at, retained)];
        }
        TopSpan(spans, data, key, last, retained, kept);
        return;
      }
      kept, pops := kept[..last], pops + 1;
    }
  }

  lemma TopSpan(spans: seq<Span>, data: seq<nat>, key: Key, last: nat, retained: nat, kept: seq<Span>)
    requires last < |spans| && Begin(spans, last) < retained <= spans[last].end
    requires Covers(spans[..last], data, key, Begin(spans, last))
    requires Spells(spans[last], Begin(spans, last), data, key)
    requires kept == spans[..last] + [Span(spans[last].at, retained)]
    ensures Covers(kept, data, key, retained)
  {
    var b, at := Begin(spans, last), spans[last].at;
    forall k | 0 <= k < |kept| ensures SpellsAt(kept, k, data, key) {
      if k < last {
        assert SpellsAt(spans[..last], k, data, key);
      } else {
        var whole := data[at..at + (spans[last].end - b)];
        assert whole[..retained - b] == data[at..at + (retained - b)];
        assert key[b..spans[last].end][..retained - b] == key[b..retained];
      }
    }
  }

  /** `retain`: replace everything past the frame's retained prefix by its literal. */
  method Retain(spans: seq<Span>, s: Stream, f: Frame, ghost key: Key, ghost next: Key)
    returns (kept: seq<Span>, ghost pops: nat)
    requires InBounds(s, f) && f.retained <= |key| && f.units == |next|
    requires Covers(spans, s.data, key, |key|)
    requires next == key[..f.retained] + Literal(s, f)
    ensures Covers(kept, s.data, next, |next|)
    ensures |kept| + pops <= |spans| + 1
  {
    kept, pops := Truncate(spans, f.retained, s.data, key);
    CoversOther(kept, s.data, key, next, f.retained);
    if f.units > f.retained {
      Pushed(kept, s.data, next, f.retained, Span(f.at, f.units));
      kept := kept + [Span(f.at, f.units)];
    }
  }

  lemma Pushed(spans: seq<Span>, data: seq<nat>, key: Key, units: nat, span: Span)
    requires Covers(spans, data, key, units) && Spells(span, units, data, key)
    ensures Covers(spans + [span], data, key, span.end)
  {
    forall k | 0 <= k < |spans| + 1 ensures SpellsAt(spans + [span], k, data, key) {
      if k < |spans| { assert SpellsAt(spans, k, data, key); }
    }
  }

  /** `materialize`: copy the fragments in order. */
  method Materialize(spans: seq<Span>, data: seq<nat>, ghost key: Key) returns (result: Key)
    requires Covers(spans, data, key, |key|)
    ensures result == key
  {
    result := [];
    var begin := 0;
    for k := 0 to |spans|
      invariant begin == Begin(spans, k) == |result| <= |key| && result == key[..begin]
    {
      assert SpellsAt(spans, k, data, key);
      result := result + data[spans[k].at..spans[k].at + (spans[k].end - begin)];
      begin := spans[k].end;
    }
  }

  /** The fragment where the retained prefix ends: everything below it survives. */
  method FirstCrossed(spans: seq<Span>, retained: nat, ghost data: seq<nat>, ghost key: Key) returns (first: nat)
    requires Covers(spans, data, key, |key|) && retained <= |key|
    ensures first <= |spans| && Begin(spans, first) <= retained
    ensures first < |spans| ==> retained < spans[first].end
    ensures first == |spans| ==> retained == |key|
  {
    first := |spans|;
    while first > 0 && spans[first - 1].end > retained
      invariant first <= |spans| && (first < |spans| ==> retained < spans[first].end)
    {
      first := first - 1;
    }
  }

  /** `compare_successor`: the exact common prefix and order of the current key with its successor, read from
      fragments and literal alone. */
  method CompareSuccessor(spans: seq<Span>, data: seq<nat>, retained: nat, suffix: seq<nat>, ghost key: Key)
    returns (c: Comparison)
    requires Covers(spans, data, key, |key|) && retained <= |key|
    ensures c == Compare(key, key[..retained] + suffix)
  {
    ghost var next := key[..retained] + suffix;
    assert next[retained..] == suffix && next[..retained] == key[..retained];
    SuffixOrder(key, next, retained);
    var first := FirstCrossed(spans, retained, data, key);
    if first < |spans| && suffix != [] {
      var begin := if first > 0 then spans[first - 1].end else 0;
      assert SpellsAt(spans, first, data, key);
      FragmentUnit(spans[first], begin, data, key, retained);
      var before, after := data[spans[first].at + (retained - begin)], suffix[0];
      if before != after {
        LcpUnique(key[retained..], suffix, 0);
        return Comparison(retained, if before < after then -1 else 1);
      }
    }
    c := WalkFragments(spans, data, retained, suffix, first, key);
  }

  lemma FragmentUnit(span: Span, begin: nat, data: seq<nat>, key: Key, position: nat)
    requires Spells(span, begin, data, key) && begin <= position < span.end
    ensures span.at + (position - begin) < |data| && data[span.at + (position - begin)] == key[position]
  {
    assert data[span.at..span.at + (span.end - begin)][position - begin] == key[begin..span.end][position - begin];
  }

  lemma SubSlice(s: seq<nat>, first: nat, last: nat, offset: nat, count: nat)
    requires first <= last <= |s| && offset + count <= last - first
    ensures s[first..last][offset..offset + count] == s[first + offset..first + offset + count]
  {
    var a, b := s[first..last][offset..offset + count], s[first + offset..first + offset + count];
    assert |a| == |b| && forall i | 0 <= i < count :: a[i] == b[i];
  }

  lemma FragmentPart(span: Span, begin: nat, data: seq<nat>, key: Key, position: nat, count: nat)
    requires Spells(span, begin, data, key) && begin <= position && position + count <= span.end
    ensures span.at + (position - begin) + count <= |data|
    ensures data[span.at + (position - begin)..span.at + (position - begin) + count] == key[position..position + count]
  {
    SubSlice(data, span.at, span.at + (span.end - begin), position - begin, count);
    SubSlice(key, begin, span.end, position - begin, count);
  }

  /** Agreeing on a first part, two strings are compared by what follows; a difference in a part decides. */
  lemma PartDecides(a: Key, b: Key, from: nat, count: nat)
    requires from <= Lcp(a, b) && from + count <= |a| && from + count <= |b|
    ensures var part := Compare(a[from..from + count], b[from..from + count]);
            if part.order == 0 then from + count <= Lcp(a, b)
            else Compare(a, b) == Comparison(from + part.common, part.order)
  {
    var x, y := a[from..from + count], b[from..from + count];
    LcpIs(a, b);
    LcpIs(x, y);
    OrderZero(x, y);
    var c := Lcp(x, y);
    forall i | 0 <= i < from + c ensures a[i] == b[i] {
      if i >= from { assert x[i - from] == y[i - from]; }
    }
    if Order(x, y) != 0 {
      assert c < count && x[c] == a[from + c] && y[c] == b[from + c];
      LcpUnique(a, b, from + c);
    }
  }

  lemma LcpAtLeast(a: Key, b: Key, n: nat)
    requires n <= |a| && n <= |b| && a[..n] == b[..n]
    ensures n <= Lcp(a, b)
  {
    SuffixOrder(a, b, n);
  }

  lemma Exhausted(a: Key, b: Key, n: nat)
    requires n <= Lcp(a, b) && (n == |a| || n == |b|)
    ensures Compare(a, b) == Comparison(n, if |a| < |b| then -1 else if |a| > |b| then 1 else 0)
  {
  }

  method CompareFragment(span: Span, begin: nat, data: seq<nat>, position: nat, count: nat, retained: nat,
                         suffix: seq<nat>, compared: nat, ghost key: Key)
    returns (part: Comparison)
    requires Spells(span, begin, data, key) && begin <= position && position + count <= span.end
    requires retained <= |key| && position == retained + compared && compared + count <= |suffix|
    requires position <= Lcp(key, key[..retained] + suffix)
    ensures var next := key[..retained] + suffix;
            if part.order == 0 then position + count <= Lcp(key, next)
            else Compare(key, next) == Comparison(position + part.common, part.order)
  {
    var offset := span.at + (position - begin);
    FragmentPart(span, begin, data, key, position, count);
    part := Compare(data[offset..offset + count], suffix[compared..compared + count]);
    ghost var next := key[..retained] + suffix;
    assert next[position..position + count] == suffix[compared..compared + count];
    PartDecides(key, next, position, count);
  }

  method WalkFragments(spans: seq<Span>, data: seq<nat>, retained: nat, suffix: seq<nat>, start: nat, ghost key: Key)
    returns (c: Comparison)
    requires Covers(spans, data, key, |key|) && retained <= |key|
    requires start <= |spans| && Begin(spans, start) <= retained
    requires start < |spans| ==> retained < spans[start].end
    requires start == |spans| ==> retained == |key|
    ensures c == Compare(key, key[..retained] + suffix)
  {
    ghost var next := key[..retained] + suffix;
    LcpAtLeast(key, next, retained);
    var first: nat, position: nat, compared: nat := start, retained, 0;
    var begin := if first > 0 then spans[first - 1].end else 0;
    while first < |spans| && compared < |suffix|
      invariant start <= first <= |spans| && begin == Begin(spans, first)
      invariant compared <= |suffix| && retained + compared <= Lcp(key, next)
      invariant compared < |suffix| ==> position == retained + compared && begin <= position
      invariant compared < |suffix| && first < |spans| ==> position < spans[first].end
      invariant compared < |suffix| && first == |spans| ==> position == |key|
      decreases |spans| - first
    {
      assert SpellsAt(spans, first, data, key);
      var count := Min(spans[first].end - position, |suffix| - compared);
      var part := CompareFragment(spans[first], begin, data, position, count, retained, suffix, compared, key);
      if part.order != 0 {
        return Comparison(retained + compared + part.common, part.order);
      }
      if first + 1 < |spans| { assert SpellsAt(spans, first + 1, data, key); }
      compared := compared + count;
      position := spans[first].end;
      begin := position;
      first := first + 1;
    }
    Exhausted(key, next, retained + compared);
    var total := if |spans| == 0 then 0 else spans[|spans| - 1].end;
    var remaining := total - retained;
    c := Comparison(retained + compared, if remaining < |suffix| then -1 else if remaining > |suffix| then 1 else 0);
  }

  datatype Advanced = Ended | Moved(comparison: Comparison) | Unsorted

  /** A cursor: the current record and the fragments of its key. */
  datatype Cursor = Cursor(ordinal: nat, spans: seq<Span>)

  /** The stack spells exactly the current key. */
  ghost predicate CursorAt(s: Stream, run: Run, c: Cursor) {
    && Reads(s, run) && c.ordinal <= |s.frames|
    && (c.ordinal < |s.frames| ==> Covers(c.spans, s.data, run.keys[c.ordinal], |run.keys[c.ordinal]|))
  }

  method OpenCursor(s: Stream, ghost run: Run) returns (c: Cursor)
    requires Reads(s, run)
    ensures CursorAt(s, run, c) && c.ordinal == 0
    ensures |c.spans| <= Min(1, |s.frames|)
  {
    if |s.frames| == 0 { return Cursor(0, []); }
    assert FrameReads(s, run, 0);
    var spans, _ := Retain([], s, s.frames[0], [], run.keys[0]);
    c := Cursor(0, spans);
  }

  /** `advance_comparison`: the exact common prefix and order of adjacent keys, rebuilding neither. Input that is
      not strictly sorted is detected exactly where it happens. */
  method MoveCursor(s: Stream, c: Cursor, ghost run: Run) returns (result: Advanced, next: Cursor, ghost pops: nat)
    requires CursorAt(s, run, c) && c.ordinal < |s.frames|
    ensures next.ordinal == c.ordinal + 1
    ensures result.Ended? <==> next.ordinal == |run.keys|
    ensures next.ordinal < |run.keys| ==>
              (result.Unsorted? <==> Order(run.keys[c.ordinal], run.keys[next.ordinal]) >= 0)
    ensures result.Moved? ==> result.comparison == Compare(run.keys[c.ordinal], run.keys[next.ordinal])
    ensures !result.Unsorted? ==> CursorAt(s, run, next)
    ensures |next.spans| + pops <= |c.spans| + (if result.Moved? then 1 else 0)
  {
    if c.ordinal + 1 == |s.frames| { return Ended, Cursor(c.ordinal + 1, c.spans), 0; }
    var f := s.frames[c.ordinal + 1];
    ghost var key, following := run.keys[c.ordinal], run.keys[c.ordinal + 1];
    assert FrameReads(s, run, c.ordinal + 1);
    LcpIs(key, following);
    assert key[..f.retained] == following[..f.retained];
    var comparison := CompareSuccessor(c.spans, s.data, f.retained, Literal(s, f), key);
    if comparison.order >= 0 { return Unsorted, Cursor(c.ordinal + 1, c.spans), 0; }
    var spans;
    spans, pops := Retain(c.spans, s, f, key, following);
    return Moved(comparison), Cursor(c.ordinal + 1, spans), pops;
  }

  /** The source object. `run` is what the stream spells; `pops` counts fragments removed for good. */
  class EncodedSource {
    const stream: Stream
    ghost const run: Run
    var cursor: Cursor
    var failed: bool
    ghost var pops: nat

    /** Every fragment is pushed once per record read, so removals never exceed the records read. */
    ghost predicate Valid()
      reads this
    {
      && CursorAt(stream, run, cursor)
      && pops + |cursor.spans| <= Min(cursor.ordinal + 1, |stream.frames|)
    }

    constructor (s: Stream, ghost spelled: Run)
      requires Reads(s, spelled)
      ensures Valid() && !failed && stream == s && run == spelled && cursor.ordinal == 0 && pops == 0
    {
      stream, run, pops, failed := s, spelled, 0, false;
      var first := OpenCursor(s, spelled);
      cursor := first;
    }

    predicate Done()
      reads this
    {
      cursor.ordinal == |stream.frames|
    }

    method AdvanceComparison() returns (result: Advanced)
      requires Valid() && !failed && !Done()
      modifies this
      ensures failed <==> result.Unsorted?
      ensures !failed ==> Valid()
      ensures cursor.ordinal == old(cursor.ordinal) + 1
      ensures result.Ended? <==> cursor.ordinal == |run.keys|
      ensures cursor.ordinal < |run.keys| ==>
                (failed <==> Order(run.keys[cursor.ordinal - 1], run.keys[cursor.ordinal]) >= 0)
      ensures result.Moved? ==> result.comparison == Compare(run.keys[cursor.ordinal - 1], run.keys[cursor.ordinal])
    {
      var next;
      ghost var removed;
      result, next, removed := MoveCursor(stream, cursor, run);
      cursor := next;
      pops := pops + removed;
      failed := result.Unsorted?;
    }
  }
}
