/** Elias-Fano sequences (elias_fano::build, select, elias_fano_cursor): packed low fields, a unary high vector, and
    a directory of one sample per 256 ones that is dense or spelled out. */
module EliasFanos {
  import opened Options
  import opened Keys
  import opened ColaSpec
  import opened BitStrings
  import opened LowFields

  // ----- the high vector

  ghost predicate Monotone(source: seq<nat>) {
    forall i, j | 0 <= i <= j < |source| :: source[i] <= source[j]
  }

  /** Where entry i's one-bit stands. */
  function Position(source: seq<nat>, W: nat, i: nat): nat
    requires i < |source|
  {
    Shr(source[i], W) + i
  }

  /** Strictly increasing even for equal values. */
  lemma PositionsIncrease(source: seq<nat>, W: nat, i: nat, j: nat)
    requires Monotone(source) && i < j < |source|
    ensures Position(source, W, i) + (j - i) <= Position(source, W, j)
  {
    ShrMonotone(source[i], source[j], W);
  }

  /** One of the first n entries stands at p. */
  ghost predicate Marked(source: seq<nat>, W: nat, n: nat, p: nat)
    requires n <= |source|
  {
    exists i {:trigger Position(source, W, i)} | 0 <= i < n :: Position(source, W, i) == p
  }

  /** A word holds exactly the marks of the first n entries in its 64 positions. */
  ghost predicate WordHolds(value: Word, source: seq<nat>, W: nat, n: nat, word: nat)
    requires n <= |source|
  {
    forall k | 0 <= k < 64 :: value[k] <==> Marked(source, W, n, 64 * word + k)
  }

  ghost predicate HighExact(high: seq<Word>, source: seq<nat>, W: nat) {
    forall w | 0 <= w < |high| :: WordHolds(high[w], source, W, |source|, w)
  }

  function HighBits(source: seq<nat>, W: nat): nat {
    if source == [] then 0 else Shr(source[|source| - 1], W) + |source|
  }

  lemma PositionBound(source: seq<nat>, W: nat, i: nat)
    requires Monotone(source) && i < |source|
    ensures Position(source, W, i) < HighBits(source, W)
  {
    if i < |source| - 1 { PositionsIncrease(source, W, i, |source| - 1); }
  }

  lemma MarkedNext(source: seq<nat>, W: nat, n: nat, p: nat)
    requires n < |source|
    ensures Marked(source, W, n + 1, p) <==> Marked(source, W, n, p) || p == Position(source, W, n)
  {
  }

  /** Nothing marked so far stands at or above the next position. */
  lemma MarkedBelow(source: seq<nat>, W: nat, n: nat, p: nat)
    requires Monotone(source) && 0 < n <= |source| && Marked(source, W, n, p)
    ensures p <= Position(source, W, n - 1)
  {
    var i :| 0 <= i < n && Position(source, W, i) == p;
    if i < n - 1 { PositionsIncrease(source, W, i, n - 1); }
  }

  /** Before word `from` exactly the marks of the first n entries, from it on zero. */
  ghost predicate WrittenHigh(out: seq<Word>, source: seq<nat>, W: nat, n: nat, from: nat)
    requires n <= |source|
  {
    && from <= |out|
    && (forall w | 0 <= w < from :: WordHolds(out[w], source, W, n, w))
    && (forall w | from <= w < |out| :: out[w] == ZeroWord())
  }

  /** Marking an entry elsewhere does not change a word. */
  lemma MarkElsewhere(value: Word, source: seq<nat>, W: nat, n: nat, word: nat)
    requires n < |source| && WordHolds(value, source, W, n, word) && word < Position(source, W, n) / 64
    ensures WordHolds(value, source, W, n + 1, word)
  {
    forall k | 0 <= k < 64 ensures value[k] <==> Marked(source, W, n + 1, 64 * word + k) {
      MarkedNext(source, W, n, 64 * word + k);
    }
  }

  /** Words past the last mark hold nothing. */
  lemma NothingPast(source: seq<nat>, W: nat, n: nat, word: nat)
    requires Monotone(source) && n <= |source| && (n > 0 ==> Position(source, W, n - 1) < 64 * word)
    ensures WordHolds(ZeroWord(), source, W, n, word)
  {
    forall k | 0 <= k < 64 ensures ZeroWord()[k] <==> Marked(source, W, n, 64 * word + k) {
      if Marked(source, W, n, 64 * word + k) { MarkedBelow(source, W, n, 64 * word + k); }
    }
  }

  /** Storing the finished word and skipping to a later one leaves only zero gaps. */
  lemma FlushWord(out: seq<Word>, source: seq<nat>, W: nat, n: nat, word: nat, value: Word, next: nat)
    requires Monotone(source) && n <= |source| && word < next <= |out|
    requires WrittenHigh(out, source, W, n, word) && WordHolds(value, source, W, n, word)
    requires n > 0 ==> Position(source, W, n - 1) < 64 * (word + 1)
    ensures WrittenHigh(out[word := value], source, W, n, next)
    ensures WordHolds(ZeroWord(), source, W, n, next)
  {
    var after := out[word := value];
    forall w | 0 <= w < next ensures WordHolds(after[w], source, W, n, w) {
      if w > word { NothingPast(source, W, n, w); }
    }
    NothingPast(source, W, n, next);
  }

  /** `write_high`: accumulate each word locally and store it once; gaps stay zero. */
  method WriteHigh(source: seq<nat>, out: array<Word>, W: nat)
    requires Monotone(source) && out.Length == WordsFor(HighBits(source, W))
    requires forall w | 0 <= w < out.Length :: out[w] == ZeroWord()
    modifies out
    ensures HighExact(out[..], source, W)
  {
    hide Position, Marked, WordHolds;
    var word: nat, value: Word := 0, ZeroWord();
    NoneMarked(source, W, value, word);
    for i := 0 to |source|
      invariant WrittenHigh(out[..], source, W, i, word) && WordHolds(value, source, W, i, word)
      invariant i > 0 ==> word < out.Length && 64 * word <= Position(source, W, i - 1) < 64 * (word + 1)
      invariant i == 0 ==> word == 0
    {
      var position := HighPosition(source, W, i);
      var next := position / 64;
      if next != word {
        FlushWord(out[..], source, W, i, word, value, next);
        out[word] := value;
        word, value := next, ZeroWord();
      }
      forall w | 0 <= w < word ensures WordHolds(out[w], source, W, i + 1, w) {
        assert WordHolds(out[..][w], source, W, i, w);
        MarkElsewhere(out[w], source, W, i, w);
      }
      SetOne(source, W, i, word, value);
      value := SetBit(value, position % 64);
    }
    if |source| > 0 {
      out[word] := value;
      forall w | word < w < out.Length ensures WordHolds(out[w], source, W, |source|, w) {
        NothingPast(source, W, |source|, w);
      }
    }
  }

  method HighPosition(source: seq<nat>, W: nat, i: nat) returns (position: nat)
    requires Monotone(source) && i < |source|
    ensures position == Position(source, W, i) && position / 64 < WordsFor(HighBits(source, W))
    ensures i > 0 ==> position > Position(source, W, i - 1)
  {
    position := Shr(source[i], W) + i;
    PositionBound(source, W, i);
    if i > 0 { PositionsIncrease(source, W, i - 1, i); }
  }

  lemma NoneMarked(source: seq<nat>, W: nat, value: Word, word: nat)
    requires value == ZeroWord()
    ensures WordHolds(value, source, W, 0, word)
  {
  }

  lemma SetOne(source: seq<nat>, W: nat, n: nat, word: nat, value: Word)
    requires n < |source| && WordHolds(value, source, W, n, word) && Position(source, W, n) / 64 == word
    ensures WordHolds(SetBit(value, Position(source, W, n) % 64), source, W, n + 1, word)
  {
    var p := Position(source, W, n);
    forall k | 0 <= k < 64 ensures SetBit(value, p % 64)[k] <==> Marked(source, W, n + 1, 64 * word + k) {
      MarkedNext(source, W, n, 64 * word + k);
      assert value[k] <==> Marked(source, W, n, 64 * word + k);
    }
  }

  // ----- the directory

  /** `sparse` is empty for a dense group, and otherwise where the group's positions are spelled out. */
  datatype Sample = Sample(first: nat, sparse: Option<nat>)

  function GroupEnd(n: nat, g: nat): nat {
    Min(256 * g + 256, n)
  }

  /** These are the positions of the entries from `begin` on. */
  ghost predicate Spelled(part: seq<nat>, source: seq<nat>, W: nat, begin: nat)
    requires begin + |part| <= |source|
  {
    forall j | 0 <= j < |part| :: part[j] == Position(source, W, begin + j)
  }

  ghost predicate SampleOk(sample: Sample, sparse: seq<nat>, source: seq<nat>, W: nat, g: nat)
    requires 256 * g < |source|
  {
    var begin, end := 256 * g, GroupEnd(|source|, g);
    && sample.first == Position(source, W, begin)
    && (sample.sparse.None? <==> Position(source, W, end - 1) - sample.first < 4096)
    && (sample.sparse.Some? ==>
          && sample.sparse.value + (end - begin) <= |sparse|
          && Spelled(sparse[sample.sparse.value..sample.sparse.value + (end - begin)], source, W, begin))
  }

  ghost predicate DirectoryOk(samples: seq<Sample>, sparse: seq<nat>, source: seq<nat>, W: nat, groups: nat)
    requires groups > 0 ==> 256 * (groups - 1) < |source|
  {
    |samples| == groups && forall g | 0 <= g < groups :: SampleOk(samples[g], sparse, source, W, g)
  }

  /** Spelled-out groups span over 4096 bits each, so they stay below a sixteenth of the high vector. */
  method BuildDirectory(source: seq<nat>, W: nat) returns (samples: seq<Sample>, sparse: seq<nat>)
    requires Monotone(source) && |source| > 0
    ensures DirectoryOk(samples, sparse, source, W, (|source| + 255) / 256)
    ensures 16 * |sparse| < HighBits(source, W)
  {
    hide Position;
    samples, sparse := [], [];
    var n := |source|;
    while 256 * |samples| < n
      invariant |samples| > 0 ==> 256 * (|samples| - 1) < n
      invariant DirectoryOk(samples, sparse, source, W, |samples|)
      invariant 16 * |sparse| <= if samples == [] then 0 else Position(source, W, GroupEnd(n, |samples| - 1) - 1)
      decreases n - 256 * |samples|
    {
      var g := |samples|;
      var sample, more := SampleGroup(source, W, g, |sparse|);
      GroupSpan(source, W, g);
      forall x | 0 <= x < g ensures SampleOk(samples[x], sparse + more, source, W, x) {
        Extended(samples[x], sparse, more, source, W, x);
      }
      Placed(sample, sparse, more, source, W, g);
      samples, sparse := samples + [sample], sparse + more;
    }
    PositionBound(source, W, n - 1);
  }

  lemma GroupSpan(source: seq<nat>, W: nat, g: nat)
    requires Monotone(source) && 256 * g < |source|
    ensures g > 0 ==> Position(source, W, GroupEnd(|source|, g - 1) - 1) < Position(source, W, 256 * g)
    ensures Position(source, W, 256 * g) <= Position(source, W, GroupEnd(|source|, g) - 1)
  {
    if g > 0 { PositionsIncrease(source, W, 256 * g - 1, 256 * g); }
    if 256 * g < GroupEnd(|source|, g) - 1 { PositionsIncrease(source, W, 256 * g, GroupEnd(|source|, g) - 1); }
  }

  /** One directory entry and, for a wide group, its positions. */
  method SampleGroup(source: seq<nat>, W: nat, g: nat, at: nat) returns (sample: Sample, more: seq<nat>)
    requires 256 * g < |source|
    ensures sample.first == Position(source, W, 256 * g)
    ensures var end := GroupEnd(|source|, g);
            if Position(source, W, end - 1) - sample.first >= 4096 then
              sample.sparse == Some(at) && |more| == end - 256 * g && Spelled(more, source, W, 256 * g)
            else sample.sparse.None? && more == []
  {
    var begin := 256 * g;
    var end := if |source| - begin < 256 then |source| else begin + 256;
    var first, last := Shr(source[begin], W) + begin, Shr(source[end - 1], W) + end - 1;
    if last - first < 4096 { return Sample(first, None), []; }
    more := [];
    for i := begin to end
      invariant |more| == i - begin && Spelled(more, source, W, begin)
    {
      more := more + [Shr(source[i], W) + i];
    }
    sample := Sample(first, Some(at));
  }

  lemma Extended(sample: Sample, sparse: seq<nat>, more: seq<nat>, source: seq<nat>, W: nat, g: nat)
    requires 256 * g < |source| && SampleOk(sample, sparse, source, W, g)
    ensures SampleOk(sample, sparse + more, source, W, g)
  {
    if sample.sparse.Some? {
      var a := sample.sparse.value;
      var b := a + (GroupEnd(|source|, g) - 256 * g);
      assert (sparse + more)[a..b] == sparse[a..b];
    }
  }

  lemma Placed(sample: Sample, sparse: seq<nat>, more: seq<nat>, source: seq<nat>, W: nat, g: nat)
    requires 256 * g < |source| && sample.first == Position(source, W, 256 * g)
    requires var end := GroupEnd(|source|, g);
             if Position(source, W, end - 1) - sample.first >= 4096 then
               sample.sparse == Some(|sparse|) && |more| == end - 256 * g && Spelled(more, source, W, 256 * g)
             else sample.sparse.None?
    ensures SampleOk(sample, sparse + more, source, W, g)
  {
    assert (sparse + more)[|sparse|..|sparse| + |more|] == more;
  }

  // ----- building

  datatype EliasFano = EliasFano(low: seq<Word>, high: seq<Word>, samples: seq<Sample>, sparse: seq<nat>,
                                 count: nat, universe: nat, width: nat)

  const EmptyElias := EliasFano([], [], [], [], 0, 0, 0)

  /** The low width: the bit width of the mean gap, less one. */
  function LowWidth(universe: nat, n: nat): nat
    requires n > 0
  {
    if universe / n == 0 then 0 else Log2(universe / n)
  }

  ghost predicate Encodes(ef: EliasFano, source: seq<nat>) {
    && Monotone(source) && ef.count == |source|
    && (|source| == 0 ==> ef == EmptyElias)
    && (|source| > 0 ==>
          && ef.universe == source[|source| - 1] && ef.width == LowWidth(ef.universe, |source|) && ef.width < 64
          && LowExact(ef.low, Fields(source, ef.width))
          && |ef.high| == WordsFor(HighBits(source, ef.width)) && HighExact(ef.high, source, ef.width)
          && DirectoryOk(ef.samples, ef.sparse, source, ef.width, (|source| + 255) / 256))
  }

  /** The section extents the original refuses: they would not fit 64-bit arithmetic with room to round. */
  predicate TooLarge(n: nat, universe: nat)
    requires n > 0
  {
    var maximum, W := 0xFFFF_FFFF_FFFF_FF00, LowWidth(universe, n);
    n > maximum || Times(n, W) > maximum || Shr(universe, W) > maximum - n
  }

  /** The width is the binary logarithm of the mean gap, and what is refused is what the widths do not leave room for. */
  lemma TooLargeIs(n: nat, universe: nat)
    requires n > 0
    ensures var W := LowWidth(universe, n);
            && (if universe < n then W == 0 else Pow2(W) <= universe / n < 2 * Pow2(W))
            && (TooLarge(n, universe) <==> n * W > 0xFFFF_FFFF_FFFF_FF00 || universe / Pow2(W) + n > 0xFFFF_FFFF_FFFF_FF00)
  {
    hide Pow2, Log2, Shr, Times;
    var W := LowWidth(universe, n);
    MeanGap(universe, n);
    if universe >= n { Log2Is(universe / n); }
    TimesIs(n, W);
    ShrIs(universe, W);
  }

  lemma MeanGap(universe: nat, n: nat)
    requires n > 0
    ensures universe / n == 0 <==> universe < n
  {
    if universe < n { Quotient(universe, 0, n, universe); }
  }

  lemma {:induction false} Adjacent(source: seq<nat>, i: nat, j: nat)
    requires i <= j < |source| && forall x | 0 < x < |source| :: source[x - 1] <= source[x]
    ensures source[i] <= source[j]
    decreases j
  {
    if i < j { Adjacent(source, i, j - 1); }
  }

  method CheckMonotone(source: seq<nat>) returns (ok: bool)
    ensures ok <==> Monotone(source)
  {
    if |source| < 2 { return true; }
    for i := 1 to |source|
      invariant forall x | 0 < x < i :: source[x - 1] <= source[x]
    {
      if source[i] < source[i - 1] {
        assert !(source[i - 1] <= source[i]);
        return false;
      }
    }
    forall i, j | 0 <= i <= j < |source| ensures source[i] <= source[j] { Adjacent(source, i, j); }
    return true;
  }

  lemma WidthFits(universe: nat, n: nat)
    requires n > 0 && universe < Pow2(64)
    ensures LowWidth(universe, n) < 64
  {
    var q := universe / n;
    if q > 0 {
      assert q <= universe by { assert universe == q * n + universe % n; AtLeastOne(q, n); }
      Log2Bound(q, 64);
    }
  }

  lemma AtLeastOne(q: nat, n: nat)
    requires n > 0
    ensures q <= q * n
  {
  }

  /** `build`: refuses what is not nondecreasing or too large; otherwise all four sections are exact. */
  method Build(source: seq<nat>) returns (result: Option<EliasFano>)
    requires forall v | v in source :: v < Pow2(64)
    ensures result.Some? <==> Monotone(source) && (|source| > 0 ==> !TooLarge(|source|, source[|source| - 1]))
    ensures result.Some? ==> Encodes(result.value, source)
    ensures result.Some? && |source| > 0 ==> 16 * |result.value.sparse| < HighBits(source, result.value.width)
  {
    if |source| == 0 { return Some(EmptyElias); }
    var ok := CheckMonotone(source);
    if !ok { return None; }
    var n, universe := |source|, source[|source| - 1];
    if TooLarge(n, universe) { return None; }
    var W := LowWidth(universe, n);
    assert universe in source;
    WidthFits(universe, n);
    hide LowWidth, Monotone, Fields, Pow2, TooLarge;
    var low := new Word[WordsFor(Times(n, W))](_ => ZeroWord());
    var high := new Word[WordsFor(HighBits(source, W))](_ => ZeroWord());
    PackLow(source, low, W);
    WriteHigh(source, high, W);
    var samples, sparse := BuildDirectory(source, W);
    result := Some(EliasFano(low[..], high[..], samples, sparse, n, universe, W));
  }

  /** The high vector of n values has fewer than 3n bits. */
  lemma HighIsShort(source: seq<nat>)
    requires Monotone(source) && |source| > 0
    ensures HighBits(source, LowWidth(source[|source| - 1], |source|)) < 3 * |source|
  {
    var n, universe := |source|, source[|source| - 1];
    var q := universe / n;
    assert universe == q * n + universe % n;
    TimesIs(q + 1, n);
    assert (q + 1) * n == q * n + n;
    if q > 0 { ShortHigh(universe, q, n); }
  }

  lemma {:induction false} ShortHigh(u: nat, q: nat, n: nat)
    requires q > 0 && u < Times(q + 1, n)
    ensures Shr(u, Log2(q)) < 2 * n
  {
    if q > 1 {
      TimesMonotone(q + 1, 2 * (q / 2 + 1), n);
      TimesTwice(q / 2 + 1, n);
      ShortHigh(u / 2, q / 2, n);
    } else {
      assert Times(2, n) == Times(1, n) + n == Times(0, n) + n + n;
    }
  }
}
