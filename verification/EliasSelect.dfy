/** Reading Elias-Fano sequences: selection through the dense and sparse directory, and forward cursors. No corruption
    check can fire on what `build` produced. */
module EliasSelect {
  import opened Options
  import opened Keys
  import opened ColaSpec
  import opened BitStrings
  import opened LowFields
  import opened EliasFanos
  import opened WordBits

  // ----- counting set bits

  /** Exactly the first c entries stand below p. */
  ghost predicate Cut(source: seq<nat>, W: nat, p: nat, c: nat) {
    && c <= |source| && (c > 0 ==> Position(source, W, c - 1) < p) && (c < |source| ==> p <= Position(source, W, c))
  }

  lemma MarkedAtCut(source: seq<nat>, W: nat, p: nat, c: nat)
    requires Monotone(source) && Cut(source, W, p, c)
    ensures Marked(source, W, |source|, p) <==> c < |source| && Position(source, W, c) == p
    ensures Cut(source, W, p + 1, if Marked(source, W, |source|, p) then c + 1 else c)
  {
    if Marked(source, W, |source|, p) {
      var i :| 0 <= i < |source| && Position(source, W, i) == p;
      if i < c && i < c - 1 { PositionsIncrease(source, W, i, c - 1); }
      if i > c { PositionsIncrease(source, W, c, i); }
    }
    if c + 1 < |source| { PositionsIncrease(source, W, c, c + 1); }
  }

  /** The set bits of a masked word below k count entries. */
  lemma {:induction false} CountCut(value: Word, source: seq<nat>, W: nat, word: nat, from: nat, c: nat, k: nat)
    requires Monotone(source) && WordHolds(value, source, W, |source|, word) && from <= k <= 64
    requires Cut(source, W, 64 * word + from, c)
    ensures Cut(source, W, 64 * word + k, c + PopCount(MaskFrom(value, from)[..k]))
  {
    var masked := MaskFrom(value, from);
    if k == from {
      LowClear(masked, from);
    } else {
      CountCut(value, source, W, word, from, c, k - 1);
      PopNext(masked, k - 1);
      hide PopCount;
      MarkedAtCut(source, W, 64 * word + k - 1, c + PopCount(masked[..k - 1]));
      assert masked[k - 1] == value[k - 1];
    }
  }

  lemma {:induction false} LowClear(word: Word, n: nat)
    requires n <= 64 && forall k | 0 <= k < n :: !word[k]
    ensures PopCount(word[..n]) == 0
  {
    if n > 0 {
      assert word[..n] == word[..n - 1] + [word[n - 1]];
      LowClear(word, n - 1);
    }
  }

  /** Set bits of a section. */
  function Ones(words: seq<Word>): nat {
    if words == [] then 0 else Ones(words[..|words| - 1]) + PopCount(words[|words| - 1])
  }

  /** The ones of the first w high words are the entries that stand there. */
  lemma {:induction false} OnesBelow(high: seq<Word>, source: seq<nat>, W: nat, w: nat)
    requires Monotone(source) && HighExact(high, source, W) && w <= |high|
    ensures Cut(source, W, 64 * w, Ones(high[..w]))
  {
    if w > 0 {
      OnesBelow(high, source, W, w - 1);
      var word := high[w - 1];
      assert high[..w][..w - 1] == high[..w - 1];
      assert WordHolds(word, source, W, |source|, w - 1);
      hide PopCount;
      CountCut(word, source, W, w - 1, 0, Ones(high[..w - 1]), 64);
      assert MaskFrom(word, 0)[..64] == word;
    }
  }

  /** The high vector has exactly one set bit per value, at strictly increasing positions, and fewer than three bits
      per value in all. */
  lemma HighPopulation(ef: EliasFano, source: seq<nat>)
    requires Encodes(ef, source)
    ensures Ones(ef.high) == |source|
    ensures |source| > 0 ==> HighExtent(ef) == HighBits(source, ef.width) < 3 * |source|
    ensures forall i, j | 0 <= i < j < |source| :: Position(source, ef.width, i) < Position(source, ef.width, j)
    ensures forall i | 0 <= i < |source| ::
              Position(source, ef.width, i) < 64 * |ef.high|
              && ef.high[Position(source, ef.width, i) / 64][Position(source, ef.width, i) % 64]
  {
    forall i, j | 0 <= i < j < |source| ensures Position(source, ef.width, i) < Position(source, ef.width, j) {
      PositionsIncrease(source, ef.width, i, j);
    }
    if |source| > 0 {
      HighIsShort(source);
      forall i | 0 <= i < |source|
        ensures Position(source, ef.width, i) < 64 * |ef.high|
        ensures ef.high[Position(source, ef.width, i) / 64][Position(source, ef.width, i) % 64]
      {
        HighBitSet(ef, source, i);
      }
      OnesBelow(ef.high, source, ef.width, |ef.high|);
      assert ef.high[..|ef.high|] == ef.high;
      HighBitSet(ef, source, |source| - 1);
    }
  }

  /** Selecting bit r of a masked word finds entry c + r. */
  lemma SelectedEntry(value: Word, source: seq<nat>, W: nat, word: nat, from: nat, c: nat, r: nat, k: nat)
    requires Monotone(source) && WordHolds(value, source, W, |source|, word) && from <= 64
    requires Cut(source, W, 64 * word + from, c) && IsSelect(MaskFrom(value, from), r, k)
    ensures c + r < |source| && Position(source, W, c + r) == 64 * word + k
  {
    CountCut(value, source, W, word, from, c, k);
    MarkedAtCut(source, W, 64 * word + k, c + r);
  }

  /** `std::popcount`. */
  method Population(word: Word) returns (c: nat)
    ensures c == PopCount(word)
  {
    c := 0;
    for k := 0 to 64
      invariant c == PopCount(word[..k])
    {
      assert word[..k + 1] == word[..k] + [word[k]];
      if word[k] { c := c + 1; }
    }
    assert word[..64] == word;
  }

  // ----- select

  /** The group of an ordinal, its sample, and the bound on a dense group's span. */
  lemma GroupOfOrdinal(ef: EliasFano, source: seq<nat>, ordinal: nat)
    requires Encodes(ef, source) && ordinal < |source|
    ensures var g, W := ordinal / 256, ef.width;
            && g < |ef.samples| && SampleOk(ef.samples[g], ef.sparse, source, W, g)
            && Cut(source, W, ef.samples[g].first, 256 * g)
            && ef.samples[g].first <= Position(source, W, ordinal) < HighBits(source, W)
            && (ef.samples[g].sparse.None? ==> Position(source, W, ordinal) - ef.samples[g].first < 4096)
  {
    var g, W := ordinal / 256, ef.width;
    assert SampleOk(ef.samples[g], ef.sparse, source, W, g);
    PositionBound(source, W, ordinal);
    if 256 * g < ordinal { PositionsIncrease(source, W, 256 * g, ordinal); }
    if g > 0 { PositionsIncrease(source, W, 256 * g - 1, 256 * g); }
    if ordinal < GroupEnd(|source|, g) - 1 { PositionsIncrease(source, W, ordinal, GroupEnd(|source|, g) - 1); }
  }

  /** `high_bits_`. */
  function HighExtent(ef: EliasFano): nat {
    Shr(ef.universe, ef.width) + ef.count
  }

  /** An entry's own bit is set. */
  lemma HighBitSet(ef: EliasFano, source: seq<nat>, ordinal: nat)
    requires Encodes(ef, source) && ordinal < |source|
    ensures HighExtent(ef) == HighBits(source, ef.width)
    ensures var p := Position(source, ef.width, ordinal); p < HighExtent(ef) && p / 64 < |ef.high| && ef.high[p / 64][p % 64]
  {
    var p := Position(source, ef.width, ordinal);
    PositionBound(source, ef.width, ordinal);
    assert WordHolds(ef.high[p / 64], source, ef.width, |source|, p / 64);
    assert p == 64 * (p / 64) + p % 64;
    assert Marked(source, ef.width, |source|, p);
  }

  /** A spelled-out group has every position at its lane. */
  lemma SparseEntry(ef: EliasFano, ordinal: nat, at: nat, source: seq<nat>)
    requires Encodes(ef, source) && ordinal < |source|
    requires ordinal / 256 < |ef.samples| && ef.samples[ordinal / 256].sparse == Some(at)
    ensures at + ordinal % 256 < |ef.sparse| && ef.sparse[at + ordinal % 256] == Position(source, ef.width, ordinal)
  {
    var g, lane := ordinal / 256, ordinal % 256;
    GroupOfOrdinal(ef, source, ordinal);
    var part := ef.sparse[at..at + (GroupEnd(|source|, g) - 256 * g)];
    assert part[lane] == Position(source, ef.width, 256 * g + lane);
  }

  /** The sparse branch of `select_high`. */
  method SelectSparse(ef: EliasFano, ordinal: nat, at: nat, ghost source: seq<nat>) returns (position: Option<nat>)
    requires Encodes(ef, source) && ordinal < |source| && ef.samples[ordinal / 256].sparse == Some(at)
    ensures position == Some(Position(source, ef.width, ordinal))
  {
    SparseEntry(ef, ordinal, at, source);
    hide Encodes, Position;
    var remaining := ordinal % 256;
    if at > |ef.sparse| || remaining >= |ef.sparse| - at { return None; }
    var p := ef.sparse[at + remaining];
    HighBitSet(ef, source, ordinal);
    if p >= HighExtent(ef) || !ef.high[p / 64][p % 64] { return None; }
    return Some(p);
  }

  /** One word of a dense scan: the wanted bit, or how many set bits to skip. */
  method DenseWord(ef: EliasFano, word: nat, from: nat, remaining: nat, ordinal: nat, ghost source: seq<nat>)
    returns (bit: Option<nat>, population: nat)
    requires Encodes(ef, source) && remaining <= ordinal < |source| && word < |ef.high| && from < 64
    requires Cut(source, ef.width, 64 * word + from, ordinal - remaining)
    ensures bit.Some? ==> Position(source, ef.width, ordinal) == 64 * word + bit.value
    ensures bit.None? ==> population <= remaining && Cut(source, ef.width, 64 * (word + 1), ordinal - remaining + population)
    ensures bit.None? ==> 64 * (word + 1) <= Position(source, ef.width, ordinal)
  {
    hide Position, Encodes, PopCount, Cut;
    var value := MaskFrom(ef.high[word], from);
    HighWord(ef, source, word);
    population := Population(value);
    if remaining < population {
      var k := SelectBit(value, remaining);
      SelectedEntry(ef.high[word], source, ef.width, word, from, ordinal - remaining, remaining, k);
      return Some(k), population;
    }
    CountCut(ef.high[word], source, ef.width, word, from, ordinal - remaining, 64);
    assert value[..64] == value;
    PastTarget(source, ef.width, 64 * (word + 1), ordinal - remaining + population, ordinal);
    bit := None;
  }

  /** The dense branch: at most 65 words hold the group, and the wanted bit is found in one of them. */
  method SelectDense(ef: EliasFano, ordinal: nat, first: nat, ghost source: seq<nat>) returns (position: Option<nat>)
    requires Encodes(ef, source) && ordinal < |source|
    requires ordinal / 256 < |ef.samples| && ef.samples[ordinal / 256] == Sample(first, None)
    ensures position == Some(Position(source, ef.width, ordinal))
  {
    hide Position, Encodes, SampleOk, HighBits, Cut;
    GroupOfOrdinal(ef, source, ordinal);
    HighBitSet(ef, source, ordinal);
    if first >= HighExtent(ef) { return None; }
    var word: nat, remaining: nat, scanned: nat, from: nat := first / 64, ordinal % 256, 0, first % 64;
    while scanned < 65 && word < |ef.high|
      invariant word == first / 64 + scanned && from < 64 && remaining <= ordinal
      invariant word <= Position(source, ef.width, ordinal) / 64
      invariant Cut(source, ef.width, 64 * word + from, ordinal - remaining)
      decreases 65 - scanned
    {
      var bit, population := DenseWord(ef, word, from, remaining, ordinal, source);
      if bit.Some? {
        var p := word * 64 + bit.value;
        if p >= HighExtent(ef) || p - first >= 4096 { return None; }
        return Some(p);
      }
      word, remaining, scanned, from := word + 1, remaining - population, scanned + 1, 0;
    }
    assert false;
  }

  lemma HighWord(ef: EliasFano, source: seq<nat>, word: nat)
    requires Encodes(ef, source) && word < |ef.high|
    ensures Monotone(source) && WordHolds(ef.high[word], source, ef.width, |source|, word)
  {
  }

  /** If at most `ordinal` entries stand below p, entry `ordinal` stands at or above it. */
  lemma PastTarget(source: seq<nat>, W: nat, p: nat, c: nat, ordinal: nat)
    requires Monotone(source) && Cut(source, W, p, c) && c <= ordinal < |source|
    ensures p <= Position(source, W, ordinal)
  {
    if c < ordinal { PositionsIncrease(source, W, c, ordinal); }
  }

  /** `decode`: the value is its high part and its low field. */
  method Decode(ef: EliasFano, ordinal: nat, position: nat, ghost source: seq<nat>) returns (value: Option<nat>)
    requires Encodes(ef, source) && ordinal < |source| && position == Position(source, ef.width, ordinal)
    ensures value == Some(source[ordinal])
  {
    ghost var last := |source| - 1;
    assert source[ordinal] <= source[last];
    ShrMonotone(source[ordinal], source[last], ef.width);
    if position < ordinal { return None; }
    var high := position - ordinal;
    if high > Shr(ef.universe, ef.width) { return None; }
    var low := ReadLow(ef.low, ef.width, ordinal, source);
    SplitJoin(source[ordinal], ef.width);
    var v := Join(high, low);
    if v > ef.universe { return None; }
    return Some(v);
  }

  method SelectHigh(ef: EliasFano, ordinal: nat, ghost source: seq<nat>) returns (position: Option<nat>)
    requires Encodes(ef, source) && ordinal < |source|
    ensures position == Some(Position(source, ef.width, ordinal))
  {
    GroupOfOrdinal(ef, source, ordinal);
    var sample := ef.samples[ordinal / 256];
    if sample.sparse.Some? {
      position := SelectSparse(ef, ordinal, sample.sparse.value, source);
    } else {
      position := SelectDense(ef, ordinal, sample.first, source);
    }
  }

  /** `select`: the round trip. Only an ordinal past the end is refused. */
  method Select(ef: EliasFano, ordinal: nat, ghost source: seq<nat>) returns (value: Option<nat>)
    requires Encodes(ef, source)
    ensures value == if ordinal < |source| then Some(source[ordinal]) else None
  {
    if ordinal >= ef.count { return None; }
    var position := SelectHigh(ef, ordinal, source);
    value := Decode(ef, ordinal, position.value, source);
  }

  // ----- forward cursors

  /** The unused bits of the current word: everything from the next entry on. */
  ghost predicate Facing(ef: EliasFano, source: seq<nat>, ordinal: nat, word: nat, from: nat, remaining: Word) {
    && word < |ef.high| && from <= 64 && remaining == MaskFrom(ef.high[word], from)
    && Cut(source, ef.width, 64 * word + from, ordinal)
  }

  /** `std::countr_zero` of a nonzero word. */
  method LowestBit(word: Word) returns (k: nat)
    requires exists i :: 0 <= i < 64 && word[i]
    ensures k < 64 && word[k] && forall i | 0 <= i < k :: !word[i]
  {
    k := 0;
    while !word[k]
      invariant k < 64 && forall i | 0 <= i < k :: !word[i]
      decreases 64 - k
    {
      k := k + 1;
    }
  }

  predicate Blank(word: Word) {
    forall k | 0 <= k < 64 :: !word[k]
  }

  /** An exhausted word: the next entry stands in a later one. */
  lemma BlankPasses(ef: EliasFano, source: seq<nat>, ordinal: nat, word: nat, from: nat, remaining: Word)
    requires Encodes(ef, source) && ordinal < |source| && Facing(ef, source, ordinal, word, from, remaining)
    requires Blank(remaining)
    ensures Cut(source, ef.width, 64 * (word + 1), ordinal)
    ensures 64 * (word + 1) <= Position(source, ef.width, ordinal)
  {
    HighWord(ef, source, word);
    CountCut(ef.high[word], source, ef.width, word, from, ordinal, 64);
    LowClear(remaining, 64);
  }

  /** The lowest remaining bit is the next entry; clearing it moves on by one. */
  lemma LowestIsNext(ef: EliasFano, source: seq<nat>, ordinal: nat, word: nat, from: nat, remaining: Word, k: nat)
    requires Encodes(ef, source) && ordinal < |source| && Facing(ef, source, ordinal, word, from, remaining)
    requires k < 64 && remaining[k] && forall i | 0 <= i < k :: !remaining[i]
    ensures Position(source, ef.width, ordinal) == 64 * word + k
    ensures Facing(ef, source, ordinal + 1, word, k + 1, remaining[k := false])
  {
    LowClear(remaining, k);
    HighWord(ef, source, word);
    SelectedEntry(ef.high[word], source, ef.width, word, from, ordinal, 0, k);
    if ordinal + 1 < |source| { PositionsIncrease(source, ef.width, ordinal, ordinal + 1); }
    var cleared := remaining[k := false];
    assert cleared == MaskFrom(ef.high[word], k + 1) by {
      forall i | 0 <= i < 64 ensures cleared[i] == MaskFrom(ef.high[word], k + 1)[i] {}
    }
  }

  class EliasFanoCursor {
    const ef: EliasFano
    ghost const source: seq<nat>
    var sample: Sample
    var ordinal: nat
    var word: nat
    var remaining: Word
    ghost var from: nat

    ghost predicate Valid()
      reads this
    {
      && Encodes(ef, source) && ordinal <= |source|
      && (ordinal < |source| && ordinal % 256 != 0 ==> InGroup())
    }

    /** Inside a group: its sample is loaded and, if it is dense, the word faces the next entry. */
    ghost predicate InGroup()
      reads this
    {
      && ordinal < |source| && ordinal / 256 < |ef.samples| && sample == ef.samples[ordinal / 256]
      && (sample.sparse.None? ==> Facing(ef, source, ordinal, word, from, remaining))
    }

    constructor (fano: EliasFano, start: nat, ghost values: seq<nat>)
      requires Encodes(fano, values) && start <= |values|
      ensures Valid() && ef == fano && source == values && ordinal == start
    {
      ef, source, ordinal, word, remaining, from := fano, values, start, 0, ZeroWord(), 0;
      sample := Sample(0, None);
      new;
      if start == fano.count || start % 256 == 0 { return; }
      GroupOfOrdinal(fano, values, start);
      sample := fano.samples[start / 256];
      if sample.sparse.None? {
        var position := SelectHigh(fano, start, values);
        HighBitSet(fano, values, start);
        EntryCut(fano, values, start);
        word, from := position.value / 64, position.value % 64;
        remaining := MaskFrom(fano.high[word], position.value % 64);
      }
    }

    predicate Done()
      reads this
    {
      ordinal == ef.count
    }

    /** Enter the next directory sample. */
    method Enter()
      requires Valid() && ordinal < |source| && ordinal % 256 == 0
      modifies this
      ensures Valid() && InGroup() && ordinal == old(ordinal)
    {
      hide Encodes, Position, SampleOk;
      GroupOfOrdinal(ef, source, ordinal);
      sample := ef.samples[ordinal / 256];
      if sample.sparse.None? {
        HighBitSet(ef, source, ordinal);
        word, from := sample.first / 64, sample.first % 64;
        remaining := MaskFrom(ef.high[word], sample.first % 64);
      }
    }

    /** The next position of a dense group: scan past blank words, never past the 65th. */
    method NextDense() returns (position: Option<nat>)
      requires Valid() && InGroup() && sample.sparse.None?
      modifies this`word, this`remaining, this`from
      ensures position == Some(Position(source, ef.width, ordinal))
      ensures Facing(ef, source, ordinal + 1, word, from, remaining)
    {
      hide Encodes, Position, SampleOk, Cut;
      GroupOfOrdinal(ef, source, ordinal);
      HighBitSet(ef, source, ordinal);
      while Blank(remaining)
        invariant Facing(ef, source, ordinal, word, from, remaining)
        decreases |ef.high| - word
      {
        BlankPasses(ef, source, ordinal, word, from, remaining);
        assert word + 1 < |ef.high| && word + 1 - sample.first / 64 < 65;
        word := word + 1;
        remaining, from := ef.high[word], 0;
        assert remaining == MaskFrom(ef.high[word], 0);
      }
      var k := LowestBit(remaining);
      LowestIsNext(ef, source, ordinal, word, from, remaining, k);
      var p := 64 * word + k;
      remaining, from := remaining[k := false], k + 1;
      assert !(p >= HighExtent(ef) || p - sample.first >= 4096);
      position := Some(p);
    }

    /** `next`: the entry at the cursor, whatever mixture of groups it crosses. */
    method Next() returns (value: Option<nat>)
      requires Valid()
      modifies this
      ensures Valid()
      ensures old(ordinal) < |source| ==> value == Some(source[old(ordinal)]) && ordinal == old(ordinal) + 1
      ensures old(ordinal) == |source| ==> value == None && ordinal == old(ordinal)
    {
      hide Encodes, Position, SampleOk, Facing;
      CountIs(ef, source);
      if Done() { return None; }
      if ordinal % 256 == 0 { Enter(); }
      var position;
      if sample.sparse.Some? {
        position := SelectSparse(ef, ordinal, sample.sparse.value, source);
      } else {
        position := NextDense();
      }
      value := Decode(ef, ordinal, position.value, source);
      ordinal := ordinal + 1;
    }
  }

  lemma CountIs(ef: EliasFano, source: seq<nat>)
    requires Encodes(ef, source)
    ensures ef.count == |source|
  {
  }

  lemma EntryCut(ef: EliasFano, source: seq<nat>, ordinal: nat)
    requires Encodes(ef, source) && ordinal < |source|
    ensures Cut(source, ef.width, Position(source, ef.width, ordinal), ordinal)
  {
    if ordinal > 0 { PositionsIncrease(source, ef.width, ordinal - 1, ordinal); }
  }

  /** A cursor started anywhere yields exactly the remaining suffix. */
  method ReadSuffix(ef: EliasFano, start: nat, ghost source: seq<nat>) returns (values: seq<nat>)
    requires Encodes(ef, source) && start <= |source|
    ensures values == source[start..]
  {
    var cursor := new EliasFanoCursor(ef, start, source);
    values := [];
    while !cursor.Done()
      invariant cursor.Valid() && cursor.ef == ef && cursor.source == source && cursor.ordinal == start + |values|
      invariant values == source[start..cursor.ordinal]
      decreases |source| - cursor.ordinal
    {
      var value := cursor.Next();
      values := values + [value.value];
    }
  }

  /** The whole codec: what is built is read back, value by value and in sequence. */
  method RoundTrip(source: seq<nat>, i: nat) returns (built: Option<EliasFano>, value: Option<nat>, suffix: seq<nat>)
    requires forall v | v in source :: v < Pow2(64)
    requires i <= |source|
    ensures built.Some? <==> Monotone(source) && (|source| > 0 ==> !TooLarge(|source|, source[|source| - 1]))
    ensures built.Some? ==> value == (if i < |source| then Some(source[i]) else None) && suffix == source[i..]
  {
    built := Build(source);
    value, suffix := None, [];
    if built.Some? {
      value := Select(built.value, i, source);
      suffix := ReadSuffix(built.value, i, source);
    }
  }
}
